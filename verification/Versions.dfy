/**
 * Which catalog revision a client version gets, and the order of versions behind it: section 11 of Semantic
 * Versioning 2.0.0, except that `localeCompare` orders the identifiers that are not numbers.
 */
module Versions {

  datatype Option<T> = None | Some(value: T)

  /** A parsed version; `pre` holds the identifiers of the pre-release and is empty without one. */
  datatype Version = Version(major: nat, minor: nat, patch: nat, pre: seq<string>)

  const SAFE := 0x20_0000_0000_0000

  predicate IsDigit(c: char) {
    '0' <= c <= '9'
  }

  function DigitValue(c: char): nat
    requires IsDigit(c)
  {
    c as int - '0' as int
  }

  predicate Digits(s: string) {
    s != [] && forall i | 0 <= i < |s| :: IsDigit(s[i])
  }

  function Decimal(s: string): nat
    requires forall i | 0 <= i < |s| :: IsDigit(s[i])
  {
    if s == [] then 0 else Decimal(s[..|s| - 1]) * 10 + DigitValue(s[|s| - 1])
  }

  /** What the platform does: `Number` of digits, and `localeCompare`. */
  datatype Platform = Platform(number: string -> int, collate: (string, string) -> int) {
    ghost predicate Valid() {
      && (forall s :: Digits(s) && Decimal(s) < SAFE ==> number(s) == Decimal(s))
      && (forall a, b :: collate(a, b) == 0 <==> a == b)
      && (forall a, b :: collate(a, b) < 0 <==> collate(b, a) > 0)
      && (forall a, b, c :: collate(a, b) < 0 && collate(b, c) < 0 ==> collate(a, c) < 0)
    }
  }

  // ---------------------------------------------------------------- the source's comparison

  function ComparePart(p: Platform, a: string, b: string): int {
    if Digits(a) && Digits(b) then p.number(a) - p.number(b)
    else if Digits(a) then -1
    else if Digits(b) then 1
    else p.collate(a, b)
  }

  function CompareParts(p: Platform, a: seq<string>, b: seq<string>): int {
    if a == [] && b == [] then 0
    else if a == [] then -1
    else if b == [] then 1
    else if a[0] == b[0] then CompareParts(p, a[1..], b[1..])
    else ComparePart(p, a[0], b[0])
  }

  function Compare(p: Platform, a: Version, b: Version): int {
    if a.major != b.major then a.major - b.major
    else if a.minor != b.minor then a.minor - b.minor
    else if a.patch != b.patch then a.patch - b.patch
    else if a.pre == b.pre then 0
    else if a.pre == [] then 1
    else if b.pre == [] then -1
    else CompareParts(p, a.pre, b.pre)
  }

  /** `comparePiVersions`, with its loop over the identifiers */
  method ComparePiVersions(p: Platform, a: Version, b: Version) returns (r: int)
    ensures r == Compare(p, a, b)
  {
    if a.major != b.major {
      return a.major - b.major;
    }
    if a.minor != b.minor {
      return a.minor - b.minor;
    }
    if a.patch != b.patch {
      return a.patch - b.patch;
    }
    if a.pre == b.pre {
      return 0;
    }
    if a.pre == [] {
      return 1;
    }
    if b.pre == [] {
      return -1;
    }
    var i := 0;
    while i < |a.pre| || i < |b.pre|
      invariant i <= |a.pre| && i <= |b.pre|
      invariant CompareParts(p, a.pre, b.pre) == CompareParts(p, a.pre[i..], b.pre[i..])
      decreases |a.pre| - i
    {
      if i >= |a.pre| {
        return -1;
      }
      if i >= |b.pre| {
        return 1;
      }
      if a.pre[i] != b.pre[i] {
        return ComparePart(p, a.pre[i], b.pre[i]);
      }
      assert a.pre[i..][1..] == a.pre[i + 1..] && b.pre[i..][1..] == b.pre[i + 1..];
      i := i + 1;
    }
    return 0;
  }

  // ---------------------------------------------------------------- when it is an order

  /** A numeric identifier has no leading zero (section 9) and is a safe integer. */
  predicate CanonicalPart(s: string) {
    Digits(s) ==> (|s| == 1 || s[0] != '0') && Decimal(s) < SAFE
  }

  predicate Canonical(v: Version) {
    forall part | part in v.pre :: CanonicalPart(part)
  }

  lemma {:induction false} DecimalPositive(s: string)
    requires Digits(s) && s[0] != '0'
    ensures Decimal(s) > 0
  {
    if |s| > 1 {
      DecimalPositive(s[..|s| - 1]);
    }
  }

  /** Two numerals without leading zeros that have one value are one numeral. */
  lemma {:induction false} DecimalInjective(a: string, b: string)
    requires Digits(a) && Digits(b) && (|a| == 1 || a[0] != '0') && (|b| == 1 || b[0] != '0')
    requires Decimal(a) == Decimal(b)
    ensures a == b
  {
    var m, n := |a| - 1, |b| - 1;
    var x, y := DigitValue(a[m]), DigitValue(b[n]);
    assert Decimal(a[..m]) * 10 + x == Decimal(b[..n]) * 10 + y;
    assert Decimal(a[..m]) == Decimal(b[..n]) && x == y;
    assert a == a[..m] + [a[m]] && b == b[..n] + [b[n]];
    if m > 0 {
      DecimalPositive(a[..m]);
    }
    if n > 0 {
      DecimalPositive(b[..n]);
    }
    if m > 0 && n > 0 {
      DecimalInjective(a[..m], b[..n]);
    }
  }

  lemma PartOrder(p: Platform, a: string, b: string)
    requires p.Valid() && CanonicalPart(a) && CanonicalPart(b)
    ensures ComparePart(p, a, b) == 0 <==> a == b
    ensures ComparePart(p, a, b) < 0 <==> ComparePart(p, b, a) > 0
  {
    if Digits(a) && Digits(b) && Decimal(a) == Decimal(b) {
      DecimalInjective(a, b);
    }
  }

  lemma PartTransitive(p: Platform, a: string, b: string, c: string)
    requires p.Valid() && ComparePart(p, a, b) < 0 && ComparePart(p, b, c) < 0
    ensures ComparePart(p, a, c) < 0
  {
  }

  ghost predicate AllCanonical(parts: seq<string>) {
    forall part | part in parts :: CanonicalPart(part)
  }

  lemma {:induction false} PartsOrder(p: Platform, a: seq<string>, b: seq<string>)
    requires p.Valid() && AllCanonical(a) && AllCanonical(b)
    ensures CompareParts(p, a, b) == 0 <==> a == b
    ensures CompareParts(p, a, b) < 0 <==> CompareParts(p, b, a) > 0
  {
    hide Platform.Valid, CanonicalPart, ComparePart;
    if a != [] && b != [] {
      PartOrder(p, a[0], b[0]);
      PartOrder(p, b[0], a[0]);
      if a[0] == b[0] {
        PartsOrder(p, a[1..], b[1..]);
        assert a == [a[0]] + a[1..] && b == [b[0]] + b[1..];
      }
    }
  }

  lemma {:induction false} PartsTransitive(p: Platform, a: seq<string>, b: seq<string>, c: seq<string>)
    requires p.Valid() && AllCanonical(a) && AllCanonical(b) && AllCanonical(c)
    requires CompareParts(p, a, b) < 0 && CompareParts(p, b, c) < 0
    ensures CompareParts(p, a, c) < 0
  {
    hide Platform.Valid, CanonicalPart, ComparePart;
    if a != [] && b != [] && c != [] {
      PartOrder(p, a[0], c[0]);
      PartOrder(p, c[0], a[0]);
      PartOrder(p, a[0], b[0]);
      PartOrder(p, b[0], a[0]);
      PartOrder(p, b[0], c[0]);
      if a[0] == b[0] == c[0] {
        PartsTransitive(p, a[1..], b[1..], c[1..]);
      } else if a[0] != b[0] && b[0] != c[0] {
        PartTransitive(p, a[0], b[0], c[0]);
      }
    }
  }

  /** On canonical versions the comparison is a total order: only equal versions compare equal. */
  lemma TotalOrder(p: Platform, a: Version, b: Version)
    requires p.Valid() && Canonical(a) && Canonical(b)
    ensures Compare(p, a, b) == 0 <==> a == b
    ensures Compare(p, a, b) < 0 <==> Compare(p, b, a) > 0
  {
    hide Platform.Valid, CanonicalPart, CompareParts;
    PartsOrder(p, a.pre, b.pre);
  }

  lemma Transitive(p: Platform, a: Version, b: Version, c: Version)
    requires p.Valid() && Canonical(a) && Canonical(b) && Canonical(c)
    requires Compare(p, a, b) <= 0 && Compare(p, b, c) <= 0
    ensures Compare(p, a, c) <= 0
    ensures Compare(p, a, b) < 0 || Compare(p, b, c) < 0 ==> Compare(p, a, c) < 0
  {
    hide Platform.Valid, CanonicalPart, CompareParts;
    TotalOrder(p, a, b);
    TotalOrder(p, b, c);
    if CompareParts(p, a.pre, b.pre) < 0 && CompareParts(p, b.pre, c.pre) < 0 {
      PartsTransitive(p, a.pre, b.pre, c.pre);
    }
  }

  /** The first identifiers in which two pre-releases differ are numerals with one `Number`. */
  predicate Collide(p: Platform, a: seq<string>, b: seq<string>) {
    a != [] && b != [] &&
    if a[0] == b[0] then Collide(p, a[1..], b[1..])
    else Digits(a[0]) && Digits(b[0]) && p.number(a[0]) == p.number(b[0])
  }

  lemma {:induction false} PartsEqualIff(p: Platform, a: seq<string>, b: seq<string>)
    requires p.Valid()
    ensures CompareParts(p, a, b) == 0 <==> a == b || Collide(p, a, b)
  {
    if a != [] && b != [] && a[0] == b[0] {
      PartsEqualIff(p, a[1..], b[1..]);
      assert a == [a[0]] + a[1..] && b == [b[0]] + b[1..];
    }
  }

  /** Exactly when two versions compare equal, canonical or not. */
  lemma EqualIff(p: Platform, a: Version, b: Version)
    requires p.Valid()
    ensures Compare(p, a, b) == 0 <==>
              a == b || (a.(pre := []) == b.(pre := []) && Collide(p, a.pre, b.pre))
  {
    hide Platform.Valid, CompareParts;
    PartsEqualIff(p, a.pre, b.pre);
  }

  /** With a leading zero the comparison is no preorder: two versions equal to a third one are not equal. */
  lemma LeadingZero(p: Platform)
    requires p.Valid()
    ensures var a, b, c := Version(1, 0, 0, ["1", "a"]), Version(1, 0, 0, ["01"]), Version(1, 0, 0, ["1", "b"]);
            Compare(p, a, b) == 0 && Compare(p, b, c) == 0 && Compare(p, a, c) != 0
  {
    assert "1"[..0] == "" && "01"[..1] == "0" && "0"[..0] == "";
    assert Decimal("") == 0;
    assert Decimal("0") == 0 && Decimal("1") == 1;
    assert Decimal("01") == 1;
    assert ["1", "a"][1..] == ["a"] && ["1", "b"][1..] == ["b"];
    assert "a"[0] == 'a' && "b"[0] == 'b';
    assert !Digits("a") && !Digits("b") && "a" != "b";
    assert ["a"][0] == "a" && ["b"][0] == "b";
    assert CompareParts(p, ["a"], ["b"]) == p.collate("a", "b");
  }

  // ---------------------------------------------------------------- section 11

  /** What section 11.4 says of two identifiers */
  ghost predicate PartPrecedes(p: Platform, a: string, b: string) {
    || (Digits(a) && Digits(b) && Decimal(a) < Decimal(b))
    || (Digits(a) && !Digits(b))
    || (!Digits(a) && !Digits(b) && p.collate(a, b) < 0)
  }

  /** The first difference decides; a longer pre-release follows its own beginning. */
  ghost predicate PreDiffers(p: Platform, a: seq<string>, b: seq<string>, k: nat) {
    && k <= |a| && k <= |b| && a[..k] == b[..k]
    && k < |b|
    && (k == |a| || PartPrecedes(p, a[k], b[k]))
  }

  ghost predicate Precedes(p: Platform, a: Version, b: Version) {
    || a.major < b.major
    || (a.major == b.major && a.minor < b.minor)
    || (a.major == b.major && a.minor == b.minor && a.patch < b.patch)
    || (a.(pre := []) == b.(pre := []) && a.pre != []
        && (b.pre == [] || exists k: nat :: PreDiffers(p, a.pre, b.pre, k)))
  }

  lemma PartPrecedesIff(p: Platform, a: string, b: string)
    requires p.Valid() && CanonicalPart(a) && CanonicalPart(b)
    ensures ComparePart(p, a, b) < 0 <==> PartPrecedes(p, a, b)
    ensures PartPrecedes(p, a, b) ==> a != b
  {
  }

  lemma {:induction false} FirstDifference(p: Platform, a: seq<string>, b: seq<string>)
    requires p.Valid() && AllCanonical(a) && AllCanonical(b)
    ensures CompareParts(p, a, b) < 0 <==> exists k: nat :: PreDiffers(p, a, b, k)
  {
    hide Platform.Valid, CanonicalPart, ComparePart, PartPrecedes;
    if b == [] {
    } else if a == [] {
      assert PreDiffers(p, a, b, 0);
    } else {
      PartPrecedesIff(p, a[0], b[0]);
      if a[0] == b[0] {
        FirstDifference(p, a[1..], b[1..]);
        LaterDifference(p, a, b);
      } else {
        assert PreDiffers(p, a, b, 0) <==> PartPrecedes(p, a[0], b[0]);
        forall k: nat | PreDiffers(p, a, b, k) ensures k == 0 {
          SameStart(p, a, b, k);
        }
      }
    }
  }

  lemma SameStart(p: Platform, a: seq<string>, b: seq<string>, k: nat)
    requires a != [] && b != [] && PreDiffers(p, a, b, k)
    ensures k > 0 ==> a[0] == b[0]
  {
    if k > 0 {
      assert a[..k][0] == b[..k][0];
    }
  }

  lemma LaterDifference(p: Platform, a: seq<string>, b: seq<string>)
    requires a != [] && b != [] && a[0] == b[0] && !PartPrecedes(p, a[0], b[0])
    ensures (exists k: nat :: PreDiffers(p, a, b, k)) <==> exists k: nat :: PreDiffers(p, a[1..], b[1..], k)
  {
    hide PartPrecedes;
    if k: nat :| PreDiffers(p, a, b, k) {
      assert k > 0;
      assert a[1..][..k - 1] == a[..k][1..] && b[1..][..k - 1] == b[..k][1..];
      assert PreDiffers(p, a[1..], b[1..], k - 1);
    }
    if k: nat :| PreDiffers(p, a[1..], b[1..], k) {
      assert a[..k + 1] == [a[0]] + a[1..][..k] && b[..k + 1] == [b[0]] + b[1..][..k];
      assert PreDiffers(p, a, b, k + 1);
    }
  }

  /** On canonical versions the comparison is the precedence of section 11, in the order of `collate`. */
  lemma ComparesPrecedence(p: Platform, a: Version, b: Version)
    requires p.Valid() && Canonical(a) && Canonical(b)
    ensures Compare(p, a, b) < 0 <==> Precedes(p, a, b)
  {
    hide Platform.Valid, CanonicalPart, CompareParts, PreDiffers;
    FirstDifference(p, a.pre, b.pre);
    PartsOrder(p, a.pre, b.pre);
  }

  // ---------------------------------------------------------------- selection

  datatype Entry = Entry(minimum: Version, revision: string)

  /** A request without a version, with one that does not parse, or with one */
  datatype Request = Unversioned | Invalid | Versioned(version: Version)

  /** `selectModelCatalog` */
  method SelectModelCatalog(p: Platform, catalogs: seq<Entry>, defaultRevision: string, request: Request)
    returns (r: Option<nat>)
    requires p.Valid()
    ensures r.Some? ==> r.value < |catalogs|
    ensures request.Invalid? ==> r.None?
    ensures request.Unversioned? ==>
              if r.None? then forall e | e in catalogs :: e.revision != defaultRevision
              else catalogs[r.value].revision == defaultRevision &&
                   forall e | e in catalogs[..r.value] :: e.revision != defaultRevision
    ensures request.Versioned? ==>
              if r.None? then forall e | e in catalogs :: Compare(p, e.minimum, request.version) > 0
              else Compare(p, catalogs[r.value].minimum, request.version) <= 0
    ensures request.Versioned? && r.Some? && (forall e | e in catalogs :: Canonical(e.minimum)) ==>
              forall i | 0 <= i < |catalogs| && Compare(p, catalogs[i].minimum, request.version) <= 0 ::
                AtMost(p, catalogs[i].minimum, catalogs[r.value].minimum, i >= r.value)
  {
    r := None;
    match request {
      case Invalid =>
      case Unversioned =>
        for i := 0 to |catalogs|
          invariant forall e | e in catalogs[..i] :: e.revision != defaultRevision
        {
          if catalogs[i].revision == defaultRevision {
            return Some(i);
          }
        }
        assert catalogs[..|catalogs|] == catalogs;
      case Versioned(version) =>
        r := SelectHighest(p, catalogs, version);
    }
  }

  /** Not above; below, when equality is not allowed. */
  predicate AtMost(p: Platform, a: Version, b: Version, equal: bool) {
    Compare(p, a, b) < 0 || (equal && a == b)
  }

  method SelectHighest(p: Platform, catalogs: seq<Entry>, version: Version) returns (r: Option<nat>)
    requires p.Valid()
    ensures r.Some? ==> r.value < |catalogs| && Compare(p, catalogs[r.value].minimum, version) <= 0
    ensures r.None? ==> forall e | e in catalogs :: Compare(p, e.minimum, version) > 0
    ensures r.Some? && (forall e | e in catalogs :: Canonical(e.minimum)) ==>
              forall i | 0 <= i < |catalogs| && Compare(p, catalogs[i].minimum, version) <= 0 ::
                AtMost(p, catalogs[i].minimum, catalogs[r.value].minimum, i >= r.value)
  {
    hide Platform.Valid, Compare, Canonical;
    r := None;
    for i := 0 to |catalogs|
      invariant r.Some? ==> r.value < i && Compare(p, catalogs[r.value].minimum, version) <= 0
      invariant r.None? ==> forall j | 0 <= j < i :: Compare(p, catalogs[j].minimum, version) > 0
      invariant r.Some? && (forall e | e in catalogs :: Canonical(e.minimum)) ==>
                  forall j | 0 <= j < i && Compare(p, catalogs[j].minimum, version) <= 0 ::
                    AtMost(p, catalogs[j].minimum, catalogs[r.value].minimum, j >= r.value)
    {
      var minimum := catalogs[i].minimum;
      var fits := ComparePiVersions(p, minimum, version);
      if fits <= 0 {
        var better := true;
        if r.Some? {
          var c := ComparePiVersions(p, minimum, catalogs[r.value].minimum);
          better := c > 0;
          if forall e | e in catalogs :: Canonical(e.minimum) {
            Better(p, catalogs, version, i, r.value);
          }
        } else if Canonical(minimum) {
          TotalOrder(p, minimum, minimum);
        }
        if better {
          r := Some(i);
        }
      }
    }
  }

  /** One more candidate that beats the best so far beats all of them; one that does not is at most the best. */
  lemma Better(p: Platform, catalogs: seq<Entry>, version: Version, i: nat, best: nat)
    requires p.Valid() && best < i < |catalogs| && forall e | e in catalogs :: Canonical(e.minimum)
    requires forall j | 0 <= j < i && Compare(p, catalogs[j].minimum, version) <= 0 ::
               AtMost(p, catalogs[j].minimum, catalogs[best].minimum, j >= best)
    ensures var b, m := catalogs[best].minimum, catalogs[i].minimum;
            if Compare(p, m, b) > 0 then
              forall j | 0 <= j < i && Compare(p, catalogs[j].minimum, version) <= 0 ::
                AtMost(p, catalogs[j].minimum, m, false)
            else AtMost(p, m, b, true)
  {
    hide Platform.Valid, Compare, Canonical;
    var b, m := catalogs[best].minimum, catalogs[i].minimum;
    TotalOrder(p, m, b);
    TotalOrder(p, b, m);
    if Compare(p, m, b) > 0 {
      forall j | 0 <= j < i && Compare(p, catalogs[j].minimum, version) <= 0
        ensures AtMost(p, catalogs[j].minimum, m, false)
      {
        TotalOrder(p, catalogs[j].minimum, b);
        Transitive(p, catalogs[j].minimum, b, m);
      }
    }
  }
}
