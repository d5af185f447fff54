/** UTF-8 as section 3 of RFC 3629 defines it, over sequences of Unicode scalar values. */
module Utf8 {

  type Byte = x: int | 0 <= x < 256

  /** A Unicode scalar value: a code point that is no surrogate. */
  type Scalar = x: int | 0 <= x < 0xD800 || 0xE000 <= x < 0x11_0000

  /** Well-formed text; a lone surrogate has no place in it. */
  type Text = seq<Scalar>

  datatype Decoded = Malformed | Decoded(text: Text)

  const NEWLINE: Byte := 0x0A

  function EncodeScalar(c: Scalar): (b: seq<Byte>)
    ensures 1 <= |b| <= 4
    ensures !IsContinuation(b[0])
    ensures forall i | 0 < i < |b| :: IsContinuation(b[i])
    ensures c == NEWLINE <==> b == [NEWLINE]
    ensures NEWLINE in b ==> c == NEWLINE
  {
    var low, high := c / 0x40, c / 0x40 / 0x40;
    if c < 0x80 then [c]
    else if c < 0x800 then [0xC0 + low, 0x80 + c % 0x40]
    else if c < 0x1_0000 then [0xE0 + high, 0x80 + low % 0x40, 0x80 + c % 0x40]
    else [0xF0 + high / 0x40, 0x80 + high % 0x40, 0x80 + low % 0x40, 0x80 + c % 0x40]
  }

  function Encode(t: Text): (b: seq<Byte>)
    ensures t == [] <==> b == []
  {
    if t == [] then [] else EncodeScalar(t[0]) + Encode(t[1..])
  }

  /** A byte `10xxxxxx`: the source tests `(byte & 0xc0) === 0x80`. */
  predicate IsContinuation(b: Byte) {
    0x80 <= b < 0xC0
  }

  /** How many bytes the character led by `lead` takes; 0 for a byte that leads none. */
  function Width(lead: Byte): nat {
    if lead < 0x80 then 1
    else if 0xC2 <= lead < 0xE0 then 2
    else if 0xE0 <= lead < 0xF0 then 3
    else if 0xF0 <= lead < 0xF5 then 4
    else 0
  }

  /** The number a character's bytes spell, before any range check. */
  function Spelled(b: seq<Byte>): int
    requires 1 <= |b| <= 4
  {
    var lead: int := b[0];
    if |b| == 1 then lead else
      var value := (lead - if |b| == 2 then 0xC0 else if |b| == 3 then 0xE0 else 0xF0) * 0x40 + b[1] - 0x80;
      var value := if |b| == 2 then value else value * 0x40 + b[2] - 0x80;
      if |b| < 4 then value else value * 0x40 + b[3] - 0x80
  }

  /** Strict decoding: the shortest form of scalar values only. */
  function Decode(b: seq<Byte>): Decoded {
    if b == [] then Decoded([]) else
      var width := Width(b[0]);
      if width == 0 || |b| < width then Malformed else
        var c := Spelled(b[..width]);
        if !(0 <= c < 0xD800 || 0xE000 <= c < 0x11_0000) || EncodeScalar(c) != b[..width] then Malformed else
          match Decode(b[width..])
          case Malformed => Malformed
          case Decoded(rest) => Decoded([c] + rest)
  }

  lemma SpelledScalar(c: Scalar)
    ensures Width(EncodeScalar(c)[0]) == |EncodeScalar(c)|
    ensures Spelled(EncodeScalar(c)) == c
  {
  }

  /** Decoding undoes encoding. */
  lemma {:induction false} DecodeEncode(t: Text)
    ensures Decode(Encode(t)) == Decoded(t)
  {
    if t != [] {
      var first := EncodeScalar(t[0]);
      SpelledScalar(t[0]);
      DecodeEncode(t[1..]);
      assert Encode(t)[..|first|] == first;
      assert Encode(t)[|first|..] == Encode(t[1..]);
    }
  }

  lemma {:induction false} EncodeConcat(s: Text, t: Text)
    ensures Encode(s + t) == Encode(s) + Encode(t)
  {
    hide EncodeScalar;
    if s == [] {
      assert s + t == t;
    } else {
      EncodeConcat(s[1..], t);
      assert (s + t)[1..] == s[1..] + t;
    }
  }

  /** Position `i` of `b` splits no character. */
  predicate IsBoundary(b: seq<Byte>, i: int) {
    0 <= i <= |b| && (i == |b| || !IsContinuation(b[i]))
  }

  /** Every boundary of encoded text lies between two of its characters. */
  lemma {:induction false} BoundarySplitsText(t: Text, i: nat) returns (k: nat)
    requires IsBoundary(Encode(t), i)
    ensures k <= |t|
    ensures Encode(t[..k]) == Encode(t)[..i]
    ensures Encode(t[k..]) == Encode(t)[i..]
  {
    hide EncodeScalar;
    if i == 0 {
      k := 0;
      assert t[k..] == t;
    } else {
      var first := EncodeScalar(t[0]);
      var after := Encode(t[1..]);
      assert Encode(t) == first + after;
      assert i >= |first|;
      assert Encode(t)[i..] == after[i - |first|..];
      assert Encode(t)[..i] == first + after[..i - |first|];
      var rest := BoundarySplitsText(t[1..], i - |first|);
      k := rest + 1;
      assert t[..k][1..] == t[1..][..rest];
      assert t[k..] == t[1..][rest..];
    }
  }

  /** How often the newline occurs, in a text or in its bytes. */
  function Newlines(s: seq<int>): (n: nat)
    ensures n == 0 <==> NEWLINE !in s
    ensures n <= |s|
  {
    multiset(s)[0x0A]
  }

  /** The newlines of a text are the newline bytes of its encoding. */
  lemma {:induction false} NewlinesEncoded(t: Text)
    ensures Newlines(t) == Newlines(Encode(t))
    ensures t != [] ==> (t[|t| - 1] == NEWLINE <==> Encode(t)[|Encode(t)| - 1] == NEWLINE)
  {
    hide EncodeScalar;
    if t != [] {
      NewlinesEncoded(t[1..]);
      var first := EncodeScalar(t[0]);
      assert t == [t[0]] + t[1..];
      assert Encode(t) == first + Encode(t[1..]);
      assert Newlines(first) == if t[0] == NEWLINE then 1 else 0;
      if |t| == 1 {
        assert Encode(t) == first;
        assert NEWLINE in first <==> t[0] == NEWLINE;
      }
    }
  }

  /** A character starts right after each newline, and at the start. */
  lemma {:induction false} BoundaryAfterNewline(t: Text, i: nat)
    requires i < |Encode(t)| && (i == 0 || Encode(t)[i - 1] == NEWLINE)
    ensures IsBoundary(Encode(t), i)
  {
    hide EncodeScalar;
    var first := EncodeScalar(t[0]);
    if i > |first| {
      BoundaryAfterNewline(t[1..], i - |first|);
    } else if i == |first| {
      BoundaryAfterNewline(t[1..], 0);
    }
  }
}
