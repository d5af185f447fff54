/**
 * CRC-32 of PNG chunks, table-driven as in the source and bit by bit as section 5.5 of the PNG specification
 * defines it.
 */
module Crc {

  type Word = bv32

  const ONES: Word := 0xffff_ffff

  function Xor(a: Word, b: Word): Word {
    a ^ b
  }

  function Half(a: Word): Word {
    a >> 1
  }

  predicate Odd(a: Word) {
    a & 1 == 1
  }

  function Low(a: Word): Word {
    a & 0xff
  }

  function High(a: Word): Word {
    a & 0xffff_ff00
  }

  function Right(a: Word): Word {
    a >> 8
  }

  function Left(a: Word): Word {
    a << 8
  }

  function Widen(b: bv8): Word {
    b as bv32
  }

  /** Shift one bit out of the register. */
  function Step(c: Word): Word {
    if Odd(c) then Xor(0xedb88320, Half(c)) else Half(c)
  }

  function Steps(c: Word, k: nat): Word {
    if k == 0 then c else Step(Steps(c, k - 1))
  }

  /** The register after `bytes`, one bit at a time. */
  function Register(c: Word, bytes: seq<bv8>): Word {
    if bytes == [] then c else
      var n := |bytes| - 1;
      Steps(Xor(Register(c, bytes[..n]), Widen(bytes[n])), 8)
  }

  /** The CRC: the register starts and is complemented with all ones. */
  function BitwiseCrc(bytes: seq<bv8>): Word {
    Xor(Register(ONES, bytes), ONES)
  }

  // ---------------------------------------------------------------- bits

  lemma XorHalf(a: Word, b: Word)
    ensures Half(Xor(a, b)) == Xor(Half(a), Half(b))
  {
  }

  lemma XorOdd(a: Word, b: Word)
    ensures Odd(Xor(a, b)) <==> Odd(a) != Odd(b)
  {
  }

  lemma XorAssociates(a: Word, b: Word, c: Word)
    ensures Xor(Xor(a, b), c) == Xor(a, Xor(b, c))
  {
  }

  lemma XorCommutes(a: Word, b: Word)
    ensures Xor(a, b) == Xor(b, a)
  {
  }

  lemma XorSelf(a: Word)
    ensures Xor(a, a) == 0
  {
  }

  lemma XorUnit(a: Word)
    ensures Xor(a, 0) == a
  {
  }

  lemma XorZero(a: Word, b: Word)
    ensures Xor(a, b) == 0 <==> a == b
    ensures Xor(a, 0) == a && Xor(0, a) == a
  {
    hide Xor;
    XorSelf(b);
    XorUnit(a);
    XorUnit(b);
    XorCommutes(a, 0);
    XorCommutes(b, 0);
    XorAssociates(a, b, b);
  }

  lemma XorCancels(a: Word, b: Word, c: Word)
    ensures Xor(Xor(a, b), Xor(a, c)) == Xor(b, c)
  {
    hide Xor;
    XorSwap(a, b, a, c);
    XorSelf(a);
    XorZero(Xor(b, c), 0);
  }

  lemma StepZero(a: Word)
    ensures Step(a) == 0 <==> a == 0
  {
  }

  lemma LowAndHigh(c: Word)
    ensures c == Xor(Low(c), High(c)) && Low(High(c)) == 0 && Right(High(c)) == Right(c)
  {
  }

  lemma ByteBits(c: Word, b: bv8)
    ensures Right(Xor(c, Widen(b))) == Right(c)
    ensures Low(c) < 256
  {
  }

  lemma Halves(a: Word)
    requires Low(a) == 0
    ensures !Odd(a) && !Odd(a >> 1) && !Odd(a >> 2) && !Odd(a >> 3)
    ensures !Odd(a >> 4) && !Odd(a >> 5) && !Odd(a >> 6) && !Odd(a >> 7)
    ensures Half(a) == a >> 1 && Half(a >> 1) == a >> 2 && Half(a >> 2) == a >> 3 && Half(a >> 3) == a >> 4
    ensures Half(a >> 4) == a >> 5 && Half(a >> 5) == a >> 6 && Half(a >> 6) == a >> 7 && Half(a >> 7) == Right(a)
  {
  }

  // ---------------------------------------------------------------- the register is linear

  lemma StepLinear(a: Word, b: Word)
    ensures Step(Xor(a, b)) == Xor(Step(a), Step(b))
  {
    hide Xor, Half, Odd;
    var x, y, p := Half(a), Half(b), 0xedb88320;
    XorHalf(a, b);
    XorOdd(a, b);
    XorCancels(p, x, y);
    XorAssociates(p, x, y);
    XorAssociates(x, p, y);
    XorCommutes(x, p);
  }

  lemma {:induction false} StepsLinear(a: Word, b: Word, k: nat)
    ensures Steps(Xor(a, b), k) == Xor(Steps(a, k), Steps(b, k))
  {
    hide Xor, Step;
    if k > 0 {
      StepsLinear(a, b, k - 1);
      StepLinear(Steps(a, k - 1), Steps(b, k - 1));
    }
  }

  lemma {:induction false} StepsZero(a: Word, k: nat)
    ensures Steps(a, k) == 0 <==> a == 0
  {
    hide Step;
    if k > 0 {
      StepsZero(a, k - 1);
      StepZero(Steps(a, k - 1));
    }
  }

  /** No two registers step to the same one. */
  lemma StepsInjective(a: Word, b: Word, k: nat)
    ensures Steps(a, k) == Steps(b, k) <==> a == b
  {
    hide Xor, Steps;
    StepsLinear(a, b, k);
    StepsZero(Xor(a, b), k);
    XorZero(a, b);
    XorZero(Steps(a, k), Steps(b, k));
  }

  /** A register with a zero low byte only shifts. */
  lemma StepsShift(a: Word)
    requires Low(a) == 0
    ensures Steps(a, 8) == Right(a)
  {
    hide Xor, Half, Odd, Low, Right;
    Halves(a);
    assert Steps(a, 0) == a && Steps(a, 1) == a >> 1;
    assert Steps(a, 2) == a >> 2;
    assert Steps(a, 3) == a >> 3;
    assert Steps(a, 4) == a >> 4;
    assert Steps(a, 5) == a >> 5;
    assert Steps(a, 6) == a >> 6;
    assert Steps(a, 7) == a >> 7;
  }

  /** Eight steps are one table look-up and a shift. */
  lemma StepsByTable(c: Word)
    ensures Steps(c, 8) == Xor(Steps(Low(c), 8), Right(c))
  {
    hide Xor, Steps, Low, High, Right;
    LowAndHigh(c);
    StepsLinear(Low(c), High(c), 8);
    StepsShift(High(c));
  }

  // ---------------------------------------------------------------- the source's loops

  /** `CRC_TABLE` */
  method CrcTable() returns (table: array<Word>)
    ensures fresh(table) && table.Length == 256
    ensures forall n | 0 <= n < 256 :: table[n] == Steps(n as bv32, 8)
  {
    hide Steps;
    table := new Word[256];
    for n := 0 to 256
      invariant forall k | 0 <= k < n :: table[k] == Steps(k as bv32, 8)
    {
      table[n] := TableEntry(n as bv32);
    }
  }

  method TableEntry(n: Word) returns (c: Word)
    ensures c == Steps(n, 8)
  {
    c := n;
    for k := 0 to 8
      invariant c == Steps(n, k)
    {
      c := if c & 1 == 1 then 0xedb88320 ^ (c >> 1) else c >> 1;
    }
  }

  /** `crc32`: one table look-up a byte. */
  method Crc32(table: array<Word>, bytes: seq<bv8>) returns (crc: Word)
    requires table.Length == 256 && forall n | 0 <= n < 256 :: table[n] == Steps(n as bv32, 8)
    ensures crc == BitwiseCrc(bytes)
  {
    hide Steps, Xor, Widen;
    var c := ONES;
    for i := 0 to |bytes|
      invariant c == Register(ONES, bytes[..i])
    {
      assert bytes[..i + 1][..i] == bytes[..i];
      c := Update(table, c, bytes[i]);
    }
    assert bytes[..|bytes|] == bytes;
    return Xor(c, ONES);
  }

  /** `CRC_TABLE[(c ^ byte) & 0xff] ^ (c >>> 8)` */
  method Update(table: array<Word>, c: Word, b: bv8) returns (c': Word)
    requires table.Length == 256 && forall n | 0 <= n < 256 :: table[n] == Steps(n as bv32, 8)
    ensures c' == Steps(Xor(c, Widen(b)), 8)
  {
    hide Steps, Xor, Low, Right, Widen;
    StepsByTable(Xor(c, Widen(b)));
    ByteBits(c, b);
    ByteBits(Xor(c, Widen(b)), b);
    var index := Low(Xor(c, Widen(b)));
    c' := Xor(table[index as int], Right(c));
  }

  // ---------------------------------------------------------------- what a CRC detects

  /** Only the low `k` bytes of `d` are used. */
  predicate Fits(d: Word, k: nat) {
    match k
    case 0 => d == 0
    case 1 => d & 0xffff_ff00 == 0
    case 2 => d & 0xffff_0000 == 0
    case 3 => d & 0xff00_0000 == 0
    case _ => true
  }

  lemma FitsLeft(d: Word, e: bv8, k: nat)
    requires Fits(d, k) && k <= 3
    ensures Fits(Xor(Widen(e), Left(d)), k + 1)
  {
    match k
    case 0 => FitsLeft0(d, e);
    case 1 => FitsLeft1(d, e);
    case 2 => FitsLeft2(d, e);
    case 3 =>
  }

  lemma FitsLeft0(d: Word, e: bv8)
    requires d == 0
    ensures Xor(Widen(e), Left(d)) & 0xffff_ff00 == 0
  {
  }

  lemma FitsLeft1(d: Word, e: bv8)
    requires d & 0xffff_ff00 == 0
    ensures Xor(Widen(e), Left(d)) & 0xffff_0000 == 0
  {
  }

  lemma FitsLeft2(d: Word, e: bv8)
    requires d & 0xffff_0000 == 0
    ensures Xor(Widen(e), Left(d)) & 0xff00_0000 == 0
  {
  }

  lemma FitsThree(d: Word, k: nat)
    requires Fits(d, k) && k <= 3
    ensures d & 0xff00_0000 == 0
  {
    match k
    case 0 =>
    case 1 => Narrow1(d);
    case 2 => Narrow2(d);
    case 3 =>
  }

  lemma Narrow1(d: Word)
    requires d & 0xffff_ff00 == 0
    ensures d & 0xff00_0000 == 0
  {
  }

  lemma Narrow2(d: Word)
    requires d & 0xffff_0000 == 0
    ensures d & 0xff00_0000 == 0
  {
  }

  lemma LowLeft(d: Word)
    ensures Low(Left(d)) == 0
  {
  }

  lemma RightLeft(d: Word)
    requires d & 0xff00_0000 == 0
    ensures Right(Left(d)) == d
  {
  }

  lemma OnlyZero(d: Word, e: bv8)
    requires d & 0xff00_0000 == 0 && Xor(Widen(e), Left(d)) == 0
    ensures d == 0 && e == 0
  {
  }

  lemma WidenXor(a: bv8, b: bv8)
    ensures Xor(Widen(a), Widen(b)) == Widen(a ^ b) && (a ^ b == 0 <==> a == b)
  {
  }

  /** The difference between two registers before a byte each, from the one after. */
  lemma Before(c: Word, c': Word, a: bv8, b: bv8, k: nat)
    requires k <= 3
    requires Fits(Xor(Steps(Xor(c, Widen(a)), 8), Steps(Xor(c', Widen(b)), 8)), k)
    ensures var d := Xor(Steps(Xor(c, Widen(a)), 8), Steps(Xor(c', Widen(b)), 8));
            Xor(c, c') == Xor(Widen(a ^ b), Left(d))
  {
    hide Xor, Steps, Widen, Left, Fits, Low, Right;
    var x, y := Xor(c, Widen(a)), Xor(c', Widen(b));
    var d := Xor(Steps(x, 8), Steps(y, 8));
    FitsThree(d, k);
    LowLeft(d);
    RightLeft(d);
    StepsLinear(x, y, 8);
    StepsShift(Left(d));
    StepsInjective(Xor(x, y), Left(d), 8);
    WidenXor(a, b);
    Regroup(c, c', Widen(a), Widen(b), Left(d));
  }

  lemma Regroup(c: Word, c': Word, a: Word, b: Word, l: Word)
    requires Xor(Xor(c, a), Xor(c', b)) == l
    ensures Xor(c, c') == Xor(Xor(a, b), l)
  {
    hide Xor;
    var ab := Xor(a, b);
    XorSwap(c, a, c', b);
    assert Xor(Xor(c, c'), ab) == l;
    XorAssociates(ab, ab, Xor(c, c'));
    XorCommutes(ab, Xor(c, c'));
    XorZero(ab, ab);
    XorZero(Xor(c, c'), 0);
  }

  lemma XorSwap(c: Word, a: Word, d: Word, b: Word)
    ensures Xor(Xor(c, a), Xor(d, b)) == Xor(Xor(c, d), Xor(a, b))
  {
    hide Xor;
    XorAssociates(c, a, Xor(d, b));
    XorAssociates(a, d, b);
    XorCommutes(a, d);
    XorAssociates(d, a, b);
    XorAssociates(c, d, Xor(a, b));
  }

  /** What two registers and two bytes differ in, from what the registers after the bytes differ in. */
  lemma LastBytes(c: Word, c': Word, a: bv8, b: bv8, k: nat)
    requires k <= 3
    requires Fits(Xor(Steps(Xor(c, Widen(a)), 8), Steps(Xor(c', Widen(b)), 8)), k)
    ensures Fits(Xor(c, c'), k + 1)
    ensures c == c' ==> a == b
  {
    hide Xor, Steps, Widen, Left, Fits;
    var d := Xor(Steps(Xor(c, Widen(a)), 8), Steps(Xor(c', Widen(b)), 8));
    Before(c, c', a, b, k);
    FitsLeft(d, a ^ b, k);
    if c == c' {
      XorSelf(c);
      FitsThree(d, k);
      OnlyZero(d, a ^ b);
      WidenXor(a, b);
    }
  }

  /** Four bytes or fewer that differ leave different registers, and not only in a few low bytes. */
  lemma {:induction false} BurstDiffers(c: Word, x: seq<bv8>, y: seq<bv8>)
    requires |x| == |y| <= 4 && Fits(Xor(Register(c, x), Register(c, y)), 4 - |x|)
    ensures x == y
  {
    hide Xor, Steps, Widen, Fits;
    if x != [] {
      var n := |x| - 1;
      LastBytes(Register(c, x[..n]), Register(c, y[..n]), x[n], y[n], 4 - |x|);
      BurstDiffers(c, x[..n], y[..n]);
      assert x == x[..n] + [x[n]] && y == y[..n] + [y[n]];
    }
  }

  lemma {:induction false} RegisterConcat(c: Word, a: seq<bv8>, b: seq<bv8>)
    ensures Register(c, a + b) == Register(Register(c, a), b)
  {
    hide Xor, Steps, Widen;
    if b == [] {
      assert a + b == a;
    } else {
      var n := |b| - 1;
      RegisterConcat(c, a, b[..n]);
      assert (a + b)[..|a| + n] == a + b[..n];
    }
  }

  /** What two registers differ in is not lost by the same bytes. */
  lemma {:induction false} SameBytes(c: Word, c': Word, bytes: seq<bv8>)
    ensures Register(c, bytes) == Register(c', bytes) <==> c == c'
  {
    hide Xor, Steps, Widen;
    if bytes != [] {
      var n := |bytes| - 1;
      SameBytes(c, c', bytes[..n]);
      var a, b, w := Register(c, bytes[..n]), Register(c', bytes[..n]), Widen(bytes[n]);
      StepsInjective(Xor(a, w), Xor(b, w), 8);
      XorCommutes(a, w);
      XorCommutes(b, w);
      XorCancels(w, a, b);
      XorZero(a, b);
      XorZero(Xor(w, a), Xor(w, b));
    }
  }

  /** Messages that differ only within four consecutive bytes have different CRCs. */
  lemma BurstDetected(before: seq<bv8>, x: seq<bv8>, y: seq<bv8>, after: seq<bv8>)
    requires |x| == |y| <= 4 && x != y
    ensures BitwiseCrc(before + x + after) != BitwiseCrc(before + y + after)
  {
    hide Xor, Register, Fits;
    var c := Register(ONES, before);
    RegisterConcat(ONES, before + x, after);
    RegisterConcat(ONES, before + y, after);
    RegisterConcat(ONES, before, x);
    RegisterConcat(ONES, before, y);
    if Register(c, x) == Register(c, y) {
      XorZero(Register(c, x), Register(c, y));
      FitsZero(4 - |x|);
      BurstDiffers(c, x, y);
    }
    SameBytes(Register(c, x), Register(c, y), after);
    var a, b := Register(ONES, before + x + after), Register(ONES, before + y + after);
    XorCommutes(a, ONES);
    XorCommutes(b, ONES);
    XorCancels(ONES, a, b);
    XorZero(a, b);
    XorZero(Xor(a, ONES), Xor(b, ONES));
  }

  lemma FitsZero(k: nat)
    ensures Fits(0, k)
  {
  }

  // ---------------------------------------------------------------- known values

  /** The terms of the polynomial of section 5.5, below the 32nd */
  const TERMS: set<nat> := {0, 1, 2, 4, 5, 7, 8, 10, 11, 12, 16, 22, 23, 26}

  /** The least significant bit of the register stands for the highest term. */
  lemma StepDivides()
    ensures forall k: nat | k < 32 :: (Step(1) >> (31 - k)) & 1 == if k in TERMS then 1 else 0
  {
  }

  lemma RegisterNext(c: Word, bytes: seq<bv8>, b: bv8, x: Word)
    requires x == Xor(Register(c, bytes), Widen(b))
    ensures Register(c, bytes + [b]) == Steps(x, 8)
  {
    hide Xor, Steps, Widen;
    assert (bytes + [b])[..|bytes|] == bytes;
  }

  lemma FirstByteOfEnd()
    ensures Steps(0xffff_ffb6, 8) == 0x22fd_e946
  {
  }

  lemma SecondByteOfEnd()
    ensures Steps(0x22fd_e903, 8) == 0x992b_ac53
  {
  }

  lemma ThirdByteOfEnd()
    ensures Steps(0x992b_ac1d, 8) == 0x639f_4775
  {
  }

  lemma FourthByteOfEnd()
    ensures Steps(0x639f_4731, 8) == 0x51bd_9f7d
  {
  }

  lemma XorOfEnd()
    ensures Xor(ONES, Widen(0x49)) == 0xffff_ffb6
    ensures Xor(0x22fd_e946, Widen(0x45)) == 0x22fd_e903
    ensures Xor(0x992b_ac53, Widen(0x4e)) == 0x992b_ac1d
    ensures Xor(0x639f_4775, Widen(0x44)) == 0x639f_4731
    ensures Xor(0x51bd_9f7d, ONES) == 0xae42_6082
  {
  }

  /** The CRC of the `IEND` chunk that ends every PNG file */
  lemma CrcOfEnd()
    ensures BitwiseCrc([0x49, 0x45, 0x4e, 0x44]) == 0xae42_6082
  {
    var bytes: seq<bv8> := [0x49, 0x45, 0x4e, 0x44];
    assert Register(ONES, bytes[..0]) == ONES;
    hide Register, Xor, Widen, Steps;
    XorOfEnd();
    FirstByteOfEnd();
    RegisterNext(ONES, bytes[..0], bytes[0], 0xffff_ffb6);
    assert bytes[..0] + [bytes[0]] == bytes[..1];
    assert Register(ONES, bytes[..1]) == 0x22fd_e946;
    SecondByteOfEnd();
    RegisterNext(ONES, bytes[..1], bytes[1], 0x22fd_e903);
    assert bytes[..1] + [bytes[1]] == bytes[..2];
    assert Register(ONES, bytes[..2]) == 0x992b_ac53;
    ThirdByteOfEnd();
    RegisterNext(ONES, bytes[..2], bytes[2], 0x992b_ac1d);
    assert bytes[..2] + [bytes[2]] == bytes[..3];
    assert Register(ONES, bytes[..3]) == 0x639f_4775;
    FourthByteOfEnd();
    RegisterNext(ONES, bytes[..3], bytes[3], 0x639f_4731);
    assert bytes[..3] + [bytes[3]] == bytes[..4];
    assert Register(ONES, bytes[..4]) == 0x51bd_9f7d;
    assert bytes[..4] == bytes;
  }
}
