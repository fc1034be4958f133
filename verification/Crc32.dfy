/** The CRC-32 of section 8 of RFC 1952, bit by bit (src/catalog/src/store/crc32.rs), and what it is for:
no two payloads of equal length that differ only inside four consecutive bytes have the same checksum. */
module Crc32 {
  type Bytes = seq<bv8>

  const POLY: bv32 := 0xEDB8_8320

  function Xor(a: bv32, b: bv32): (r: bv32) { a ^ b }

  function Widened(b: bv8): (r: bv32) { b as bv32 }

  function Half(c: bv32): (r: bv32) { c >> 1 }

  /** The polynomial under a mask that is all ones exactly when the low bit is set. */
  function Mask(c: bv32): (r: bv32) { POLY & (0 - (c & 1)) }

  /** One turn of the inner loop. */
  function Shift1(c: bv32): (r: bv32) {
    Xor(Half(c), Mask(c))
  }

  function ShiftN(c: bv32, n: nat): (r: bv32) {
    if n == 0 then c else Shift1(ShiftN(c, n - 1))
  }

  function Step(c: bv32, b: bv8): (r: bv32) {
    ShiftN(Xor(c, Widened(b)), 8)
  }

  /** The register after the bytes of `data`, started at `c`. */
  function Register(data: Bytes, c: bv32): (r: bv32) {
    if data == [] then c else Step(Register(data[..|data| - 1], c), data[|data| - 1])
  }

  function Not(a: bv32): (r: bv32) { !a }

  function Checksum(data: Bytes): (crc: bv32) {
    Not(Register(data, 0xFFFF_FFFF))
  }

  method Crc32(data: Bytes) returns (r: bv32)
    ensures r == Checksum(data)
  {
    hide Xor, Widened, Shift1, Not;
    var crc: bv32 := 0xFFFF_FFFF;
    for i := 0 to |data|
      invariant crc == Register(data[..i], 0xFFFF_FFFF)
    {
      assert data[..i + 1][..i] == data[..i];
      crc := Xor(crc, Widened(data[i]));
      ghost var start := crc;
      for k := 0 to 8
        invariant crc == ShiftN(start, k)
      {
        crc := Shift1(crc);
      }
    }
    assert data[..|data|] == data;
    r := Not(crc);
  }

  // ----- exclusive or -----

  lemma XorComm(a: bv32, b: bv32)
    ensures Xor(a, b) == Xor(b, a)
  {
  }

  lemma XorAssoc(a: bv32, b: bv32, c: bv32)
    ensures Xor(Xor(a, b), c) == Xor(a, Xor(b, c))
  {
  }

  lemma XorZero(a: bv32)
    ensures Xor(a, 0) == a && Xor(0, a) == a && Xor(a, a) == 0
  {
  }

  lemma XorShuffle(p: bv32, q: bv32, r: bv32, s: bv32)
    ensures Xor(Xor(p, q), Xor(r, s)) == Xor(Xor(p, r), Xor(q, s))
  {
    hide Xor;
    XorAssoc(p, q, Xor(r, s));
    XorAssoc(q, r, s);
    XorComm(q, r);
    XorAssoc(r, q, s);
    XorAssoc(p, r, Xor(q, s));
  }

  /** Adding the same value twice cancels. */
  lemma XorCancel(x: bv32, b: bv32)
    ensures Xor(Xor(x, b), b) == x
  {
    hide Xor;
    XorAssoc(x, b, b);
    XorZero(b);
    XorZero(x);
  }

  lemma WidenedXor(x: bv8, y: bv8)
    ensures Widened(x ^ y) == Xor(Widened(x), Widened(y))
  {
  }

  // ----- the register update is linear and loses nothing -----

  lemma HalfLinear(a: bv32, b: bv32)
    ensures Half(Xor(a, b)) == Xor(Half(a), Half(b))
  {
  }

  lemma MaskCases(c: bv32)
    ensures Mask(c) == if c & 1 == 1 then POLY else 0
  {
  }

  lemma LowBit(a: bv32, b: bv32)
    ensures Xor(a, b) & 1 == 1 <==> ((a & 1 == 1) != (b & 1 == 1))
  {
  }

  lemma MaskLinear(a: bv32, b: bv32)
    ensures Mask(Xor(a, b)) == Xor(Mask(a), Mask(b))
  {
    hide Mask, Xor;
    MaskCases(a);
    MaskCases(b);
    MaskCases(Xor(a, b));
    LowBit(a, b);
    XorZero(POLY);
    XorZero(0);
  }

  lemma Shift1Linear(a: bv32, b: bv32)
    ensures Shift1(Xor(a, b)) == Xor(Shift1(a), Shift1(b))
  {
    hide Xor, Half, Mask;
    HalfLinear(a, b);
    MaskLinear(a, b);
    XorShuffle(Half(a), Mask(a), Half(b), Mask(b));
  }

  lemma Shift1Injective(a: bv32, b: bv32)
    requires Shift1(a) == Shift1(b)
    ensures a == b
  {
  }

  lemma {:induction false} ShiftNLinear(a: bv32, b: bv32, n: nat)
    ensures ShiftN(Xor(a, b), n) == Xor(ShiftN(a, n), ShiftN(b, n))
  {
    hide Shift1, Xor;
    if n > 0 {
      ShiftNLinear(a, b, n - 1);
      Shift1Linear(ShiftN(a, n - 1), ShiftN(b, n - 1));
    }
  }

  lemma {:induction false} ShiftNInjective(a: bv32, b: bv32, n: nat)
    requires ShiftN(a, n) == ShiftN(b, n)
    ensures a == b
  {
    hide Shift1;
    if n > 0 {
      Shift1Injective(ShiftN(a, n - 1), ShiftN(b, n - 1));
      ShiftNInjective(a, b, n - 1);
    }
  }

  /** The bytewise difference of two inputs. */
  function Difference(a: Bytes, b: Bytes): (d: Bytes)
    requires |a| == |b|
    ensures |d| == |a|
  {
    seq(|a|, i requires 0 <= i < |a| => a[i] ^ b[i])
  }

  lemma StepDifference(r: bv32, s: bv32, x: bv8, y: bv8)
    ensures Xor(Step(r, x), Step(s, y)) == Step(Xor(r, s), x ^ y)
  {
    hide Xor, Widened, ShiftN;
    ShiftNLinear(Xor(r, Widened(x)), Xor(s, Widened(y)), 8);
    XorShuffle(r, Widened(x), s, Widened(y));
    WidenedXor(x, y);
  }

  /** The registers of two inputs differ by the register of their difference. */
  lemma {:induction false} RegisterDifference(a: Bytes, b: Bytes, r: bv32, s: bv32)
    requires |a| == |b|
    ensures Xor(Register(a, r), Register(b, s)) == Register(Difference(a, b), Xor(r, s))
  {
    hide Step, Xor;
    if a != [] {
      var n := |a| - 1;
      RegisterDifference(a[..n], b[..n], r, s);
      StepDifference(Register(a[..n], r), Register(b[..n], s), a[n], b[n]);
      assert Difference(a, b)[..n] == Difference(a[..n], b[..n]);
    }
  }

  lemma StepInjective(r: bv32, s: bv32, b: bv8)
    requires Step(r, b) == Step(s, b)
    ensures r == s
  {
    hide Xor, Widened, ShiftN;
    ShiftNInjective(Xor(r, Widened(b)), Xor(s, Widened(b)), 8);
    XorCancel(r, Widened(b));
    XorCancel(s, Widened(b));
  }

  lemma {:induction false} RegisterInjective(data: Bytes, r: bv32, s: bv32)
    requires Register(data, r) == Register(data, s)
    ensures r == s
  {
    hide Step;
    if data != [] {
      var n := |data| - 1;
      StepInjective(Register(data[..n], r), Register(data[..n], s), data[n]);
      RegisterInjective(data[..n], r, s);
    }
  }

  lemma {:induction false} RegisterConcat(a: Bytes, b: Bytes, c: bv32)
    ensures Register(a + b, c) == Register(b, Register(a, c))
  {
    hide Step;
    if b == [] {
      assert a + b == a;
    } else {
      var n := |b| - 1;
      RegisterConcat(a, b[..n], c);
      assert (a + b)[..|a + b| - 1] == a + b[..n];
    }
  }

  // ----- four bytes are shifted out without mixing -----

  function UpByte(v: bv32): (r: bv32) { v << 8 }

  /** The bits above the low `n` bytes are clear. */
  predicate Fits(w: bv32, n: nat) {
    && (n <= 3 ==> w & 0xFF00_0000 == 0)
    && (n <= 2 ==> w & 0x00FF_0000 == 0)
    && (n <= 1 ==> w & 0x0000_FF00 == 0)
    && (n == 0 ==> w & 0x0000_00FF == 0)
  }

  lemma Shift8Times(v: bv32)
    requires v & 0xFF00_0000 == 0
    ensures Shift1(Shift1(Shift1(Shift1(Shift1(Shift1(Shift1(Shift1(v << 8)))))))) == v
  {
  }

  /** Eight turns undo a shift by a byte when the top byte is clear. */
  lemma ShiftBack(v: bv32, n: nat)
    requires n <= 3 && Fits(v, n)
    ensures ShiftN(UpByte(v), 8) == v
  {
    Shift8Times(v);
    EightTurns(UpByte(v));
  }

  lemma EightTurns(c: bv32)
    ensures ShiftN(c, 8) == Shift1(Shift1(Shift1(Shift1(Shift1(Shift1(Shift1(Shift1(c))))))))
  {
    hide Shift1;
    assert ShiftN(c, 1) == Shift1(c);
    assert ShiftN(c, 3) == Shift1(Shift1(ShiftN(c, 1)));
    assert ShiftN(c, 5) == Shift1(Shift1(ShiftN(c, 3)));
    assert ShiftN(c, 7) == Shift1(Shift1(ShiftN(c, 5)));
  }

  /** Bytes as one little-endian word. */
  function Word(d: Bytes): (w: bv32) {
    if d == [] then 0 else Xor(UpByte(Word(d[1..])), Widened(d[0]))
  }

  lemma UpByteFits(w: bv32, b: bv8, n: nat)
    requires Fits(w, n)
    ensures Fits(Xor(UpByte(w), Widened(b)), n + 1)
  {
  }

  lemma {:induction false} WordFits(d: Bytes)
    ensures Fits(Word(d), |d|)
  {
    hide Xor, UpByte, Widened;
    if d != [] {
      WordFits(d[1..]);
      UpByteFits(Word(d[1..]), d[0], |d| - 1);
    }
  }

  lemma WordZero(w: bv32, b: bv8, n: nat)
    requires n <= 3 && Fits(w, n) && Xor(UpByte(w), Widened(b)) == 0
    ensures w == 0 && b == 0
  {
  }

  ghost predicate AllZero(d: Bytes) {
    forall i :: 0 <= i < |d| ==> d[i] == 0
  }

  lemma {:induction false} WordZeroBytes(d: Bytes)
    requires |d| <= 4 && Word(d) == 0
    ensures AllZero(d)
  {
    hide Xor, UpByte, Widened, Fits;
    if d != [] {
      WordFits(d[1..]);
      WordZero(Word(d[1..]), d[0], |d| - 1);
      WordZeroBytes(d[1..]);
    }
  }

  /** A register that up to four difference bytes bring to zero was their word before them. */
  lemma {:induction false} Backwards(d: Bytes, c: bv32)
    requires |d| <= 4 && Register(d, c) == 0
    ensures c == Word(d)
  {
    hide Step, Xor, UpByte, Widened, Fits;
    if d != [] {
      var first, rest := d[0], d[1..];
      assert d == [first] + rest;
      RegisterConcat([first], rest, c);
      OneByte(first, c);
      Backwards(rest, Step(c, first));
      WordFits(rest);
      StepBack(c, first, Word(rest), |rest|);
    }
  }

  lemma StepBack(c: bv32, b: bv8, w: bv32, n: nat)
    requires n <= 3 && Fits(w, n) && Step(c, b) == w
    ensures c == Xor(UpByte(w), Widened(b))
  {
    hide Xor, UpByte, Widened, ShiftN, Fits;
    ShiftBack(w, n);
    ShiftNInjective(Xor(c, Widened(b)), UpByte(w), 8);
    XorCancel(c, Widened(b));
  }

  lemma OneByte(b: bv8, c: bv32)
    ensures Register([b], c) == Step(c, b)
  {
    hide Step;
    assert [b][..0] == [];
  }

  lemma SameBytes(x: Bytes, y: Bytes)
    requires |x| == |y| && AllZero(Difference(x, y))
    ensures x == y
  {
    forall i | 0 <= i < |x|
      ensures x[i] == y[i]
    {
      assert Difference(x, y)[i] == 0;
      SameByte(x[i], y[i]);
    }
  }

  lemma SameByte(a: bv8, b: bv8)
    requires a ^ b == 0
    ensures a == b
  {
  }

  lemma NotInjective(a: bv32, b: bv32)
    requires Not(a) == Not(b)
    ensures a == b
  {
  }

  /** Up to four bytes can be told apart by the register they leave, whatever it was before. */
  lemma WindowInjective(x: Bytes, y: Bytes, r: bv32)
    requires |x| == |y| <= 4 && Register(x, r) == Register(y, r)
    ensures x == y
  {
    hide Register, Xor, Word;
    RegisterDifference(x, y, r, r);
    XorZero(Register(x, r));
    XorZero(r);
    Backwards(Difference(x, y), 0);
    WordZeroBytes(Difference(x, y));
    SameBytes(x, y);
  }

  /** Equal-length inputs that differ only inside four consecutive bytes have different checksums. */
  lemma WindowDetected(prefix: Bytes, x: Bytes, y: Bytes, suffix: Bytes)
    requires |x| == |y| <= 4 && x != y
    ensures Checksum(prefix + x + suffix) != Checksum(prefix + y + suffix)
  {
    hide Register, Not;
    var c: bv32 := 0xFFFF_FFFF;
    var r := Register(prefix, c);
    RegisterConcat(prefix + x, suffix, c);
    RegisterConcat(prefix + y, suffix, c);
    RegisterConcat(prefix, x, c);
    RegisterConcat(prefix, y, c);
    if Checksum(prefix + x + suffix) == Checksum(prefix + y + suffix) {
      NotInjective(Register(prefix + x + suffix, c), Register(prefix + y + suffix, c));
      RegisterInjective(suffix, Register(x, r), Register(y, r));
      WindowInjective(x, y, r);
      assert false;
    }
  }

  lemma StepIs(c: bv32, b: bv8)
    ensures Step(c, b) == Shift1(Shift1(Shift1(Shift1(Shift1(Shift1(Shift1(Shift1(c ^ (b as bv32)))))))))
  {
    hide Shift1, ShiftN;
    EightTurns(Xor(c, Widened(b)));
  }

  lemma RegisterNext(data: Bytes, i: nat, c: bv32)
    requires i < |data|
    ensures Register(data[..i + 1], c) == Step(Register(data[..i], c), data[i])
  {
    hide Step;
    assert data[..i + 1][..i] == data[..i];
  }

  lemma FirstSteps()
    ensures Step(0xFFFFFFFF, 0x31) == 0x7C231048
    ensures Step(0x7C231048, 0x32) == 0xB0ACBB32
    ensures Step(0xB0ACBB32, 0x33) == 0x77B79C2D
  {
    hide Step;
    StepIs(0xFFFFFFFF, 0x31);
    StepIs(0x7C231048, 0x32);
    StepIs(0xB0ACBB32, 0x33);
  }

  lemma MiddleSteps()
    ensures Step(0x77B79C2D, 0x34) == 0x641C1F5C
    ensures Step(0x641C1F5C, 0x35) == 0x340AC5E3
    ensures Step(0x340AC5E3, 0x36) == 0xF68D2C9E
  {
    hide Step;
    StepIs(0x77B79C2D, 0x34);
    StepIs(0x641C1F5C, 0x35);
    StepIs(0x340AC5E3, 0x36);
  }

  lemma LastSteps()
    ensures Step(0xF68D2C9E, 0x37) == 0xAFFC9660
    ensures Step(0xAFFC9660, 0x38) == 0x651F2550
    ensures Step(0x651F2550, 0x39) == 0x340BC6D9
  {
    hide Step;
    StepIs(0xF68D2C9E, 0x37);
    StepIs(0xAFFC9660, 0x38);
    StepIs(0x651F2550, 0x39);
  }

  /** The published check value: the checksum of the nine digits "123456789". */
  lemma KnownVector()
    ensures Checksum([0x31, 0x32, 0x33, 0x34, 0x35, 0x36, 0x37, 0x38, 0x39]) == 0xCBF4_3926
  {
    hide Step, Register;
    var d: Bytes := [0x31, 0x32, 0x33, 0x34, 0x35, 0x36, 0x37, 0x38, 0x39];
    var c: bv32 := 0xFFFF_FFFF;
    NoBytes(c);
    assert d[..0] == [] && d[..9] == d;
    FirstSteps();
    RegisterNext(d, 0, c);
    RegisterNext(d, 1, c);
    RegisterNext(d, 2, c);
    MiddleSteps();
    RegisterNext(d, 3, c);
    RegisterNext(d, 4, c);
    RegisterNext(d, 5, c);
    LastSteps();
    RegisterNext(d, 6, c);
    RegisterNext(d, 7, c);
    RegisterNext(d, 8, c);
  }

  lemma NoBytes(c: bv32)
    ensures Register([], c) == c
  {
  }
}
