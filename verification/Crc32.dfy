/**
 The checksum that guards a ping record (libnstd/crc32.c).

 The byte table of the source is the reflected CRC-32 table of the polynomial
 0xEDB88320: entry `i` is `i` pushed through eight single-bit steps.  Keeping the
 single-bit step as the definition makes the two facts the record format relies on
 provable: the checksum is linear, and it detects every change that is confined to
 four neighbouring bytes.
 */
module Crc32 {

  function Xor(x: bv32, y: bv32): bv32 {
    x ^ y
  }

  /** One bit of the reflected division. */
  function BitStep(s: bv32): bv32 {
    if s & 1 == 1 then (s >> 1) ^ 0xEDB88320 else s >> 1
  }

  /** Eight bits of the reflected division. */
  function EightSteps(s: bv32): bv32 {
    BitStep(BitStep(BitStep(BitStep(BitStep(BitStep(BitStep(BitStep(s))))))))
  }

  /** Entry `i` of the source's table, see `Crc32Table`. */
  function TableEntry(i: bv8): bv32 {
    EightSteps(i as bv32)
  }

  /** The loop body of the source: consume one byte. */
  function ByteStep(s: bv32, b: bv8): bv32 {
    Xor(s >> 8, TableEntry((Xor(s, b as bv32) & 0xFF) as bv8))
  }

  /** The register after all of `bytes`. */
  function Register(s: bv32, bytes: seq<bv8>): bv32 {
    if bytes == [] then s else ByteStep(Register(s, bytes[..|bytes| - 1]), bytes[|bytes| - 1])
  }

  function Checksum(bytes: seq<bv8>): bv32 {
    Xor(Register(0xFFFF_FFFF, bytes), 0xFFFF_FFFF)
  }

  // ---------------------------------------------------------------------------
  // Linearity
  // ---------------------------------------------------------------------------

  lemma RawXorBits(x: bv32, y: bv32)
    ensures (x ^ y) >> 1 == (x >> 1) ^ (y >> 1)
    ensures (x ^ y) & 1 == 1 <==> (x & 1 == 1) != (y & 1 == 1)
  {
  }

  lemma RawXorCancel(x: bv32, y: bv32, z: bv32)
    ensures (x ^ z) ^ (y ^ z) == x ^ y
    ensures (x ^ z) ^ y == (x ^ y) ^ z
    ensures x ^ (y ^ z) == (x ^ y) ^ z
  {
  }

  lemma RawBitStepLinear(x: bv32, y: bv32)
    ensures BitStep(x ^ y) == BitStep(x) ^ BitStep(y)
  {
    RawXorBits(x, y);
    RawXorCancel(x >> 1, y >> 1, 0xEDB88320);
  }

  lemma XorComm(x: bv32, y: bv32)
    ensures Xor(x, y) == Xor(y, x)
  {
  }

  lemma XorUnit(x: bv32)
    ensures Xor(x, x) == 0
    ensures Xor(x, 0) == x
  {
  }

  lemma XorAssoc(x: bv32, y: bv32, z: bv32)
    ensures Xor(Xor(x, y), z) == Xor(x, Xor(y, z))
  {
  }

  lemma XorFacts(x: bv32, y: bv32, z: bv32)
    ensures Xor(x, y) == Xor(y, x)
    ensures Xor(Xor(x, y), z) == Xor(x, Xor(y, z))
    ensures Xor(x, x) == 0
    ensures Xor(x, 0) == x
  {
    hide Xor;
    XorComm(x, y);
    XorAssoc(x, y, z);
    XorUnit(x);
  }

  lemma XorSwap(a: bv32, b: bv32, c: bv32, d: bv32)
    ensures Xor(Xor(a, c), Xor(b, d)) == Xor(Xor(a, b), Xor(c, d))
  {
    hide Xor;
    XorFacts(a, c, Xor(b, d));
    XorFacts(c, b, d);
    XorFacts(b, c, d);
    XorFacts(a, b, Xor(c, d));
  }

  lemma XorZero(x: bv32, y: bv32)
    ensures Xor(x, y) == 0 <==> x == y
  {
  }

  lemma BitStepLinear(x: bv32, y: bv32)
    ensures BitStep(Xor(x, y)) == Xor(BitStep(x), BitStep(y))
  {
    hide BitStep;
    RawBitStepLinear(x, y);
  }

  lemma EightStepsLinear(x: bv32, y: bv32)
    ensures EightSteps(Xor(x, y)) == Xor(EightSteps(x), EightSteps(y))
  {
    hide Xor;
    hide BitStep;
    var x1, y1 := BitStep(x), BitStep(y);
    var x2, y2 := BitStep(x1), BitStep(y1);
    var x3, y3 := BitStep(x2), BitStep(y2);
    var x4, y4 := BitStep(x3), BitStep(y3);
    var x5, y5 := BitStep(x4), BitStep(y4);
    var x6, y6 := BitStep(x5), BitStep(y5);
    BitStepLinear(x, y);
    BitStepLinear(x1, y1);
    BitStepLinear(x2, y2);
    BitStepLinear(x3, y3);
    BitStepLinear(x4, y4);
    BitStepLinear(x5, y5);
    BitStepLinear(x6, y6);
    BitStepLinear(BitStep(x6), BitStep(y6));
  }

  /** A register whose low byte is clear only shifts. */
  lemma EightStepsShift(x: bv32)
    requires x & 0xFF == 0
    ensures EightSteps(x) == x >> 8
  {
  }

  lemma SplitLowByte(x: bv32)
    ensures x == Xor(x & 0xFFFF_FF00, x & 0xFF)
    ensures (x & 0xFFFF_FF00) & 0xFF == 0
    ensures ((x & 0xFF) as bv8) as bv32 == x & 0xFF
  {
  }

  lemma HighPart(s: bv32, b: bv8)
    ensures (Xor(s, b as bv32) & 0xFFFF_FF00) >> 8 == s >> 8
  {
  }

  /** The table lookup of the source is eight single-bit steps of the register xor the byte. */
  lemma ByteStepIsEightSteps(s: bv32, b: bv8)
    ensures ByteStep(s, b) == EightSteps(Xor(s, b as bv32))
  {
    hide EightSteps;
    hide Xor;
    var x := Xor(s, b as bv32);
    SplitLowByte(x);
    HighPart(s, b);
    EightStepsLinear(x & 0xFFFF_FF00, x & 0xFF);
    EightStepsShift(x & 0xFFFF_FF00);
  }

  // ---------------------------------------------------------------------------
  // Errors of at most four neighbouring bytes are always detected
  // ---------------------------------------------------------------------------

  /** Feeding different bytes to different registers: the difference evolves on its own. */
  lemma ByteStepDifference(s: bv32, s': bv32, b: bv8, b': bv8)
    ensures Xor(ByteStep(s, b), ByteStep(s', b')) ==
            EightSteps(Xor(Xor(s, s'), Xor(b as bv32, b' as bv32)))
  {
    hide EightSteps;
    hide ByteStep;
    hide Xor;
    ByteStepIsEightSteps(s, b);
    ByteStepIsEightSteps(s', b');
    EightStepsLinear(Xor(s, b as bv32), Xor(s', b' as bv32));
    XorSwap(s, s', b as bv32, b' as bv32);
  }

  /** One step back along a difference: a small register difference came from a smaller one. */
  lemma DifferenceBack(before: bv32, e: bv32, after: bv32)
    requires after == EightSteps(Xor(before, e))
    requires after < 0x100_0000
    ensures before == Xor(after << 8, e)
  {
  }

  lemma SmallDifference(d: bv32, e: bv32)
    requires e < 0x100
    ensures d < 0x100 ==> Xor(d << 8, e) < 0x1_0000
    ensures d < 0x1_0000 ==> Xor(d << 8, e) < 0x100_0000
    ensures d < 0x100_0000 && Xor(d << 8, e) == 0 ==> d == 0 && e == 0
  {
  }

  lemma ByteDifference(b: bv8, b': bv8)
    ensures Xor(b as bv32, b' as bv32) < 0x100
    ensures Xor(b as bv32, b' as bv32) == 0 <==> b == b'
  {
  }

  /** The register is a bijection of its start value: no suffix can hide a difference. */
  lemma {:induction false} RegisterInjective(s: bv32, s': bv32, bytes: seq<bv8>)
    requires Register(s, bytes) == Register(s', bytes)
    ensures s == s'
    decreases |bytes|
  {
    hide ByteStep;
    if bytes != [] {
      var n := |bytes| - 1;
      var r, r' := Register(s, bytes[..n]), Register(s', bytes[..n]);
      ByteStepInjective(r, r', bytes[n]);
      RegisterInjective(s, s', bytes[..n]);
    }
  }

  lemma ByteStepInjective(r: bv32, r': bv32, b: bv8)
    requires ByteStep(r, b) == ByteStep(r', b)
    ensures r == r'
  {
    hide ByteStep;
    hide EightSteps;
    hide Xor;
    var w := b as bv32;
    ByteStepDifference(r, r', b, b);
    XorZero(ByteStep(r, b), ByteStep(r', b));
    XorFacts(w, w, w);
    DifferenceBack(Xor(r, r'), Xor(w, w), 0);
    SmallDifference(0, 0);
    XorFacts(0, 0, 0);
    XorZero(r, r');
  }

  lemma {:induction false} RegisterConcat(s: bv32, p: seq<bv8>, q: seq<bv8>)
    ensures Register(s, p + q) == Register(Register(s, p), q)
    decreases |q|
  {
    hide ByteStep;
    if q == [] {
      assert p + q == p;
    } else {
      var n := |q| - 1;
      assert (p + q)[..|p + q| - 1] == p + q[..n];
      RegisterConcat(s, p, q[..n]);
    }
  }

  /** Four bytes fed to the same register: the result determines the bytes. */
  lemma FourStepsInjective(s: bv32, a0: bv8, a1: bv8, a2: bv8, a3: bv8, b0: bv8, b1: bv8, b2: bv8, b3: bv8)
    requires ByteStep(ByteStep(ByteStep(ByteStep(s, a0), a1), a2), a3) ==
             ByteStep(ByteStep(ByteStep(ByteStep(s, b0), b1), b2), b3)
    ensures a0 == b0 && a1 == b1 && a2 == b2 && a3 == b3
  {
    hide ByteStep;
    hide EightSteps;
    hide Xor;
    var r1, t1 := ByteStep(s, a0), ByteStep(s, b0);
    var r2, t2 := ByteStep(r1, a1), ByteStep(t1, b1);
    var r3, t3 := ByteStep(r2, a2), ByteStep(t2, b2);
    ByteStepDifference(s, s, a0, b0);
    ByteStepDifference(r1, t1, a1, b1);
    ByteStepDifference(r2, t2, a2, b2);
    ByteStepDifference(r3, t3, a3, b3);
    XorZero(s, s);
    XorZero(ByteStep(r3, a3), ByteStep(t3, b3));
    ByteDifference(a0, b0);
    ByteDifference(a1, b1);
    ByteDifference(a2, b2);
    ByteDifference(a3, b3);
    DifferencesVanish(Xor(a0 as bv32, b0 as bv32), Xor(a1 as bv32, b1 as bv32),
                      Xor(a2 as bv32, b2 as bv32), Xor(a3 as bv32, b3 as bv32),
                      Xor(r1, t1), Xor(r2, t2), Xor(r3, t3));
  }

  lemma FourBytesInjective(s: bv32, a: seq<bv8>, b: seq<bv8>)
    requires |a| == |b| == 4
    requires Register(s, a) == Register(s, b)
    ensures a == b
  {
    hide Register;
    hide ByteStep;
    RegisterOfFour(s, a);
    RegisterOfFour(s, b);
    FourStepsInjective(s, a[0], a[1], a[2], a[3], b[0], b[1], b[2], b[3]);
  }

  lemma RegisterOfFour(s: bv32, a: seq<bv8>)
    requires |a| == 4
    ensures Register(s, a) == ByteStep(ByteStep(ByteStep(ByteStep(s, a[0]), a[1]), a[2]), a[3])
  {
    hide ByteStep;
    assert a[..3][..2] == a[..2] && a[..2][..1] == a[..1] && a[..1][..0] == [];
    assert Register(s, a[..1]) == ByteStep(s, a[0]);
    assert Register(s, a[..2]) == ByteStep(Register(s, a[..1]), a[1]);
    assert Register(s, a[..3]) == ByteStep(Register(s, a[..2]), a[2]);
  }

  /** A difference that starts and ends at nothing within four bytes never existed. */
  lemma DifferencesVanish(e0: bv32, e1: bv32, e2: bv32, e3: bv32, d1: bv32, d2: bv32, d3: bv32)
    requires e0 < 0x100 && e1 < 0x100 && e2 < 0x100 && e3 < 0x100
    requires d1 == EightSteps(Xor(0, e0))
    requires d2 == EightSteps(Xor(d1, e1))
    requires d3 == EightSteps(Xor(d2, e2))
    requires 0 == EightSteps(Xor(d3, e3))
    ensures e0 == 0 && e1 == 0 && e2 == 0 && e3 == 0
  {
    hide EightSteps;
    hide Xor;
    SmallDifference(0, e3);
    DifferenceBack(d3, e3, 0);
    ZeroShift();
    XorFacts(0, e3, 0);
    XorFacts(e3, 0, 0);
    assert d3 == e3;
    SmallDifference(d3, e2);
    DifferenceBack(d2, e2, d3);
    SmallDifference(d2, e1);
    DifferenceBack(d1, e1, d2);
    SmallDifference(d1, e0);
    DifferenceBack(0, e0, d1);
  }

  lemma ZeroShift()
    ensures 0 as bv32 << 8 == 0
  {
  }

  /**
   Two equally long messages that differ only inside one window of four bytes
   have different checksums.
   */
  lemma BurstDetected(p: seq<bv8>, a: seq<bv8>, b: seq<bv8>, q: seq<bv8>)
    requires |a| == |b| == 4
    requires Checksum(p + a + q) == Checksum(p + b + q)
    ensures a == b
  {
    hide Register;
    hide Xor;
    var s := 0xFFFF_FFFF as bv32;
    XorFacts(Register(s, p + a + q), s, s);
    XorFacts(Register(s, p + b + q), s, s);
    XorFacts(s, s, s);
    XorFacts(Register(s, p + a + q), 0, 0);
    XorFacts(Register(s, p + b + q), 0, 0);
    RegisterConcat(s, p + a, q);
    RegisterConcat(s, p + b, q);
    RegisterConcat(s, p, a);
    RegisterConcat(s, p, b);
    RegisterInjective(Register(s, p + a), Register(s, p + b), q);
    FourBytesInjective(Register(s, p), a, b);
  }

  // ---------------------------------------------------------------------------
  // Differences, and the register backwards
  // ---------------------------------------------------------------------------

  function XorByte(a: bv8, b: bv8): bv8 {
    a ^ b
  }

  function XorBytes(a: seq<bv8>, b: seq<bv8>): (d: seq<bv8>)
    requires |a| == |b|
    ensures |d| == |a|
  {
    seq(|a|, i requires 0 <= i < |a| => XorByte(a[i], b[i]))
  }

  lemma XorByteWidens(a: bv8, b: bv8)
    ensures XorByte(a, b) as bv32 == Xor(a as bv32, b as bv32)
    ensures XorByte(a, b) == 0 <==> a == b
  {
  }

  /** One byte more of two messages: the difference of the registers takes in the difference of the bytes. */
  lemma StepDifference(s: bv32, t: bv32, a: bv8, b: bv8)
    ensures Xor(ByteStep(s, a), ByteStep(t, b)) == ByteStep(Xor(s, t), XorByte(a, b))
  {
    hide ByteStep;
    hide EightSteps;
    hide Xor;
    hide XorByte;
    ByteStepDifference(s, t, a, b);
    ByteStepIsEightSteps(Xor(s, t), XorByte(a, b));
    XorByteWidens(a, b);
  }

  /** The registers of two messages differ by the register of their difference, started from zero. */
  lemma {:induction false} RegisterDifference(s: bv32, a: seq<bv8>, b: seq<bv8>)
    requires |a| == |b|
    ensures Xor(Register(s, a), Register(s, b)) == Register(0, XorBytes(a, b))
    decreases |a|
  {
    hide ByteStep;
    hide EightSteps;
    hide Xor;
    hide XorByte;
    if a == [] {
      XorZero(s, s);
    } else {
      var n, d := |a| - 1, XorBytes(a, b);
      var a1, b1 := a[..n], b[..n];
      assert d[..n] == XorBytes(a1, b1);
      RegisterDifference(s, a1, b1);
      StepDifference(Register(s, a1), Register(s, b1), a[n], b[n]);
    }
  }

  /** One bit of the division undone. */
  function BitBack(s: bv32): bv32 {
    if s & 0x8000_0000 != 0 then ((s ^ 0xEDB88320) << 1) | 1 else s << 1
  }

  function EightBack(s: bv32): bv32 {
    BitBack(BitBack(BitBack(BitBack(BitBack(BitBack(BitBack(BitBack(s))))))))
  }

  lemma BackOfOdd(s: bv32)
    requires s & 1 == 1
    ensures BitBack((s >> 1) ^ 0xEDB88320) == s
  {
  }

  lemma BackOfEven(s: bv32)
    requires s & 1 != 1
    ensures BitBack(s >> 1) == s
  {
  }

  lemma BitBackAfterStep(s: bv32)
    ensures BitBack(BitStep(s)) == s
  {
    hide BitBack;
    if s & 1 == 1 {
      BackOfOdd(s);
    } else {
      BackOfEven(s);
    }
  }

  lemma StepOfHigh(s: bv32)
    requires s & 0x8000_0000 != 0
    ensures BitStep(((s ^ 0xEDB88320) << 1) | 1) == s
  {
  }

  lemma StepOfLow(s: bv32)
    requires s & 0x8000_0000 == 0
    ensures BitStep(s << 1) == s
  {
  }

  lemma StepAfterBitBack(s: bv32)
    ensures BitStep(BitBack(s)) == s
  {
    hide BitStep;
    if s & 0x8000_0000 != 0 {
      StepOfHigh(s);
    } else {
      StepOfLow(s);
    }
  }

  lemma BitBackInverse(s: bv32)
    ensures BitBack(BitStep(s)) == s
    ensures BitStep(BitBack(s)) == s
  {
    hide BitBack;
    hide BitStep;
    BitBackAfterStep(s);
    StepAfterBitBack(s);
  }

  lemma EightBackInverse(s: bv32)
    ensures EightBack(EightSteps(s)) == s
    ensures EightSteps(EightBack(s)) == s
  {
    hide BitStep;
    hide BitBack;
    var s1, b1 := BitStep(s), BitBack(s);
    var s2, b2 := BitStep(s1), BitBack(b1);
    var s3, b3 := BitStep(s2), BitBack(b2);
    var s4, b4 := BitStep(s3), BitBack(b3);
    var s5, b5 := BitStep(s4), BitBack(b4);
    var s6, b6 := BitStep(s5), BitBack(b5);
    var s7, b7 := BitStep(s6), BitBack(b6);
    BitBackInverse(s);
    BitBackInverse(s1);
    BitBackInverse(s2);
    BitBackInverse(s3);
    BitBackInverse(s4);
    BitBackInverse(s5);
    BitBackInverse(s6);
    BitBackInverse(s7);
    BitBackInverse(b1);
    BitBackInverse(b2);
    BitBackInverse(b3);
    BitBackInverse(b4);
    BitBackInverse(b5);
    BitBackInverse(b6);
    BitBackInverse(b7);
  }

  /** A whole word of the division, and the same undone. */
  function WordSteps(s: bv32): bv32 {
    EightSteps(EightSteps(EightSteps(EightSteps(s))))
  }

  function WordBack(s: bv32): bv32 {
    EightBack(EightBack(EightBack(EightBack(s))))
  }

  lemma WordBackInverse(s: bv32)
    ensures WordBack(WordSteps(s)) == s
    ensures WordSteps(WordBack(s)) == s
  {
    hide EightSteps;
    hide EightBack;
    EightBackInverse(s);
    EightBackInverse(EightSteps(s));
    EightBackInverse(EightSteps(EightSteps(s)));
    EightBackInverse(EightSteps(EightSteps(EightSteps(s))));
    EightBackInverse(EightBack(s));
    EightBackInverse(EightBack(EightBack(s)));
    EightBackInverse(EightBack(EightBack(EightBack(s))));
  }

  // ---------------------------------------------------------------------------
  // Words of a message
  // ---------------------------------------------------------------------------

  /** Byte `i` of a word, counted from the most significant one. */
  function WordByte(w: bv32, i: nat): bv8
    requires i < 4
  {
    match i
    case 0 => ((w >> 24) & 0xFF) as bv8
    case 1 => ((w >> 16) & 0xFF) as bv8
    case 2 => ((w >> 8) & 0xFF) as bv8
    case _ => (w & 0xFF) as bv8
  }

  function WordBytes(w: bv32): (bytes: seq<bv8>)
    ensures |bytes| == 4
  {
    [WordByte(w, 0), WordByte(w, 1), WordByte(w, 2), WordByte(w, 3)]
  }

  /** The register takes the first byte of a word as its lowest. */
  function Swap(w: bv32): bv32 {
    (w >> 24) | ((w >> 8) & 0xFF00) | ((w << 8) & 0xFF_0000) | (w << 24)
  }

  /** The leading `j` bytes of a word, the others cleared. */
  function Leading(w: bv32, j: nat): bv32
    requires j <= 4
  {
    w & LeadingMask(j)
  }

  function LeadingMask(j: nat): bv32
    requires j <= 4
  {
    if j == 0 then 0 else if j == 1 then 0xFF00_0000 else if j == 2 then 0xFFFF_0000 else if j == 3 then 0xFFFF_FF00
    else 0xFFFF_FFFF
  }

  /** One byte up, and a byte as part of a word. */
  function Up(x: bv32): bv32 {
    x << 8
  }

  function Low(b: bv8): bv32 {
    b as bv32
  }

  /** Shifting up by a byte loses nothing. */
  predicate Small(x: bv32) {
    x < 0x100_0000
  }

  lemma SmallFacts(b: bv8, c: bv8)
    ensures Small(0) && Small(Low(b)) && Small(Up(Low(b))) && Small(Up(Up(Low(b))))
    ensures Small(Xor(Up(Low(c)), Low(b)))
  {
  }

  lemma UpIsUndone(x: bv32)
    requires Small(x)
    ensures EightSteps(Up(x)) == x
  {
    hide EightSteps;
    EightStepsShift(Up(x));
  }

  lemma ByteStepLow(s: bv32, b: bv8)
    ensures ByteStep(s, b) == EightSteps(Xor(s, Low(b)))
  {
    hide EightSteps;
    hide ByteStep;
    hide Xor;
    ByteStepIsEightSteps(s, b);
  }

  /** A byte can be taken into the register one byte earlier, one place up. */
  lemma Absorb(x: bv32, b: bv32)
    requires Small(b)
    ensures Xor(EightSteps(x), b) == EightSteps(Xor(x, Up(b)))
  {
    hide EightSteps;
    hide Xor;
    hide Up;
    EightStepsLinear(x, Up(b));
    UpIsUndone(b);
  }

  /** Four bytes as the register takes them. */
  function Gathered(b0: bv8, b1: bv8, b2: bv8, b3: bv8): bv32 {
    Xor(Xor(Xor(Low(b0), Up(Low(b1))), Up(Up(Low(b2)))), Up(Up(Up(Low(b3)))))
  }

  lemma SwapGathers(w: bv32)
    ensures Swap(w) == Gathered(WordByte(w, 0), WordByte(w, 1), WordByte(w, 2), WordByte(w, 3))
  {
  }

  lemma FeedFour(r: bv32, b0: bv8, b1: bv8, b2: bv8, b3: bv8)
    ensures ByteStep(ByteStep(ByteStep(ByteStep(r, b0), b1), b2), b3) == WordSteps(Xor(r, Gathered(b0, b1, b2, b3)))
  {
    hide EightSteps;
    hide ByteStep;
    hide Xor;
    hide Up;
    hide Low;
    hide Small;
    var c1, c2, c3 := Up(Low(b1)), Up(Up(Low(b2))), Up(Up(Up(Low(b3))));
    SmallFacts(b1, b0);
    SmallFacts(b2, b0);
    SmallFacts(b3, b0);
    var x0 := Xor(r, Low(b0));
    var x1 := Xor(x0, c1);
    var x2 := Xor(x1, c2);
    ByteStepLow(r, b0);
    ByteStepLow(EightSteps(x0), b1);
    Absorb(x0, Low(b1));
    ByteStepLow(EightSteps(EightSteps(x1)), b2);
    Absorb(EightSteps(x1), Low(b2));
    Absorb(x1, Up(Low(b2)));
    ByteStepLow(EightSteps(EightSteps(EightSteps(x2))), b3);
    Absorb(EightSteps(EightSteps(x2)), Low(b3));
    Absorb(EightSteps(x2), Up(Low(b3)));
    Absorb(x2, Up(Up(Low(b3))));
    XorAssoc(r, Low(b0), c1);
    XorAssoc(r, Xor(Low(b0), c1), c2);
    XorAssoc(r, Xor(Xor(Low(b0), c1), c2), c3);
  }

  /** Four bytes at once. */
  lemma FeedWord(r: bv32, w: bv32)
    ensures Register(r, WordBytes(w)) == WordSteps(Xor(r, Swap(w)))
  {
    hide ByteStep;
    hide WordSteps;
    hide Xor;
    hide WordByte;
    hide Swap;
    hide Gathered;
    RegisterOfFour(r, WordBytes(w));
    FeedFour(r, WordByte(w, 0), WordByte(w, 1), WordByte(w, 2), WordByte(w, 3));
    SwapGathers(w);
  }

  /** A byte leads to a small register from exactly one register. */
  lemma StepTo(r: bv32, b: bv8, after: bv32)
    requires Small(after)
    ensures ByteStep(r, b) == after <==> r == Xor(Up(after), Low(b))
  {
    hide ByteStep;
    hide EightSteps;
    hide Xor;
    hide Up;
    hide Low;
    hide Small;
    ByteStepLow(r, b);
    UpIsUndone(after);
    if ByteStep(r, b) == after {
      StepFrom(r, b, after);
    } else if r == Xor(Up(after), Low(b)) {
      XorAssoc(Up(after), Low(b), Low(b));
      XorUnit(Low(b));
      XorUnit(Up(after));
    }
  }

  lemma StepFrom(r: bv32, b: bv8, after: bv32)
    requires Small(after) && after == EightSteps(Xor(r, Low(b)))
    ensures r == Xor(Up(after), Low(b))
  {
    hide EightSteps;
    hide Xor;
    DifferenceBack(r, Low(b), after);
  }

  lemma LeadingOne(w: bv32)
    ensures Swap(Leading(w, 1)) == Xor(Up(0), Low(WordByte(w, 0)))
  {
  }

  lemma LeadingTwo(w: bv32)
    ensures Swap(Leading(w, 2)) == Xor(Up(Xor(Up(0), Low(WordByte(w, 1)))), Low(WordByte(w, 0)))
  {
  }

  lemma LeadingThree(w: bv32)
    ensures Swap(Leading(w, 3)) ==
            Xor(Up(Xor(Up(Xor(Up(0), Low(WordByte(w, 2)))), Low(WordByte(w, 1)))), Low(WordByte(w, 0)))
  {
  }

  lemma SmallParts(b: bv8, c: bv8)
    ensures Small(0) && Small(Xor(Up(0), Low(b))) && Small(Xor(Up(Xor(Up(0), Low(c))), Low(b)))
  {
  }

  lemma StartBytes(r: bv32, b: seq<bv8>)
    requires |b| == 4
    ensures Register(r, b[..0]) == r
    ensures Register(r, b[..1]) == ByteStep(r, b[0])
    ensures Register(r, b[..2]) == ByteStep(ByteStep(r, b[0]), b[1])
    ensures Register(r, b[..3]) == ByteStep(ByteStep(ByteStep(r, b[0]), b[1]), b[2])
  {
    hide ByteStep;
    assert b[..3][..2] == b[..2] && b[..2][..1] == b[..1] && b[..1][..0] == b[..0] == [];
  }

  /** Less than a word leads to zero from exactly the register that holds the same bytes. */
  lemma FeedLeading(r: bv32, w: bv32, j: nat)
    requires j <= 3
    ensures Register(r, WordBytes(w)[..j]) == 0 <==> r == Swap(Leading(w, j))
  {
    hide Register;
    hide ByteStep;
    hide Xor;
    hide Up;
    hide Low;
    hide Small;
    hide WordByte;
    hide Swap;
    hide Leading;
    var b0, b1, b2 := WordByte(w, 0), WordByte(w, 1), WordByte(w, 2);
    StartBytes(r, WordBytes(w));
    SmallParts(b2, b0);
    SmallParts(b1, b2);
    if j == 0 {
      LeadingNone(w);
    } else if j == 1 {
      LeadingOne(w);
      StepTo(r, b0, 0);
    } else if j == 2 {
      LeadingTwo(w);
      StepTo(ByteStep(r, b0), b1, 0);
      StepTo(r, b0, Xor(Up(0), Low(b1)));
    } else {
      LeadingThree(w);
      StepTo(ByteStep(ByteStep(r, b0), b1), b2, 0);
      StepTo(ByteStep(r, b0), b1, Xor(Up(0), Low(b2)));
      StepTo(r, b0, Xor(Up(Xor(Up(0), Low(b2))), Low(b1)));
    }
  }

  lemma LeadingNone(w: bv32)
    ensures Swap(Leading(w, 0)) == 0
  {
  }
}
