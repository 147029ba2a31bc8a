/**
 When a ping that stops half way leaves a mixture of the old and the new record behind that
 carries the old record's checksum: the exact condition on the two records, for all of them
 and then, in closed form, for those whose time and sequence keep their high words.
 */
module PingMixture {
  import opened Common
  import opened Crc32
  import opened PingRecord

  /** The old record's data bytes xor the new one's. */
  function Difference(o: LockEnt, n: LockEnt): (d: seq<bv8>)
    ensures |d| == DATA_SIZE
  {
    XorBytes(Data(o), Data(n))
  }

  predicate AllZero(b: seq<bv8>) {
    forall i | 0 <= i < |b| :: b[i] == 0
  }

  // ---------------------------------------------------------------------------
  // For all records
  // ---------------------------------------------------------------------------

  lemma SameChecksumIff(p: seq<bv8>, p': seq<bv8>, q: seq<bv8>)
    requires |p| == |p'|
    ensures Checksum(p + q) == Checksum(p' + q) <==> Register(0, XorBytes(p, p')) == 0
  {
    hide Xor;
    hide Register;
    hide XorBytes;
    var s := 0xFFFF_FFFF as bv32;
    var r, r' := Register(s, p), Register(s, p');
    RegisterConcat(s, p, q);
    RegisterConcat(s, p', q);
    XorRight(Register(s, p + q), Register(s, p' + q), s);
    RegisterDifference(s, p, p');
    XorZero(r, r');
    if Register(r, q) == Register(r', q) {
      RegisterInjective(r, r', q);
    }
  }

  lemma XorRight(x: bv32, y: bv32, z: bv32)
    ensures Xor(x, z) == Xor(y, z) <==> x == y
  {
    hide Xor;
    if Xor(x, z) == Xor(y, z) {
      XorAssoc(x, z, z);
      XorAssoc(y, z, z);
      XorUnit(z);
      XorUnit(x);
      XorUnit(y);
    }
  }

  lemma SameBytesIff(a: seq<bv8>, b: seq<bv8>)
    requires |a| == |b|
    ensures AllZero(XorBytes(a, b)) <==> a == b
  {
    hide XorByte;
    forall i | 0 <= i < |a|
      ensures XorBytes(a, b)[i] == 0 <==> a[i] == b[i]
    {
      XorByteWidens(a[i], b[i]);
    }
  }

  /**
   A cut after `k` data bytes fools the reader if and only if the first `k` bytes of the
   difference are not all zero but lead the checksum register from zero back to zero, and
   something is left to differ after them.
   */
  lemma FalseMixtureIff(o: LockEnt, n: LockEnt, k: nat)
    requires k <= DATA_SIZE
    ensures FalseMixture(o, n, k) <==>
            var d := Difference(o, n);
            Register(0, d[..k]) == 0 && !AllZero(d[..k]) && !AllZero(d[k..])
  {
    hide Checksum;
    hide Register;
    hide AllZero;
    hide Data;
    hide XorByte;
    var a, b, d := Data(o), Data(n), Difference(o, n);
    var mix := Torn(a, b, k);
    assert a == a[..k] + a[k..] && b == b[..k] + b[k..];
    assert d[..k] == XorBytes(a[..k], b[..k]) && d[k..] == XorBytes(a[k..], b[k..]);
    SameBytesIff(a[..k], b[..k]);
    SameBytesIff(a[k..], b[k..]);
    SameChecksumIff(a[..k], b[..k], a[k..]);
    assert mix[..k] == b[..k] && mix[k..] == a[k..];
    if b[..k] == a[..k] {
      assert mix == a;
    }
    if a[k..] == b[k..] {
      assert mix == b;
    }
  }

  /** Wherever bytes of the difference are cut off, the checksum register tells. */
  ghost predicate Detected(d: seq<bv8>) {
    forall k | 0 < k < |d| :: Register(0, d[..k]) == 0 ==> AllZero(d[..k]) || AllZero(d[k..])
  }

  lemma NoFalseMixtureIffDetected(o: LockEnt, n: LockEnt)
    ensures NoFalseMixture(o, n) <==> Detected(Difference(o, n))
  {
    hide Register;
    hide FalseMixture;
    hide AllZero;
    hide Difference;
    forall k | 0 < k < DATA_SIZE
      ensures var d := Difference(o, n);
              FalseMixture(o, n, k) <==> Register(0, d[..k]) == 0 && !AllZero(d[..k]) && !AllZero(d[k..])
    {
      FalseMixtureIff(o, n, k);
    }
  }

  // ---------------------------------------------------------------------------
  // For records that keep their high words
  // ---------------------------------------------------------------------------

  predicate SameHighWord(a: bv64, b: bv64) {
    a >> 32 == b >> 32
  }

  function LowXor(a: bv64, b: bv64): bv32 {
    ((a ^ b) & 0xFFFF_FFFF) as bv32
  }

  /** The one change of the time that makes up for a given change of the sequence. */
  function Echo(s: bv32): bv32 {
    Swap(WordBack(WordBack(Swap(s))))
  }

  lemma HighBytes(a: bv64, b: bv64)
    requires SameHighWord(a, b)
    ensures XorByte(ByteAt(a, 0), ByteAt(b, 0)) == 0 && XorByte(ByteAt(a, 1), ByteAt(b, 1)) == 0
    ensures XorByte(ByteAt(a, 2), ByteAt(b, 2)) == 0 && XorByte(ByteAt(a, 3), ByteAt(b, 3)) == 0
  {
  }

  lemma LowBytes(a: bv64, b: bv64)
    ensures XorByte(ByteAt(a, 4), ByteAt(b, 4)) == WordByte(LowXor(a, b), 0)
    ensures XorByte(ByteAt(a, 5), ByteAt(b, 5)) == WordByte(LowXor(a, b), 1)
    ensures XorByte(ByteAt(a, 6), ByteAt(b, 6)) == WordByte(LowXor(a, b), 2)
    ensures XorByte(ByteAt(a, 7), ByteAt(b, 7)) == WordByte(LowXor(a, b), 3)
  {
  }

  const NO_BYTES: seq<bv8> := [0, 0, 0, 0]

  lemma ZeroWord()
    ensures WordBytes(0) == NO_BYTES
    ensures Swap(0) == 0
    ensures EightSteps(0) == 0
  {
  }

  lemma FieldDifference(a: bv64, b: bv64)
    requires SameHighWord(a, b)
    ensures XorBytes(BigEndian(a), BigEndian(b)) == NO_BYTES + WordBytes(LowXor(a, b))
  {
    hide ByteAt;
    hide WordByte;
    hide XorByte;
    hide LowXor;
    hide SameHighWord;
    HighBytes(a, b);
    LowBytes(a, b);
    var d, e := XorBytes(BigEndian(a), BigEndian(b)), NO_BYTES + WordBytes(LowXor(a, b));
    assert d[0] == e[0] && d[1] == e[1] && d[2] == e[2] && d[3] == e[3];
    assert d[4] == e[4] && d[5] == e[5] && d[6] == e[6] && d[7] == e[7];
  }

  lemma WordsOfDifference(o: LockEnt, n: LockEnt)
    requires SameHighWord(o.lockTime, n.lockTime) && SameHighWord(o.sequence, n.sequence)
    ensures Difference(o, n) == NO_BYTES + WordBytes(LowXor(o.lockTime, n.lockTime)) +
                                (NO_BYTES + WordBytes(LowXor(o.sequence, n.sequence)))
  {
    hide BigEndian;
    hide XorByte;
    hide SameHighWord;
    hide WordBytes;
    FieldDifference(o.lockTime, n.lockTime);
    FieldDifference(o.sequence, n.sequence);
    var d := Difference(o, n);
    assert d[..8] == XorBytes(BigEndian(o.lockTime), BigEndian(n.lockTime));
    assert d[8..] == XorBytes(BigEndian(o.sequence), BigEndian(n.sequence));
    assert d == d[..8] + d[8..];
  }

  lemma SwapTwice(w: bv32)
    ensures Swap(Swap(w)) == w
  {
  }

  lemma SwapZero(w: bv32)
    ensures Swap(w) == 0 <==> w == 0
  {
    hide Swap;
    SwapTwice(w);
    ZeroWord();
  }

  lemma WordStepsZero(x: bv32)
    ensures WordSteps(x) == 0 <==> x == 0
  {
    hide EightSteps;
    hide WordBack;
    ZeroWord();
    WordBackInverse(x);
    WordBackInverse(0);
  }

  lemma EchoIff(t: bv32, s: bv32)
    ensures WordSteps(WordSteps(Swap(t))) == Swap(s) <==> t == Echo(s)
    ensures Echo(s) == 0 <==> s == 0
  {
    hide WordSteps;
    hide WordBack;
    hide Swap;
    SwapTwice(t);
    SwapTwice(WordBack(WordBack(Swap(s))));
    WordBackInverse(Swap(t));
    WordBackInverse(WordSteps(Swap(t)));
    WordBackInverse(Swap(s));
    WordBackInverse(WordBack(Swap(s)));
    SwapZero(s);
    SwapZero(WordBack(WordBack(Swap(s))));
    WordStepsZero(WordBack(Swap(s)));
    WordStepsZero(WordBack(WordBack(Swap(s))));
  }

  /** Up to four bytes of a word lead to zero from exactly the register that holds the same bytes. */
  lemma FeedPart(r: bv32, w: bv32, j: nat)
    requires j <= 4
    ensures Register(r, WordBytes(w)[..j]) == 0 <==> r == Swap(Leading(w, j))
  {
    hide Register;
    hide WordSteps;
    hide WordBytes;
    hide Swap;
    hide Xor;
    if j < 4 {
      FeedLeading(r, w, j);
    } else {
      assert WordBytes(w)[..4] == WordBytes(w);
      FeedWord(r, w);
      WordStepsZero(Xor(r, Swap(w)));
      XorZero(r, Swap(w));
    }
  }

  lemma LeadingOneZero(w: bv32)
    ensures Leading(w, 1) == 0 <==> WordByte(w, 0) == 0
  {
  }

  lemma LeadingTwoZero(w: bv32)
    ensures Leading(w, 2) == 0 <==> WordByte(w, 0) == 0 && WordByte(w, 1) == 0
  {
  }

  lemma LeadingThreeZero(w: bv32)
    ensures Leading(w, 3) == 0 <==> WordByte(w, 0) == 0 && WordByte(w, 1) == 0 && WordByte(w, 2) == 0
  {
  }

  lemma WordZero(w: bv32)
    ensures w == 0 <==> WordByte(w, 0) == 0 && WordByte(w, 1) == 0 && WordByte(w, 2) == 0 && WordByte(w, 3) == 0
  {
  }

  lemma LeadingOneWhole(w: bv32)
    ensures Leading(w, 1) == w <==> WordByte(w, 1) == 0 && WordByte(w, 2) == 0 && WordByte(w, 3) == 0
  {
  }

  lemma RestZero(w: bv32)
    ensures w & 0xFFFF_0000 == w <==> w & 0xFFFF == 0
    ensures w & 0xFFFF_FF00 == w <==> w & 0xFF == 0
  {
  }

  lemma LowZero(w: bv32)
    ensures w & 0xFFFF == 0 <==> (w >> 8) & 0xFF == 0 && w & 0xFF == 0
  {
  }

  lemma ByteZero(x: bv32)
    ensures (x & 0xFF) as bv8 == 0 <==> x & 0xFF == 0
  {
  }

  lemma LeadingTwoWhole(w: bv32)
    ensures Leading(w, 2) == w <==> WordByte(w, 2) == 0 && WordByte(w, 3) == 0
  {
    RestZero(w);
    LowZero(w);
    ByteZero(w >> 8);
    ByteZero(w);
  }

  lemma LeadingThreeWhole(w: bv32)
    ensures Leading(w, 3) == w <==> WordByte(w, 3) == 0
  {
    RestZero(w);
    ByteZero(w);
  }

  lemma ZeroIff(b: seq<bv8>)
    requires |b| == 4
    ensures AllZero(b[..1]) <==> b[0] == 0
    ensures AllZero(b[..2]) <==> b[0] == 0 && b[1] == 0
    ensures AllZero(b[..3]) <==> b[0] == 0 && b[1] == 0 && b[2] == 0
    ensures AllZero(b[..4]) <==> b[0] == 0 && b[1] == 0 && b[2] == 0 && b[3] == 0
    ensures AllZero(b[1..]) <==> b[1] == 0 && b[2] == 0 && b[3] == 0
    ensures AllZero(b[2..]) <==> b[2] == 0 && b[3] == 0
    ensures AllZero(b[3..]) <==> b[3] == 0
    ensures AllZero(b[4..])
  {
    assert forall j | 0 <= j <= 4 :: forall i | 0 <= i < j :: b[..j][i] == b[i];
    assert b[1..][0] == b[1] && b[1..][1] == b[2] && b[1..][2] == b[3];
    assert b[2..][0] == b[2] && b[2..][1] == b[3] && b[3..][0] == b[3];
  }

  lemma PartsZero(w: bv32, j: nat)
    requires 1 <= j <= 4
    ensures AllZero(WordBytes(w)[..j]) <==> Leading(w, j) == 0
    ensures AllZero(WordBytes(w)[j..]) <==> Leading(w, j) == w
  {
    hide WordByte;
    hide Leading;
    hide AllZero;
    ZeroIff(WordBytes(w));
    if j == 1 {
      LeadingOneZero(w);
      LeadingOneWhole(w);
    } else if j == 2 {
      LeadingTwoZero(w);
      LeadingTwoWhole(w);
    } else if j == 3 {
      LeadingThreeZero(w);
      LeadingThreeWhole(w);
    } else {
      WordZero(w);
      LeadingAll(w);
    }
  }

  lemma LeadingAll(w: bv32)
    ensures Leading(w, 4) == w
  {
  }

  // ---------------------------------------------------------------------------
  // Each cut
  // ---------------------------------------------------------------------------

  /** The bytes of a difference with these low words and nothing in the high ones. */
  function Words(t: bv32, s: bv32): (d: seq<bv8>)
    ensures |d| == DATA_SIZE
  {
    NO_BYTES + WordBytes(t) + (NO_BYTES + WordBytes(s))
  }

  /** The cut after `j` bytes of the sequence's low word fools the reader. */
  predicate Fools(t: bv32, s: bv32, j: nat)
    requires j <= 4
  {
    Leading(s, j) != 0 && Leading(s, j) != s && t == Echo(Leading(s, j))
  }

  lemma CutAt(t: bv32, s: bv32, j: nat)
    requires j <= 4
    ensures Words(t, s)[..j] == NO_BYTES[..j]
    ensures Words(t, s)[..4 + j] == NO_BYTES + WordBytes(t)[..j]
    ensures Words(t, s)[..8 + j] == NO_BYTES + WordBytes(t) + NO_BYTES[..j]
    ensures Words(t, s)[..12 + j] == NO_BYTES + WordBytes(t) + NO_BYTES + WordBytes(s)[..j]
    ensures Words(t, s)[12 + j..] == WordBytes(s)[j..]
  {
    hide WordBytes;
  }

  lemma RegisterOfWords(t: bv32)
    ensures Register(0, NO_BYTES) == 0
    ensures Register(0, NO_BYTES + WordBytes(t)) == WordSteps(Swap(t))
    ensures Register(0, NO_BYTES + WordBytes(t) + NO_BYTES) == WordSteps(WordSteps(Swap(t)))
  {
    hide Register;
    hide WordSteps;
    hide WordBytes;
    hide Swap;
    hide Xor;
    ZeroWord();
    var u := WordSteps(Swap(t));
    FeedWord(0, 0);
    FeedWord(0, t);
    FeedWord(u, 0);
    XorFacts(0, Swap(t), 0);
    XorFacts(Swap(t), 0, 0);
    XorFacts(u, 0, 0);
    XorFacts(0, 0, 0);
    WordStepsZero(0);
    RegisterConcat(0, NO_BYTES, WordBytes(t));
    RegisterConcat(0, NO_BYTES + WordBytes(t), NO_BYTES);
  }

  lemma AllZeroJoin(a: seq<bv8>, b: seq<bv8>)
    ensures AllZero(a + b) <==> AllZero(a) && AllZero(b)
  {
    if AllZero(a + b) {
      assert forall i | 0 <= i < |a| :: (a + b)[i] == a[i];
      assert forall i | 0 <= i < |b| :: (a + b)[|a| + i] == b[i];
    }
  }

  lemma NoBytesZero(j: nat)
    requires j <= 4
    ensures AllZero(NO_BYTES) && AllZero(NO_BYTES[..j])
  {
  }

  lemma WordAllZero(w: bv32)
    ensures AllZero(WordBytes(w)) <==> w == 0
  {
    hide WordBytes;
    hide AllZero;
    hide Leading;
    PartsZero(w, 4);
    LeadingAll(w);
    assert WordBytes(w)[..4] == WordBytes(w);
  }

  /** Inside the time, and in the sequence's high word, a cut is always found out. */
  lemma EarlyCut(t: bv32, s: bv32, k: nat)
    requires 0 < k <= 12
    ensures Register(0, Words(t, s)[..k]) == 0 <==> AllZero(Words(t, s)[..k])
  {
    hide Register;
    hide AllZero;
    hide WordBytes;
    hide WordSteps;
    hide Swap;
    hide Leading;
    var j := if k <= 4 then k else if k <= 8 then k - 4 else k - 8;
    CutAt(t, s, j);
    NoBytesZero(j);
    RegisterOfWords(t);
    ZeroWord();
    if k <= 4 {
      ZeroLeading(j);
      FeedPart(0, 0, j);
    } else if k <= 8 {
      RegisterConcat(0, NO_BYTES, WordBytes(t)[..j]);
      FeedPart(0, t, j);
      SwapZero(Leading(t, j));
      PartsZero(t, j);
      AllZeroJoin(NO_BYTES, WordBytes(t)[..j]);
    } else {
      RegisterConcat(0, NO_BYTES + WordBytes(t), NO_BYTES[..j]);
      FeedPart(WordSteps(Swap(t)), 0, j);
      ZeroLeading(j);
      WordStepsZero(Swap(t));
      SwapZero(t);
      WordAllZero(t);
      AllZeroJoin(NO_BYTES, WordBytes(t));
      AllZeroJoin(NO_BYTES + WordBytes(t), NO_BYTES[..j]);
    }
  }

  lemma ZeroLeading(j: nat)
    requires j <= 4
    ensures Leading(0, j) == 0
  {
  }

  lemma LateCut(t: bv32, s: bv32, j: nat)
    requires 1 <= j <= 3
    ensures var d, k := Words(t, s), 12 + j;
            (Register(0, d[..k]) == 0 && !AllZero(d[..k]) && !AllZero(d[k..])) <==> Fools(t, s, j)
  {
    hide Register;
    hide AllZero;
    hide WordBytes;
    hide WordSteps;
    hide Swap;
    hide Leading;
    hide Echo;
    var p := NO_BYTES + WordBytes(t) + NO_BYTES;
    CutAt(t, s, j);
    RegisterOfWords(t);
    RegisterConcat(0, p, WordBytes(s)[..j]);
    FeedPart(WordSteps(WordSteps(Swap(t))), s, j);
    EchoIff(t, Leading(s, j));
    PartsZero(s, j);
    NoBytesZero(0);
    WordAllZero(t);
    AllZeroJoin(NO_BYTES, WordBytes(t));
    AllZeroJoin(NO_BYTES + WordBytes(t), NO_BYTES);
    AllZeroJoin(p, WordBytes(s)[..j]);
  }

  /**
   Records that keep the high words of time and sequence: no cut fools a reader if and only
   if, for one, two and three leading bytes of the sequence's change, those are zero, or all
   there is, or the change of the time is not their echo.
   */
  lemma NoFalseMixtureIff(o: LockEnt, n: LockEnt)
    requires SameHighWord(o.lockTime, n.lockTime) && SameHighWord(o.sequence, n.sequence)
    ensures var t, s := LowXor(o.lockTime, n.lockTime), LowXor(o.sequence, n.sequence);
            NoFalseMixture(o, n) <==> !Fools(t, s, 1) && !Fools(t, s, 2) && !Fools(t, s, 3)
  {
    hide Register;
    hide FalseMixture;
    hide AllZero;
    hide Words;
    hide Fools;
    hide LowXor;
    hide SameHighWord;
    var t, s := LowXor(o.lockTime, n.lockTime), LowXor(o.sequence, n.sequence);
    DifferenceIsWords(o, n);
    LateCut(t, s, 1);
    LateCut(t, s, 2);
    LateCut(t, s, 3);
    FalseMixtureIff(o, n, 13);
    FalseMixtureIff(o, n, 14);
    FalseMixtureIff(o, n, 15);
    forall k | 0 < k <= 12
      ensures !FalseMixture(o, n, k)
    {
      FalseMixtureIff(o, n, k);
      EarlyCut(t, s, k);
    }
  }

  lemma DifferenceIsWords(o: LockEnt, n: LockEnt)
    requires SameHighWord(o.lockTime, n.lockTime) && SameHighWord(o.sequence, n.sequence)
    ensures Difference(o, n) == Words(LowXor(o.lockTime, n.lockTime), LowXor(o.sequence, n.sequence))
  {
    hide WordBytes;
    hide Difference;
    WordsOfDifference(o, n);
  }

  // ---------------------------------------------------------------------------
  // A carry out of the sequence's low byte
  // ---------------------------------------------------------------------------

  function Pick(x: bv8, mask: bv8, c: bv32): bv32 {
    if x & mask != 0 then c else 0
  }

  /** The echo of a change in the last byte but one, bit by bit. */
  function EchoByte(x: bv8): bv32 {
    Xor(Xor(Xor(Pick(x, 1, 0x8A01F15F), Pick(x, 2, 0x1403E2BF)), Xor(Pick(x, 4, 0x6900B5A4), Pick(x, 8, 0x93061B92))),
        Xor(Xor(Pick(x, 16, 0x670B47FF), Pick(x, 32, 0x8F10FF25)), Xor(Pick(x, 64, 0x1E21FE4B), Pick(x, 128, 0x3C42FC97))))
  }

  /** What eight bytes, the first four a change of the time, do to the register. */
  function Carried(t: bv32): bv32 {
    WordSteps(WordSteps(Swap(t)))
  }

  lemma SwapLinear(x: bv32, y: bv32)
    ensures Swap(Xor(x, y)) == Xor(Swap(x), Swap(y))
  {
  }

  lemma WordStepsLinear(x: bv32, y: bv32)
    ensures WordSteps(Xor(x, y)) == Xor(WordSteps(x), WordSteps(y))
  {
    hide EightSteps;
    hide Xor;
    var x1, y1 := EightSteps(x), EightSteps(y);
    var x2, y2 := EightSteps(x1), EightSteps(y1);
    EightStepsLinear(x, y);
    EightStepsLinear(x1, y1);
    EightStepsLinear(x2, y2);
    EightStepsLinear(EightSteps(x2), EightSteps(y2));
  }

  lemma CarriedLinear(x: bv32, y: bv32)
    ensures Carried(Xor(x, y)) == Xor(Carried(x), Carried(y))
  {
    hide WordSteps;
    hide Swap;
    hide Xor;
    SwapLinear(x, y);
    WordStepsLinear(Swap(x), Swap(y));
    WordStepsLinear(WordSteps(Swap(x)), WordSteps(Swap(y)));
  }

  lemma CarriedBits()
    ensures Carried(0) == 0
    ensures Carried(0x8A01F15F) == 0x1_0000
    ensures Carried(0x1403E2BF) == 0x2_0000
    ensures Carried(0x6900B5A4) == 0x4_0000
    ensures Carried(0x93061B92) == 0x8_0000
    ensures Carried(0x670B47FF) == 0x10_0000
    ensures Carried(0x8F10FF25) == 0x20_0000
    ensures Carried(0x1E21FE4B) == 0x40_0000
    ensures Carried(0x3C42FC97) == 0x80_0000
  {
  }

  lemma PicksAreByte(x: bv8)
    ensures Xor(Xor(Xor(Pick(x, 1, 0x1_0000), Pick(x, 2, 0x2_0000)), Xor(Pick(x, 4, 0x4_0000), Pick(x, 8, 0x8_0000))),
                Xor(Xor(Pick(x, 16, 0x10_0000), Pick(x, 32, 0x20_0000)), Xor(Pick(x, 64, 0x40_0000), Pick(x, 128, 0x80_0000))))
            == Swap(Up(Low(x)))
  {
  }

  lemma EchoOfByte(x: bv8)
    ensures Echo(Up(Low(x))) == EchoByte(x)
  {
    hide Carried;
    hide Xor;
    hide Swap;
    hide Up;
    hide Low;
    hide Echo;
    CarriedBits();
    var p0, p1 := Pick(x, 1, 0x8A01F15F), Pick(x, 2, 0x1403E2BF);
    var p2, p3 := Pick(x, 4, 0x6900B5A4), Pick(x, 8, 0x93061B92);
    var p4, p5 := Pick(x, 16, 0x670B47FF), Pick(x, 32, 0x8F10FF25);
    var p6, p7 := Pick(x, 64, 0x1E21FE4B), Pick(x, 128, 0x3C42FC97);
    CarriedLinear(p0, p1);
    CarriedLinear(p2, p3);
    CarriedLinear(p4, p5);
    CarriedLinear(p6, p7);
    CarriedLinear(Xor(p0, p1), Xor(p2, p3));
    CarriedLinear(Xor(p4, p5), Xor(p6, p7));
    CarriedLinear(Xor(Xor(p0, p1), Xor(p2, p3)), Xor(Xor(p4, p5), Xor(p6, p7)));
    PicksAreByte(x);
    CarriedIsEcho(EchoByte(x), Up(Low(x)));
  }

  lemma CarriedIsEcho(t: bv32, s: bv32)
    ensures Carried(t) == Swap(s) <==> t == Echo(s)
  {
    hide WordSteps;
    hide Swap;
    hide Echo;
    EchoIff(t, s);
  }

  lemma EchoOfUpperHalf(x: bv8)
    requires x & 128 != 0
    ensures EchoByte(x) >= 0x0138_E0D5
  {
    if x & 64 != 0 {
    } else {
    }
  }

  lemma EchoOfUpperQuarter(x: bv8)
    requires x & 128 == 0 && x & 64 != 0
    ensures EchoByte(x) >= 0x0138_E0D5
  {
    if x & 32 != 0 {
    } else {
    }
  }

  /** The least change of the time that is an echo of a carry. */
  lemma EchoByteIsLarge(x: bv8)
    requires x != 0
    ensures EchoByte(x) >= 0x0138_E0D5
  {
    if x & 128 != 0 {
      EchoOfUpperHalf(x);
    } else if x & 64 != 0 {
      EchoOfUpperQuarter(x);
    } else {
    }
  }

  predicate SameButLowTwo(a: bv64, b: bv64) {
    a >> 16 == b >> 16
  }

  lemma LowTwoFacts(a: bv64, b: bv64)
    requires SameButLowTwo(a, b)
    ensures SameHighWord(a, b)
    ensures LowXor(a, b) & 0xFFFF_0000 == 0
  {
  }

  lemma LowTwoLeading(s: bv32)
    requires s & 0xFFFF_0000 == 0
    ensures Leading(s, 1) == 0 && Leading(s, 2) == 0
    ensures Leading(s, 3) == Up(Low(WordByte(s, 2)))
  {
    hide Leading;
    hide Up;
    hide Low;
    hide WordByte;
    LowTwoMasks(s);
    LeadingOneMask(s);
    LeadingTwoMask(s);
    LeadingThreeMask(s);
    ByteUp(s);
  }

  lemma LeadingOneMask(s: bv32)
    ensures Leading(s, 1) == s & 0xFF00_0000
  {
  }

  lemma LeadingTwoMask(s: bv32)
    ensures Leading(s, 2) == s & 0xFFFF_0000
  {
  }

  lemma LeadingThreeMask(s: bv32)
    ensures Leading(s, 3) == s & 0xFFFF_FF00
  {
  }

  lemma LowTwoMasks(s: bv32)
    requires s & 0xFFFF_0000 == 0
    ensures s & 0xFF00_0000 == 0
    ensures s & 0xFFFF_FF00 == ((s >> 8) & 0xFF) << 8
  {
  }

  lemma ByteUp(s: bv32)
    ensures Up(Low(WordByte(s, 2))) == ((s >> 8) & 0xFF) << 8
  {
  }

  /**
   A sequence that changes in its last two bytes only: the one cut that can fool a reader is
   the one between them, and it does if and only if both bytes differ and the change of the
   time is the echo of the first one's.
   */
  lemma CarryIff(o: LockEnt, n: LockEnt)
    requires SameHighWord(o.lockTime, n.lockTime) && SameButLowTwo(o.sequence, n.sequence)
    ensures var first := XorByte(ByteAt(o.sequence, 6), ByteAt(n.sequence, 6));
            var second := XorByte(ByteAt(o.sequence, 7), ByteAt(n.sequence, 7));
            NoFalseMixture(o, n) <==>
            !(first != 0 && second != 0 && LowXor(o.lockTime, n.lockTime) == EchoByte(first))
  {
    hide NoFalseMixture;
    hide SameHighWord;
    hide SameButLowTwo;
    hide LowXor;
    hide XorByte;
    hide ByteAt;
    hide EchoByte;
    hide Echo;
    hide Leading;
    hide WordByte;
    hide Up;
    hide Low;
    var s := LowXor(o.sequence, n.sequence);
    LowTwoFacts(o.sequence, n.sequence);
    LowTwoLeading(s);
    LowBytes(o.sequence, n.sequence);
    LeadingThreeZero(s);
    LeadingThreeWhole(s);
    LowTwoBytesZero(s);
    EchoOfByte(WordByte(s, 2));
    NoFalseMixtureIff(o, n);
  }

  lemma LowTwoBytesZero(s: bv32)
    requires s & 0xFFFF_0000 == 0
    ensures WordByte(s, 0) == 0 && WordByte(s, 1) == 0
  {
  }

  predicate SameButLowThree(a: bv64, b: bv64) {
    a >> 24 == b >> 24
  }

  lemma LowThreeFacts(a: bv64, b: bv64)
    requires SameButLowThree(a, b)
    ensures SameHighWord(a, b)
    ensures LowXor(a, b) < 0x100_0000
  {
  }

  /** A carry is safe while the time stays within one stretch of 2^24 seconds. */
  lemma CarryIsSafe(o: LockEnt, n: LockEnt)
    requires SameButLowThree(o.lockTime, n.lockTime) && SameButLowTwo(o.sequence, n.sequence)
    ensures NoFalseMixture(o, n)
  {
    hide NoFalseMixture;
    hide SameHighWord;
    hide SameButLowTwo;
    hide SameButLowThree;
    hide LowXor;
    hide XorByte;
    hide ByteAt;
    hide EchoByte;
    LowThreeFacts(o.lockTime, n.lockTime);
    CarryIff(o, n);
    var first := XorByte(ByteAt(o.sequence, 6), ByteAt(n.sequence, 6));
    if first != 0 {
      EchoByteIsLarge(first);
    }
  }

  predicate SameButLowByte(a: bv64, b: bv64) {
    a >> 8 == b >> 8
  }

  lemma LowByteFacts(a: bv64, b: bv64)
    requires SameButLowByte(a, b)
    ensures SameButLowTwo(a, b)
    ensures XorByte(ByteAt(a, 6), ByteAt(b, 6)) == 0
  {
  }

  /** Without a carry out of the sequence's low byte, no time of the same high word matters. */
  lemma PingWithoutCarryIsSafe(o: LockEnt, n: LockEnt)
    requires SameHighWord(o.lockTime, n.lockTime) && SameButLowByte(o.sequence, n.sequence)
    ensures NoFalseMixture(o, n)
  {
    hide NoFalseMixture;
    hide SameHighWord;
    hide SameButLowTwo;
    hide SameButLowByte;
    hide LowXor;
    hide XorByte;
    hide ByteAt;
    hide EchoByte;
    LowByteFacts(o.sequence, n.sequence);
    CarryIff(o, n);
  }

  lemma SameTime(a: bv64)
    ensures SameHighWord(a, a) && LowXor(a, a) == 0
  {
  }

  /** Within the same second, any change of the sequence's low word is safe. */
  lemma SameSecondIsSafe(o: LockEnt, n: LockEnt)
    requires o.lockTime == n.lockTime && SameHighWord(o.sequence, n.sequence)
    ensures NoFalseMixture(o, n)
  {
    hide NoFalseMixture;
    hide SameHighWord;
    hide LowXor;
    hide Echo;
    hide Leading;
    var s := LowXor(o.sequence, n.sequence);
    SameTime(o.lockTime);
    EchoIff(0, Leading(s, 1));
    EchoIff(0, Leading(s, 2));
    EchoIff(0, Leading(s, 3));
    NoFalseMixtureIff(o, n);
  }

  // ---------------------------------------------------------------------------
  // The checksum can be fooled
  // ---------------------------------------------------------------------------

  /** A node that comes back after 206 days with the next sequence. */
  const FOOLED_OLD := LockEnt(0x6500_0000, 0x0FFF)
  const FOOLED_NEW := LockEnt(0x660F_FA29, 0x1000)

  lemma FooledFacts()
    ensures SameHighWord(0x6500_0000, 0x660F_FA29) && SameButLowTwo(0x0FFF, 0x1000)
    ensures LowXor(0x6500_0000, 0x660F_FA29) == EchoByte(0x1F)
    ensures XorByte(ByteAt(0x0FFF, 6), ByteAt(0x1000, 6)) == 0x1F
    ensures XorByte(ByteAt(0x0FFF, 7), ByteAt(0x1000, 7)) != 0
  {
  }

  /** A carry in the sequence together with a particular clock step does fool the checksum. */
  lemma ChecksumCanBeFooled()
    ensures FalseMixture(FOOLED_OLD, FOOLED_NEW, 15)
    ensures !NoFalseMixture(FOOLED_OLD, FOOLED_NEW)
  {
    hide FalseMixture;
    hide SameHighWord;
    hide SameButLowTwo;
    hide LowXor;
    hide XorByte;
    hide ByteAt;
    hide EchoByte;
    FooledFacts();
    CarryIff(FOOLED_OLD, FOOLED_NEW);
    OnlyLastCut(FOOLED_OLD, FOOLED_NEW);
  }

  lemma OnlyLastCut(o: LockEnt, n: LockEnt)
    requires SameHighWord(o.lockTime, n.lockTime) && SameButLowTwo(o.sequence, n.sequence)
    ensures NoFalseMixture(o, n) <==> !FalseMixture(o, n, 15)
  {
    hide Register;
    hide FalseMixture;
    hide AllZero;
    hide Words;
    hide LowXor;
    hide SameHighWord;
    hide SameButLowTwo;
    hide Leading;
    hide Echo;
    var t, s := LowXor(o.lockTime, n.lockTime), LowXor(o.sequence, n.sequence);
    LowTwoFacts(o.sequence, n.sequence);
    LowTwoLeading(s);
    NoFalseMixtureIff(o, n);
    DifferenceIsWords(o, n);
    LateCut(t, s, 3);
    FalseMixtureIff(o, n, 15);
  }
}
