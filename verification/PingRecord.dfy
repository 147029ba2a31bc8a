/**
 One record of the lock provider's heartbeat file, byte by byte (exsinglesv/filelock.c).

 Eight bytes of lock time, eight bytes of sequence, eight bytes of checksum, all big
 endian.  A writer can stop after any byte; a reader accepts the bytes it finds when
 their checksum matches.
 */
module PingRecord {
  import opened Common
  import opened Crc32

  const BLOCK_SIZE: nat := 24
  const DATA_SIZE: nat := 16

  datatype LockEnt = LockEnt(lockTime: bv64, sequence: bv64)

  // ---------------------------------------------------------------------------
  // Codec
  // ---------------------------------------------------------------------------

  /** Byte `i` of a 64-bit word, counted from the most significant one. */
  function ByteAt(v: bv64, i: nat): bv8
    requires i < 8
  {
    match i
    case 0 => ((v >> 56) & 0xFF) as bv8
    case 1 => ((v >> 48) & 0xFF) as bv8
    case 2 => ((v >> 40) & 0xFF) as bv8
    case 3 => ((v >> 32) & 0xFF) as bv8
    case 4 => ((v >> 24) & 0xFF) as bv8
    case 5 => ((v >> 16) & 0xFF) as bv8
    case 6 => ((v >> 8) & 0xFF) as bv8
    case _ => (v & 0xFF) as bv8
  }

  function BigEndian(v: bv64): (bytes: seq<bv8>)
    ensures |bytes| == 8
  {
    [ByteAt(v, 0), ByteAt(v, 1), ByteAt(v, 2), ByteAt(v, 3), ByteAt(v, 4), ByteAt(v, 5), ByteAt(v, 6), ByteAt(v, 7)]
  }

  function FromBytes(b0: bv8, b1: bv8, b2: bv8, b3: bv8, b4: bv8, b5: bv8, b6: bv8, b7: bv8): bv64 {
    (b0 as bv64 << 56) | (b1 as bv64 << 48) | (b2 as bv64 << 40) | (b3 as bv64 << 32) |
    (b4 as bv64 << 24) | (b5 as bv64 << 16) | (b6 as bv64 << 8) | (b7 as bv64)
  }

  function FromBigEndian(b: seq<bv8>): bv64
    requires |b| == 8
  {
    FromBytes(b[0], b[1], b[2], b[3], b[4], b[5], b[6], b[7])
  }

  function Data(ent: LockEnt): (bytes: seq<bv8>)
    ensures |bytes| == DATA_SIZE
  {
    BigEndian(ent.lockTime) + BigEndian(ent.sequence)
  }

  function Widen(c: bv32): bv64 {
    c as bv64
  }

  function ChecksumBytes(data: seq<bv8>): (bytes: seq<bv8>)
    ensures |bytes| == 8
  {
    BigEndian(Widen(Checksum(data)))
  }

  function Block(ent: LockEnt): (bytes: seq<bv8>)
    ensures |bytes| == BLOCK_SIZE
  {
    Data(ent) + ChecksumBytes(Data(ent))
  }

  function Decode(block: seq<bv8>): Option<LockEnt>
    requires |block| == BLOCK_SIZE
  {
    if FromBigEndian(block[16..24]) == Widen(Checksum(block[..16])) then
      Some(LockEnt(FromBigEndian(block[..8]), FromBigEndian(block[8..16])))
    else
      None
  }

  lemma FromBigEndianInverse(v: bv64)
    ensures FromBigEndian(BigEndian(v)) == v
  {
  }

  lemma BigEndianInverse(b: seq<bv8>)
    requires |b| == 8
    ensures BigEndian(FromBigEndian(b)) == b
  {
  }

  lemma FromBigEndianIff(b: seq<bv8>, v: bv64)
    requires |b| == 8
    ensures FromBigEndian(b) == v <==> b == BigEndian(v)
  {
    hide BigEndian;
    hide FromBigEndian;
    BigEndianInverse(b);
    FromBigEndianInverse(v);
  }

  /** The three fields of a block, compared as byte strings. */
  lemma DecodeParts(block: seq<bv8>, ent: LockEnt)
    requires |block| == BLOCK_SIZE
    ensures Decode(block) == Some(ent) <==>
            && block[..8] == BigEndian(ent.lockTime)
            && block[8..16] == BigEndian(ent.sequence)
            && block[16..24] == ChecksumBytes(block[..16])
  {
    hide BigEndian;
    hide FromBigEndian;
    hide Checksum;
    hide Widen;
    FromBigEndianIff(block[..8], ent.lockTime);
    FromBigEndianIff(block[8..16], ent.sequence);
    FromBigEndianIff(block[16..24], Widen(Checksum(block[..16])));
  }

  /** A block is accepted as an entry exactly when it is that entry's own encoding. */
  lemma DecodeIff(block: seq<bv8>, ent: LockEnt)
    requires |block| == BLOCK_SIZE
    ensures Decode(block) == Some(ent) <==> block == Block(ent)
  {
    hide BigEndian;
    hide Decode;
    hide ChecksumBytes;
    DecodeParts(block, ent);
    var t, q, c := block[..8], block[8..16], block[16..24];
    assert block == t + q + c && block[..16] == t + q;
    if block == Block(ent) {
      assert t == BigEndian(ent.lockTime);
      assert q == BigEndian(ent.sequence);
      assert c == ChecksumBytes(Data(ent));
    }
  }

  /** Every byte string of the right length is some entry's data. */
  function Undata(data: seq<bv8>): (ent: LockEnt)
    requires |data| == DATA_SIZE
    ensures Data(ent) == data
  {
    hide BigEndian;
    hide FromBigEndian;
    BigEndianInverse(data[..8]);
    BigEndianInverse(data[8..]);
    LockEnt(FromBigEndian(data[..8]), FromBigEndian(data[8..]))
  }

  // ---------------------------------------------------------------------------
  // A write that stops half way
  // ---------------------------------------------------------------------------

  /** The first `k` bytes come from the new block, the rest was there before. */
  function Torn(was: seq<bv8>, new': seq<bv8>, k: nat): (r: seq<bv8>)
    requires |was| == |new'| && k <= |was|
    ensures |r| == |was|
  {
    new'[..k] + was[k..]
  }

  /**
   No mixture of the two records' data bytes, other than the records themselves,
   carries the old record's checksum.
   */
  ghost predicate NoFalseMixture(o: LockEnt, n: LockEnt) {
    forall k | 0 < k < DATA_SIZE :: !FalseMixture(o, n, k)
  }

  ghost predicate FalseMixture(o: LockEnt, n: LockEnt, k: nat)
    requires k <= DATA_SIZE
  {
    var mix := Torn(Data(o), Data(n), k);
    mix != Data(o) && mix != Data(n) && Checksum(mix) == Checksum(Data(o))
  }

  /** A torn block is rejected, or it is the old or the new record, unless the checksum is fooled. */
  lemma TornBlockDecode(o: LockEnt, n: LockEnt, k: nat)
    requires k <= BLOCK_SIZE
    ensures (Decode(Torn(Block(o), Block(n), k)) in {None, Some(o), Some(n)}) <==>
            !(0 < k < DATA_SIZE && FalseMixture(o, n, k))
  {
    hide Checksum;
    hide Data;
    hide Decode;
    hide ChecksumBytes;
    var torn := Torn(Block(o), Block(n), k);
    DecodeIff(torn, o);
    DecodeIff(torn, n);
    if Decode(torn).Some? {
      DecodeIff(torn, Decode(torn).value);
    }
    if k < DATA_SIZE {
      var mix := Torn(Data(o), Data(n), k);
      assert torn == mix + ChecksumBytes(Data(o));
      MixtureDecode(o, n, k);
    } else {
      assert torn[..DATA_SIZE] == Data(n);
      if Decode(torn).Some? {
        var e := Decode(torn).value;
        assert Block(e)[..DATA_SIZE] == Data(e);
        DataInjective(e, n);
      }
    }
  }

  lemma DataInjective(a: LockEnt, b: LockEnt)
    requires Data(a) == Data(b)
    ensures a == b
  {
    hide BigEndian;
    hide FromBigEndian;
    assert BigEndian(a.lockTime) == Data(a)[..8] && BigEndian(a.sequence) == Data(a)[8..];
    assert BigEndian(b.lockTime) == Data(b)[..8] && BigEndian(b.sequence) == Data(b)[8..];
    FromBigEndianInverse(a.lockTime);
    FromBigEndianInverse(b.lockTime);
    FromBigEndianInverse(a.sequence);
    FromBigEndianInverse(b.sequence);
  }

  lemma ChecksumBytesInjective(a: seq<bv8>, b: seq<bv8>)
    ensures ChecksumBytes(a) == ChecksumBytes(b) <==> Checksum(a) == Checksum(b)
  {
  }

  /** Data bytes behind the old checksum are accepted exactly when their checksum is the old one. */
  lemma MixtureDecode(o: LockEnt, n: LockEnt, k: nat)
    requires k < DATA_SIZE
    ensures var mix := Torn(Data(o), Data(n), k);
            (Decode(mix + ChecksumBytes(Data(o))) in {None, Some(o), Some(n)}) <==> !FalseMixture(o, n, k)
  {
    hide Checksum;
    hide Decode;
    hide Data;
    hide ChecksumBytes;
    var mix := Torn(Data(o), Data(n), k);
    var c := ChecksumBytes(Data(o));
    var block := mix + c;
    assert block[16..24] == c && block[..16] == mix;
    ChecksumBytesInjective(mix, Data(o));
    var e := Undata(mix);
    DecodeIff(block, e);
    if Decode(block).Some? {
      var d := Decode(block).value;
      DecodeIff(block, d);
      assert Block(d)[..16] == Data(d) && Block(d)[16..] == ChecksumBytes(Data(d));
      DataInjective(d, e);
    }
    if e == o || e == n || mix == Data(o) || mix == Data(n) {
      if mix == Data(o) { DataInjective(e, o); }
      if mix == Data(n) { DataInjective(e, n); }
    }
  }
}
