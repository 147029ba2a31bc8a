/**
 The lock provider's heartbeat file (exsinglesv/filelock.c).

 Every cluster node owns one record, kept in two copies: the first copies of all
 nodes, then the second copies.  `PingDo` rewrites the owner's two copies one after
 the other; `PingRead` takes the first copy whose checksum matches.
 */
module PingFile {
  import opened Common
  import opened PingRecord
  import opened PingMixture
  import opened Crc32
  import opened Crc32Table

  const NODE_COUNT: nat := 32
  const FILE_SIZE: nat := 1536

  /** What reading a record can give: the file is absent, every copy fails its checksum, or an entry. */
  datatype ReadResult = NoFile | CrcError | Entry(ent: LockEnt)

  predicate IsNode(node: nat) {
    1 <= node <= NODE_COUNT
  }

  // ---------------------------------------------------------------------------
  // Layout
  // ---------------------------------------------------------------------------

  function Offset(copy: nat, node: nat): nat
    requires copy < 2 && IsNode(node)
  {
    BLOCK_SIZE * NODE_COUNT * copy + BLOCK_SIZE * (node - 1)
  }

  function Slot(file: seq<bv8>, copy: nat, node: nat): (block: seq<bv8>)
    requires |file| == FILE_SIZE && copy < 2 && IsNode(node)
    ensures |block| == BLOCK_SIZE
  {
    file[Offset(copy, node)..Offset(copy, node) + BLOCK_SIZE]
  }

  /** All slots lie inside the file and no two of them share a byte. */
  lemma SlotsAreDisjoint(copy: nat, node: nat, copy': nat, node': nat)
    requires copy < 2 && IsNode(node) && copy' < 2 && IsNode(node')
    requires (copy, node) != (copy', node')
    ensures Offset(copy, node) + BLOCK_SIZE <= FILE_SIZE
    ensures Offset(copy, node) + BLOCK_SIZE <= Offset(copy', node') ||
            Offset(copy', node') + BLOCK_SIZE <= Offset(copy, node)
  {
  }

  /** The first copies of all nodes come first, in the order of the nodes and without gaps, then all second copies. */
  lemma CopiesAreApart(node: nat)
    requires IsNode(node)
    ensures Offset(0, 1) == 0 && Offset(1, 1) == Offset(0, NODE_COUNT) + BLOCK_SIZE
    ensures Offset(1, NODE_COUNT) + BLOCK_SIZE == FILE_SIZE
    ensures Offset(1, node) == Offset(0, node) + 768
    ensures node < NODE_COUNT ==> Offset(0, node + 1) == Offset(0, node) + 24
  {
  }

  // ---------------------------------------------------------------------------
  // What a ping leaves behind, and what a reader makes of it
  // ---------------------------------------------------------------------------

  /** `file` with the first `n` bytes of `block` written at `offset`. */
  function WriteAt(file: seq<bv8>, offset: nat, block: seq<bv8>, n: nat): (r: seq<bv8>)
    requires n <= |block| && offset + |block| <= |file|
    ensures |r| == |file|
  {
    file[..offset] + block[..n] + file[offset + n..]
  }

  /**
   The file after a ping of which only the first `budget` bytes reached it: the first
   copy is written before the second.  A ping that is not cut short has a budget of 48.
   */
  function Pinged(file: seq<bv8>, node: nat, ent: LockEnt, budget: nat): (r: seq<bv8>)
    requires |file| == FILE_SIZE && IsNode(node)
    ensures |r| == FILE_SIZE
  {
    var first := Min(budget, BLOCK_SIZE);
    var second := Min(budget - first, BLOCK_SIZE);
    WriteAt(WriteAt(file, Offset(0, node), Block(ent), first), Offset(1, node), Block(ent), second)
  }

  function ReadNode(file: seq<bv8>, node: nat): (r: ReadResult)
    requires |file| == FILE_SIZE && IsNode(node)
    ensures r != NoFile
  {
    match Decode(Slot(file, 0, node))
    case Some(ent) => Entry(ent)
    case None =>
      match Decode(Slot(file, 1, node))
      case Some(ent) => Entry(ent)
      case None => CrcError
  }

  lemma WriteAtElsewhere(file: seq<bv8>, offset: nat, block: seq<bv8>, n: nat, from: nat)
    requires n <= |block| && offset + |block| <= |file| && from + |block| <= |file|
    requires offset + |block| <= from || from + |block| <= offset
    ensures WriteAt(file, offset, block, n)[from..from + |block|] == file[from..from + |block|]
  {
  }

  /** Writing into one slot tears that slot and leaves every other one alone. */
  lemma WriteAtSlot(file: seq<bv8>, copy: nat, node: nat, block: seq<bv8>, n: nat, copy': nat, node': nat)
    requires |file| == FILE_SIZE && |block| == BLOCK_SIZE && n <= BLOCK_SIZE
    requires copy < 2 && IsNode(node) && copy' < 2 && IsNode(node')
    ensures Slot(WriteAt(file, Offset(copy, node), block, n), copy', node') ==
            if (copy, node) == (copy', node') then Torn(Slot(file, copy, node), block, n) else Slot(file, copy', node')
  {
    var offset, offset' := Offset(copy, node), Offset(copy', node');
    if (copy, node) != (copy', node') {
      SlotsAreDisjoint(copy, node, copy', node');
      SlotsAreDisjoint(copy', node', copy, node);
      WriteAtElsewhere(file, offset, block, n, offset');
    }
  }

  /** Both copies of the writer's record after a ping of any length. */
  lemma PingedSlots(file: seq<bv8>, node: nat, ent: LockEnt, budget: nat)
    requires |file| == FILE_SIZE && IsNode(node)
    ensures var first := Min(budget, BLOCK_SIZE);
            var second := Min(budget - first, BLOCK_SIZE);
            && Slot(Pinged(file, node, ent, budget), 0, node) == Torn(Slot(file, 0, node), Block(ent), first)
            && Slot(Pinged(file, node, ent, budget), 1, node) == Torn(Slot(file, 1, node), Block(ent), second)
  {
    hide Block;
    hide WriteAt;
    hide Slot;
    var first := Min(budget, BLOCK_SIZE);
    var second := Min(budget - first, BLOCK_SIZE);
    var file1 := WriteAt(file, Offset(0, node), Block(ent), first);
    WriteAtSlot(file, 0, node, Block(ent), first, 0, node);
    WriteAtSlot(file, 0, node, Block(ent), first, 1, node);
    WriteAtSlot(file1, 1, node, Block(ent), second, 0, node);
    WriteAtSlot(file1, 1, node, Block(ent), second, 1, node);
  }

  lemma OtherSlots(file: seq<bv8>, node: nat, ent: LockEnt, budget: nat, other: nat)
    requires |file| == FILE_SIZE && IsNode(node) && IsNode(other) && node != other
    ensures Slot(Pinged(file, node, ent, budget), 0, other) == Slot(file, 0, other)
    ensures Slot(Pinged(file, node, ent, budget), 1, other) == Slot(file, 1, other)
  {
    hide Block;
    hide WriteAt;
    hide Slot;
    var first := Min(budget, BLOCK_SIZE);
    var second := Min(budget - first, BLOCK_SIZE);
    var file1 := WriteAt(file, Offset(0, node), Block(ent), first);
    WriteAtSlot(file, 0, node, Block(ent), first, 0, other);
    WriteAtSlot(file, 0, node, Block(ent), first, 1, other);
    WriteAtSlot(file1, 1, node, Block(ent), second, 0, other);
    WriteAtSlot(file1, 1, node, Block(ent), second, 1, other);
  }

  /** However a ping ends, no other node's record changes. */
  lemma PingFrame(file: seq<bv8>, node: nat, ent: LockEnt, budget: nat, other: nat)
    requires |file| == FILE_SIZE && IsNode(node) && IsNode(other) && node != other
    ensures ReadNode(Pinged(file, node, ent, budget), other) == ReadNode(file, other)
  {
    hide Pinged;
    hide Slot;
    OtherSlots(file, node, ent, budget, other);
  }

  /** A ping that is not cut short is read back exactly. */
  lemma PingReadBack(file: seq<bv8>, node: nat, ent: LockEnt, budget: nat)
    requires |file| == FILE_SIZE && IsNode(node) && budget >= 2 * BLOCK_SIZE
    ensures Slot(Pinged(file, node, ent, budget), 0, node) == Block(ent)
    ensures Slot(Pinged(file, node, ent, budget), 1, node) == Block(ent)
    ensures ReadNode(Pinged(file, node, ent, budget), node) == Entry(ent)
  {
    hide Block;
    hide Decode;
    hide Slot;
    hide Pinged;
    PingedSlots(file, node, ent, budget);
    assert Torn(Slot(file, 0, node), Block(ent), BLOCK_SIZE) == Block(ent);
    assert Torn(Slot(file, 1, node), Block(ent), BLOCK_SIZE) == Block(ent);
    DecodeIff(Block(ent), ent);
  }

  /** Wherever it stops, a ping of `n` over `o` reads as exactly the one or exactly the other. */
  ghost predicate CrashSafe(file: seq<bv8>, node: nat, o: LockEnt, n: LockEnt)
    requires |file| == FILE_SIZE && IsNode(node)
  {
    forall budget: nat :: ReadNode(Pinged(file, node, n, budget), node) in {Entry(o), Entry(n)}
  }

  lemma CrashSafeUnlessMixture(file: seq<bv8>, node: nat, o: LockEnt, n: LockEnt)
    requires |file| == FILE_SIZE && IsNode(node)
    requires Slot(file, 0, node) == Slot(file, 1, node) == Block(o)
    ensures CrashSafe(file, node, o, n) <==> NoFalseMixture(o, n)
  {
    hide Block;
    hide Decode;
    hide Slot;
    hide Pinged;
    hide FalseMixture;
    if NoFalseMixture(o, n) {
      forall budget: nat
        ensures ReadNode(Pinged(file, node, n, budget), node) in {Entry(o), Entry(n)}
      {
        CutPingReads(file, node, o, n, budget);
      }
    } else {
      var k :| 0 < k < DATA_SIZE && FalseMixture(o, n, k);
      CutPingReads(file, node, o, n, k);
      assert ReadNode(Pinged(file, node, n, k), node) !in {Entry(o), Entry(n)};
    }
  }

  /**
   The two copies make a ping crash-safe if and only if no cut of the records' difference
   takes the checksum register back to zero with something on both sides of it.
   */
  lemma CrashSafeIff(file: seq<bv8>, node: nat, o: LockEnt, n: LockEnt)
    requires |file| == FILE_SIZE && IsNode(node)
    requires Slot(file, 0, node) == Slot(file, 1, node) == Block(o)
    ensures CrashSafe(file, node, o, n) <==> Detected(Difference(o, n))
  {
    hide CrashSafe;
    hide NoFalseMixture;
    hide Detected;
    hide Block;
    hide Slot;
    hide Difference;
    CrashSafeUnlessMixture(file, node, o, n);
    NoFalseMixtureIffDetected(o, n);
  }

  /** For records that keep their high words: the change of the time is no echo of the sequence's. */
  lemma CrashSafeIffNoEcho(file: seq<bv8>, node: nat, o: LockEnt, n: LockEnt)
    requires |file| == FILE_SIZE && IsNode(node)
    requires Slot(file, 0, node) == Slot(file, 1, node) == Block(o)
    requires SameHighWord(o.lockTime, n.lockTime) && SameHighWord(o.sequence, n.sequence)
    ensures var t, s := LowXor(o.lockTime, n.lockTime), LowXor(o.sequence, n.sequence);
            CrashSafe(file, node, o, n) <==> !Fools(t, s, 1) && !Fools(t, s, 2) && !Fools(t, s, 3)
  {
    hide CrashSafe;
    hide NoFalseMixture;
    hide Fools;
    hide LowXor;
    hide SameHighWord;
    hide Block;
    hide Slot;
    CrashSafeUnlessMixture(file, node, o, n);
    NoFalseMixtureIff(o, n);
  }

  /** What every ping within one stretch of 2^24 seconds can count on, with or without a carry. */
  lemma PingIsCrashSafe(file: seq<bv8>, node: nat, o: LockEnt, n: LockEnt)
    requires |file| == FILE_SIZE && IsNode(node)
    requires Slot(file, 0, node) == Slot(file, 1, node) == Block(o)
    requires SameButLowThree(o.lockTime, n.lockTime) && SameButLowTwo(o.sequence, n.sequence)
    ensures CrashSafe(file, node, o, n)
  {
    hide CrashSafe;
    hide NoFalseMixture;
    hide SameButLowTwo;
    hide SameButLowThree;
    hide Block;
    hide Slot;
    CrashSafeUnlessMixture(file, node, o, n);
    CarryIsSafe(o, n);
  }

  lemma CutPingReads(file: seq<bv8>, node: nat, o: LockEnt, n: LockEnt, budget: nat)
    requires |file| == FILE_SIZE && IsNode(node)
    requires Slot(file, 0, node) == Slot(file, 1, node) == Block(o)
    ensures (ReadNode(Pinged(file, node, n, budget), node) in {Entry(o), Entry(n)}) <==>
            !(0 < budget < DATA_SIZE && FalseMixture(o, n, budget))
  {
    hide Block;
    hide Decode;
    hide Slot;
    hide Pinged;
    hide FalseMixture;
    hide Torn;
    PingedSlots(file, node, n, budget);
    DecodeIff(Block(o), o);
    DecodeIff(Block(n), n);
    TornEnds(Block(o), Block(n));
    if budget <= BLOCK_SIZE {
      TornBlockDecode(o, n, budget);
    }
  }

  lemma TornEnds(was: seq<bv8>, new': seq<bv8>)
    requires |was| == |new'|
    ensures Torn(was, new', 0) == was && Torn(was, new', |was|) == new'
  {
  }

  /** The failing case is real: a clock step and a carry that make a cut ping read as a third entry. */
  lemma CrashCanLeaveMixture(file: seq<bv8>, node: nat)
    requires |file| == FILE_SIZE && IsNode(node)
    requires Slot(file, 0, node) == Slot(file, 1, node) == Block(FOOLED_OLD)
    ensures ReadNode(Pinged(file, node, FOOLED_NEW, 15), node) !in {Entry(FOOLED_OLD), Entry(FOOLED_NEW)}
  {
    hide Block;
    hide Slot;
    hide Pinged;
    hide ReadNode;
    hide FalseMixture;
    ChecksumCanBeFooled();
    CutPingReads(file, node, FOOLED_OLD, FOOLED_NEW, 15);
  }

  // ---------------------------------------------------------------------------
  // A file that has just been created
  // ---------------------------------------------------------------------------

  const ZERO_ENT := LockEnt(0, 0)

  /** Every slot holds the record of time zero and sequence zero. */
  ghost predicate IsInitial(file: seq<bv8>) {
    && |file| == FILE_SIZE
    && forall copy: nat, node: nat | copy < 2 && IsNode(node) :: Slot(file, copy, node) == Block(ZERO_ENT)
  }

  lemma InitialFromBlocks(file: seq<bv8>)
    requires |file| == FILE_SIZE
    requires forall j | 0 <= j < 2 * NODE_COUNT :: file[BLOCK_SIZE * j..BLOCK_SIZE * j + BLOCK_SIZE] == Block(ZERO_ENT)
    ensures IsInitial(file)
  {
    hide Block;
    forall copy: nat, node: nat | copy < 2 && IsNode(node)
      ensures Slot(file, copy, node) == Block(ZERO_ENT)
    {
      var j := NODE_COUNT * copy + node - 1;
      assert Offset(copy, node) == BLOCK_SIZE * j;
      assert 0 <= j < 2 * NODE_COUNT;
    }
  }

  lemma InitialReads(file: seq<bv8>, node: nat)
    requires IsInitial(file) && IsNode(node)
    ensures ReadNode(file, node) == Entry(ZERO_ENT)
  {
  }

  // ---------------------------------------------------------------------------
  // The routines
  // ---------------------------------------------------------------------------

  /** The result of looking for the highest sequence of a group. */
  datatype MaxSeqResult = Failed | MaxSeq(sequence: bv64)

  class HeartbeatFile {
    var present: bool
    const data: array<bv8>

    ghost predicate Valid()
      reads this
    {
      data.Length == FILE_SIZE
    }

    constructor ()
      ensures Valid() && !present && fresh(data)
    {
      present := false;
      data := new bv8[FILE_SIZE];
    }

    /** Write `n` bytes of a block, as far as the write gets. */
    method Write(offset: nat, block: seq<bv8>, n: nat)
      requires Valid() && n <= |block| && offset + |block| <= FILE_SIZE
      modifies data
      ensures data[..] == WriteAt(old(data[..]), offset, block, n)
    {
      var j := 0;
      while j < n
        invariant 0 <= j <= n
        invariant data[..] == WriteAt(old(data[..]), offset, block, j)
      {
        data[offset + j] := block[j];
        j := j + 1;
      }
    }

    /** Build the 24 bytes of a record. */
    static method FillBlock(ent: LockEnt) returns (block: seq<bv8>)
      ensures block == Block(ent)
    {
      hide BigEndian;
      hide Checksum;
      block := BigEndian(ent.lockTime) + BigEndian(ent.sequence);
      var crc := ComputeBuf(block);
      block := block + BigEndian(Widen(crc));
    }

    /** Give every slot a valid zero record. */
    method Initialise()
      requires Valid()
      modifies this`present, data
      ensures present && IsInitial(data[..])
    {
      hide Block;
      hide IsInitial;
      var block := FillBlock(ZERO_ENT);
      var i := 0;
      while i < 2 * NODE_COUNT
        invariant 0 <= i <= 2 * NODE_COUNT
        invariant forall j | 0 <= j < i :: data[..][BLOCK_SIZE * j..BLOCK_SIZE * j + BLOCK_SIZE] == Block(ZERO_ENT)
      {
        ghost var before := data[..];
        Write(BLOCK_SIZE * i, block, BLOCK_SIZE);
        forall j | 0 <= j <= i
          ensures data[..][BLOCK_SIZE * j..BLOCK_SIZE * j + BLOCK_SIZE] == Block(ZERO_ENT)
        {
          if j < i {
            WriteAtElsewhere(before, BLOCK_SIZE * i, block, BLOCK_SIZE, BLOCK_SIZE * j);
          }
        }
        i := i + 1;
      }
      InitialFromBlocks(data[..]);
      present := true;
    }

    /**
     Write our record to its two places.  `budget` is the number of record bytes that
     reach the file before the process dies or a write comes short.
     */
    method PingDo(node: nat, ent: LockEnt, budget: nat) returns (ok: bool)
      requires Valid() && IsNode(node)
      modifies this`present, data
      ensures present
      ensures ok <==> budget >= 2 * BLOCK_SIZE
      ensures old(present) ==> data[..] == Pinged(old(data[..]), node, ent, budget)
      ensures !old(present) ==>
                exists initial :: IsInitial(initial) && data[..] == Pinged(initial, node, ent, budget)
    {
      hide Block;
      hide IsInitial;
      if !present {
        Initialise();
      }
      ghost var start := data[..];
      var left: nat := budget;
      var copy := 0;
      while copy < 2
        invariant 0 <= copy <= 2 && present
        invariant copy == 0 ==> data[..] == start && left == budget
        invariant copy == 1 ==> left == budget - BLOCK_SIZE
        invariant copy == 1 ==> data[..] == WriteAt(start, Offset(0, node), Block(ent), BLOCK_SIZE)
        invariant copy == 2 ==> data[..] == Pinged(start, node, ent, budget) && budget >= 2 * BLOCK_SIZE
      {
        var offset := BLOCK_SIZE * NODE_COUNT * copy + BLOCK_SIZE * (node - 1);
        var block := FillBlock(ent);
        var n := Min(left, BLOCK_SIZE);
        Write(offset, block, n);
        if n < BLOCK_SIZE {
          if copy == 0 {
            assert data[..] == WriteAt(data[..], Offset(1, node), Block(ent), 0);
          }
          return false;
        }
        left := left - BLOCK_SIZE;
        copy := copy + 1;
      }
      ok := true;
    }

    /** Read one copy and check it. */
    method PingReadInt(copy: nat, node: nat) returns (r: ReadResult)
      requires Valid() && copy < 2 && IsNode(node)
      ensures !present ==> r == NoFile
      ensures present ==> r == match Decode(Slot(data[..], copy, node)) case Some(ent) => Entry(ent) case None => CrcError
    {
      hide FromBigEndian;
      hide Checksum;
      if !present {
        return NoFile;
      }
      var offset := BLOCK_SIZE * NODE_COUNT * copy + BLOCK_SIZE * (node - 1);
      var block := data[offset..offset + BLOCK_SIZE];
      assert block == Slot(data[..], copy, node);
      var time, sequence, crc := FromBigEndian(block[..8]), FromBigEndian(block[8..16]), FromBigEndian(block[16..24]);
      var computed := ComputeBuf(block[..16]);
      if crc != Widen(computed) {
        return CrcError;
      }
      return Entry(LockEnt(time, sequence));
    }

    /** First copy, second copy, first copy again; anything but a checksum error ends the search. */
    method PingRead(node: nat) returns (r: ReadResult)
      requires Valid() && IsNode(node)
      ensures r == if present then ReadNode(data[..], node) else NoFile
    {
      hide Decode;
      r := CrcError;
      var i := 0;
      while i < 3 && r == CrcError
        invariant 0 <= i <= 3
        invariant r != CrcError ==> r == if present then ReadNode(data[..], node) else NoFile
        invariant r == CrcError && i > 0 ==> present && Decode(Slot(data[..], 0, node)) == None
        invariant r == CrcError && i > 1 ==> Decode(Slot(data[..], 1, node)) == None
      {
        r := PingReadInt(if i < 2 then i else 0, node);
        i := i + 1;
      }
    }

    /** The highest sequence recorded for any node of the group. */
    method SgMaxSeq(nodes: seq<nat>) returns (r: MaxSeqResult)
      requires Valid() && NodeList(nodes)
      ensures r == if present then Highest(data[..], nodes) else MaxSeq(0)
    {
      hide ReadNode;
      hide Larger;
      var max: bv64 := 0;
      var i := 0;
      while i < |nodes|
        invariant 0 <= i <= |nodes|
        invariant MaxSeq(max) == if present then Highest(data[..], nodes[..i]) else MaxSeq(0)
      {
        assert nodes[..i + 1][..i] == nodes[..i];
        if nodes[i] != 0 {
          var ent := PingRead(nodes[i]);
          if ent == NoFile {
            break;
          } else if ent == CrcError {
            HighestPrefix(data[..], nodes, i + 1);
            return Failed;
          }
          max := Larger(ent.ent.sequence, max);
        }
        i := i + 1;
      }
      assert i == |nodes| ==> nodes[..i] == nodes;
      r := MaxSeq(max);
    }
  }

  // ---------------------------------------------------------------------------
  // The highest sequence of a group
  // ---------------------------------------------------------------------------

  /** A group's node list: node ids, zero for an unused entry. */
  predicate NodeList(nodes: seq<nat>) {
    forall i | 0 <= i < |nodes| :: nodes[i] == 0 || IsNode(nodes[i])
  }

  predicate AtMost(a: bv64, b: bv64) {
    a as int <= b as int
  }

  function Larger(a: bv64, b: bv64): bv64 {
    if a as int > b as int then a else b
  }

  lemma LargerFacts(a: bv64, b: bv64, c: bv64)
    ensures AtMost(a, Larger(a, b)) && AtMost(b, Larger(a, b))
    ensures Larger(a, b) == a || Larger(a, b) == b
    ensures AtMost(c, b) ==> AtMost(c, Larger(a, b))
  {
  }

  function Highest(file: seq<bv8>, nodes: seq<nat>): MaxSeqResult
    requires |file| == FILE_SIZE && NodeList(nodes)
  {
    if nodes == [] then MaxSeq(0) else
    var k := |nodes| - 1;
    match Highest(file, nodes[..k])
    case Failed => Failed
    case MaxSeq(m) =>
      if nodes[k] == 0 then MaxSeq(m) else
      match ReadNode(file, nodes[k])
      case Entry(ent) => MaxSeq(Larger(ent.sequence, m))
      case _ => Failed
  }

  lemma {:induction false} HighestPrefix(file: seq<bv8>, nodes: seq<nat>, i: nat)
    requires |file| == FILE_SIZE && NodeList(nodes) && i <= |nodes|
    requires Highest(file, nodes[..i]) == Failed
    ensures Highest(file, nodes) == Failed
    decreases |nodes|
  {
    hide ReadNode;
    if i == |nodes| {
      assert nodes[..i] == nodes;
    } else {
      var k := |nodes| - 1;
      assert nodes[..k][..i] == nodes[..i];
      HighestPrefix(file, nodes[..k], i);
    }
  }

  /**
   The search fails exactly when some group record cannot be read; otherwise its result
   is at least every recorded sequence and, unless it is zero, one of them.
   */
  lemma {:induction false} HighestIsMaximum(file: seq<bv8>, nodes: seq<nat>)
    requires |file| == FILE_SIZE && NodeList(nodes)
    ensures Highest(file, nodes) == Failed <==> exists n :: n in nodes && n != 0 && !ReadNode(file, n).Entry?
    ensures Highest(file, nodes).MaxSeq? ==>
              forall n | n in nodes && n != 0 :: AtMost(ReadNode(file, n).ent.sequence, Highest(file, nodes).sequence)
    ensures Highest(file, nodes).MaxSeq? && Highest(file, nodes).sequence != 0 ==>
              exists n :: n in nodes && n != 0 && ReadNode(file, n).ent.sequence == Highest(file, nodes).sequence
    decreases |nodes|
  {
    hide ReadNode;
    hide Larger;
    hide AtMost;
    if nodes != [] {
      var k := |nodes| - 1;
      var init, last := nodes[..k], nodes[k];
      HighestIsMaximum(file, init);
      assert forall n :: n in nodes <==> n in init || n == last;
      if last != 0 && ReadNode(file, last).Entry? && Highest(file, init).MaxSeq? {
        var s, m := ReadNode(file, last).ent.sequence, Highest(file, init).sequence;
        forall n | n in nodes && n != 0
          ensures AtMost(ReadNode(file, n).ent.sequence, Larger(s, m))
        {
          LargerFacts(s, m, ReadNode(file, n).ent.sequence);
        }
        LargerFacts(s, m, s);
      }
    }
  }
}
