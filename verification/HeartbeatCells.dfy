/**
 The heartbeat file as the locking state machine sees it: `LockSm` speaks of readable and
 torn copies, `PingFile` of bytes.  A ping that stops after any number of bytes acts on
 the copies as one of the outcomes of `LockSm.WriteOutcome`, unless the checksum is fooled.
 */
module HeartbeatCells {
  import opened Common
  import opened PingRecord
  import opened PingFile
  import LockSm

  /** What a reader can make of one copy. */
  function CellOf(block: seq<bv8>): LockSm.Cell
    requires |block| == BLOCK_SIZE
  {
    match Decode(block)
    case None => LockSm.Torn
    case Some(ent) => LockSm.Good(ent.sequence as int)
  }

  function CopiesOf(file: seq<bv8>, node: nat): LockSm.Copies
    requires |file| == FILE_SIZE && IsNode(node)
  {
    LockSm.Copies(CellOf(Slot(file, 0, node)), CellOf(Slot(file, 1, node)))
  }

  /** Cutting a write of `ent` over `block` after `k` bytes makes up a third sequence. */
  predicate Fools(block: seq<bv8>, ent: LockEnt, k: nat)
    requires |block| == BLOCK_SIZE && k <= BLOCK_SIZE
  {
    CellOf(Torn(block, Block(ent), k)) !in {CellOf(block), LockSm.Torn, LockSm.Good(ent.sequence as int)}
  }

  /** Over a valid record, only a false mixture fools the reader. */
  lemma OnlyMixturesFool(o: LockEnt, n: LockEnt, k: nat)
    requires k <= BLOCK_SIZE && NoFalseMixture(o, n)
    ensures !Fools(Block(o), n, k)
  {
    hide Block;
    hide Decode;
    hide FalseMixture;
    hide Torn;
    TornBlockDecode(o, n, k);
    DecodeIff(Block(o), o);
    DecodeIff(Block(n), n);
  }

  /** How a write that stopped after `k` bytes looks from outside. */
  function OutcomeOf(block: seq<bv8>, ent: LockEnt, k: nat): LockSm.WriteOutcome
    requires |block| == BLOCK_SIZE && k <= BLOCK_SIZE
  {
    if k == BLOCK_SIZE then LockSm.Written
    else if CellOf(Torn(block, Block(ent), k)) == CellOf(block) then LockSm.FailedUntouched
    else if CellOf(Torn(block, Block(ent), k)) == LockSm.Torn then LockSm.FailedTorn
    else LockSm.FailedAfterWrite
  }

  lemma WriteIsOutcome(block: seq<bv8>, ent: LockEnt, k: nat)
    requires |block| == BLOCK_SIZE && k <= BLOCK_SIZE
    ensures CellOf(Torn(block, Block(ent), k)) ==
            LockSm.CellAfter(CellOf(block), ent.sequence as int, OutcomeOf(block, ent, k)) <==>
            !Fools(block, ent, k)
  {
    hide Block;
    hide Decode;
    if k == BLOCK_SIZE {
      assert Torn(block, Block(ent), k) == Block(ent);
      DecodeIff(Block(ent), ent);
    }
  }

  lemma ReadableIsRead(file: seq<bv8>, node: nat)
    requires |file| == FILE_SIZE && IsNode(node)
    ensures LockSm.Readable(CopiesOf(file, node)) ==
            match ReadNode(file, node)
            case Entry(ent) => Some(ent.sequence as int)
            case _ => None
  {
  }

  /** How many bytes of each copy arrive when a ping stops after `budget` bytes. */
  function FirstPart(budget: nat): (k: nat)
    ensures k <= BLOCK_SIZE
  {
    Min(budget, BLOCK_SIZE)
  }

  function SecondPart(budget: nat): (k: nat)
    ensures k <= BLOCK_SIZE
  {
    Min(budget - FirstPart(budget), BLOCK_SIZE)
  }

  /** The outcome of each of a ping's two writes. */
  function Outcomes(file: seq<bv8>, node: nat, ent: LockEnt, budget: nat): (LockSm.WriteOutcome, LockSm.WriteOutcome)
    requires |file| == FILE_SIZE && IsNode(node)
  {
    (OutcomeOf(Slot(file, 0, node), ent, FirstPart(budget)), OutcomeOf(Slot(file, 1, node), ent, SecondPart(budget)))
  }

  predicate PingFools(file: seq<bv8>, node: nat, ent: LockEnt, budget: nat)
    requires |file| == FILE_SIZE && IsNode(node)
  {
    Fools(Slot(file, 0, node), ent, FirstPart(budget)) || Fools(Slot(file, 1, node), ent, SecondPart(budget))
  }

  /** What the state machine's two writes make of a node's copies. */
  function CopiesAfter(c: LockSm.Copies, s: int, w: (LockSm.WriteOutcome, LockSm.WriteOutcome)): LockSm.Copies {
    LockSm.Copies(LockSm.CellAfter(c.first, s, w.0), LockSm.CellAfter(c.second, s, w.1))
  }

  lemma PingedCopies(file: seq<bv8>, node: nat, ent: LockEnt, budget: nat)
    requires |file| == FILE_SIZE && IsNode(node)
    ensures CopiesOf(Pinged(file, node, ent, budget), node) ==
            LockSm.Copies(CellOf(Torn(Slot(file, 0, node), Block(ent), FirstPart(budget))),
                          CellOf(Torn(Slot(file, 1, node), Block(ent), SecondPart(budget))))
  {
    hide CellOf;
    hide Block;
    hide Slot;
    hide Pinged;
    hide Torn;
    PingedSlots(file, node, ent, budget);
  }

  lemma OutcomesAre(file: seq<bv8>, node: nat, ent: LockEnt, budget: nat)
    requires |file| == FILE_SIZE && IsNode(node)
    ensures var w := Outcomes(file, node, ent, budget);
            && (w.0.Written? <==> budget >= BLOCK_SIZE) && (w.1.Written? <==> budget >= 2 * BLOCK_SIZE)
            && (!w.0.Written? ==> w.1 == LockSm.FailedUntouched)
  {
    hide Slot;
    hide OutcomeOf;
    OutcomeFacts(Slot(file, 0, node), ent, FirstPart(budget));
    OutcomeFacts(Slot(file, 1, node), ent, SecondPart(budget));
  }

  /**
   A ping of which `budget` bytes arrive acts on the copies as the state machine's two
   writes do: the second only after the first has succeeded, nobody else's copies touched.
   It does so exactly when neither write fools the reader.
   */
  lemma PingRefinesCells(file: seq<bv8>, node: nat, ent: LockEnt, budget: nat, other: nat)
    requires |file| == FILE_SIZE && IsNode(node) && IsNode(other)
    ensures var w := Outcomes(file, node, ent, budget);
            && (w.0.Written? <==> budget >= BLOCK_SIZE) && (w.1.Written? <==> budget >= 2 * BLOCK_SIZE)
            && (!w.0.Written? ==> w.1 == LockSm.FailedUntouched)
            && (CopiesOf(Pinged(file, node, ent, budget), node) == CopiesAfter(CopiesOf(file, node), ent.sequence as int, w) <==>
                !PingFools(file, node, ent, budget))
    ensures other != node ==> CopiesOf(Pinged(file, node, ent, budget), other) == CopiesOf(file, other)
  {
    hide CellOf;
    hide LockSm.CellAfter;
    hide Block;
    hide Slot;
    hide Pinged;
    hide Fools;
    hide OutcomeOf;
    hide Torn;
    hide FirstPart;
    hide SecondPart;
    PingedCopies(file, node, ent, budget);
    OutcomesAre(file, node, ent, budget);
    WriteIsOutcome(Slot(file, 0, node), ent, FirstPart(budget));
    WriteIsOutcome(Slot(file, 1, node), ent, SecondPart(budget));
    if other != node {
      OtherSlots(file, node, ent, budget, other);
    }
  }

  lemma OutcomeFacts(block: seq<bv8>, ent: LockEnt, k: nat)
    requires |block| == BLOCK_SIZE && k <= BLOCK_SIZE
    ensures OutcomeOf(block, ent, k).Written? <==> k == BLOCK_SIZE
    ensures k == 0 ==> OutcomeOf(block, ent, k) == LockSm.FailedUntouched
  {
    hide Block;
    hide Decode;
    if k == 0 {
      assert Torn(block, Block(ent), 0) == block;
    }
  }
}
