/**
 What one run of the locking state machine does, for every state a process can be in
 and everything its surroundings can answer (exsinglesv/locksm.c:113-167).
 */
module LockRuns {
  import opened Common
  import opened LockSm

  // ---------------------------------------------------------------------------
  // The table is complete but for one pair
  // ---------------------------------------------------------------------------

  /** The only event an action can return without a row for it is a wait in `StChkLLock`. */
  lemma OnlyMissingRow(cfg: Config, st: State, v: View, me: nat, input: Input)
    requires ValidView(cfg, v, me)
    ensures Row(st, Act(cfg, st, v, me, input).1) == NoRow <==>
            st == StChkLLock && !v.proc.isLocked && v.proc.locked1
  {
    match st
    case StDoLock =>
    case _ =>
  }

  /**
   A run gets stuck exactly when shared memory says locked while this process holds
   file 1 without having locked the group yet.
   */
  lemma StuckIff(cfg: Config, v: View, me: nat, inputs: State -> Input)
    requires ValidView(cfg, v, me)
    ensures Run(cfg, StGetSinglegrp, v, me, inputs).1.Stuck? <==>
            && SgIsLocked(cfg, v, me, inputs(StGetSinglegrp)).0 == StatusTrue
            && !v.proc.isLocked && v.proc.locked1
  {
    hide Act;
    ActGetSinglegrp(cfg, v, me, inputs(StGetSinglegrp));
    var (v', ev) := Act(cfg, StGetSinglegrp, v, me, inputs(StGetSinglegrp));
    match Row(StGetSinglegrp, ev)
    case Goto(st') =>
      if st' == StChkLLock {
        OnlyMissingRow(cfg, StChkLLock, v', me, inputs(StChkLLock));
        if !(!v'.proc.isLocked && v'.proc.locked1) {
          OtherStatesReturn(cfg, st', v', me, inputs);
        }
      } else {
        OtherStatesReturn(cfg, st', v', me, inputs);
      }
    case _ =>
  }

  lemma ActGetSinglegrp(cfg: Config, v: View, me: nat, input: Input)
    requires ValidView(cfg, v, me)
    ensures var (status, shm) := SgIsLocked(cfg, v, me, input);
            && Act(cfg, StGetSinglegrp, v, me, input).0 == v.(proc := v.proc.(newRefresh := input.now), shm := shm)
            && Act(cfg, StGetSinglegrp, v, me, input).1 ==
               (match status case StatusFail => EvErr case StatusTrue => EvLocked case StatusFalse => EvUnlocked)
  {
  }

  lemma {:induction false} OtherStatesReturn(cfg: Config, st: State, v: View, me: nat, inputs: State -> Input)
    requires ValidView(cfg, v, me)
    requires st != StGetSinglegrp
    requires st == StChkLLock ==> v.proc.isLocked || !v.proc.locked1
    ensures Run(cfg, st, v, me, inputs).1.Returned?
    decreases Rank(st)
  {
    hide Act;
    OnlyMissingRow(cfg, st, v, me, inputs(st));
    var (v', ev) := Act(cfg, st, v, me, inputs(st));
    RowLowersRank(st, ev);
    match Row(st, ev)
    case Goto(st') => OtherStatesReturn(cfg, st', v', me, inputs);
    case _ =>
  }

  // ---------------------------------------------------------------------------
  // A run while another node holds file 1
  // ---------------------------------------------------------------------------

  /** The states a process can pass while it cannot own file 1. */
  predicate Barred(st: State, p: Proc) {
    match st
    case StShmRefresh => false
    case StChkMmon => !p.locked1
    case StDoLock => !p.locked1
    case _ => true
  }

  /** Nothing of the group's state has been set: at most our own lock flag was taken down. */
  predicate Untouched(v: View, v': View) {
    && v'.disk == v.disk
    && v'.holder == v.holder
    && (v'.shm == v.shm || v'.shm == Unlocked(v.shm))
    && v'.proc.locked1 == v.proc.locked1
    && v'.proc.newSequence == v.proc.newSequence
    && (v'.proc.isLocked ==> v.proc.isLocked)
  }

  lemma BarredAct(cfg: Config, st: State, v: View, me: nat, input: Input, owner: nat)
    requires ValidView(cfg, v, me)
    requires v.holder == Some(owner) && owner != me && Barred(st, v.proc)
    ensures var (v', ev) := Act(cfg, st, v, me, input);
            && Untouched(v, v')
            && (Row(st, ev).Goto? ==> Barred(Row(st, ev).st, v'.proc))
            && (Row(st, ev) == Return ==> ev == EvAbort)
            && (Row(st, ev) == Return0 ==> !v.proc.locked1)
  {
  }

  /**
   A run made while another node holds file 1 writes no heartbeat and sets or refreshes
   no lock.  If this process believed it held file 1, the run ends in abort, except where it
   finds a lock in shared memory that it has not set itself: then there is no row to go on.
   */
  lemma RunWhileOtherHolds(cfg: Config, v: View, me: nat, inputs: State -> Input, owner: nat)
    requires ValidView(cfg, v, me)
    requires v.holder == Some(owner) && owner != me
    ensures var (v', end) := Run(cfg, StGetSinglegrp, v, me, inputs);
            var foreign := SgIsLocked(cfg, v, me, inputs(StGetSinglegrp)).0 == StatusTrue && !v.proc.isLocked;
            && Untouched(v, v')
            && (v.proc.locked1 && !foreign ==> end == Returned(EventCode(EvAbort)))
            && (v.proc.locked1 && foreign ==> end.Stuck?)
            && (!v.proc.locked1 ==> end in {Returned(0), Returned(EventCode(EvAbort))})
  {
    hide Run;
    BarredRun(cfg, StGetSinglegrp, v, me, inputs, owner);
    StuckIff(cfg, v, me, inputs);
  }

  lemma {:induction false} BarredRun(cfg: Config, st: State, v: View, me: nat, inputs: State -> Input, owner: nat)
    requires ValidView(cfg, v, me)
    requires v.holder == Some(owner) && owner != me && Barred(st, v.proc)
    ensures var (v', end) := Run(cfg, st, v, me, inputs);
            && Untouched(v, v')
            && (v.proc.locked1 && end.Returned? ==> end == Returned(EventCode(EvAbort)))
            && (end.Returned? ==> end.code == 0 || end.code == EventCode(EvAbort))
    decreases Rank(st)
  {
    hide Act;
    hide Barred;
    BarredAct(cfg, st, v, me, inputs(st), owner);
    var (v1, ev) := Act(cfg, st, v, me, inputs(st));
    RowLowersRank(st, ev);
    match Row(st, ev)
    case Goto(st') => BarredRun(cfg, st', v1, me, inputs, owner);
    case _ =>
  }

  // ---------------------------------------------------------------------------
  // When the group counts as locked
  // ---------------------------------------------------------------------------

  /** What another node says, or else its heartbeat record, puts it below our sequence. */
  predicate PeerBelow(cfg: Config, disk: Disk, sequence: int, n: nat, reply: Reply)
    requires n in disk.cells
  {
    if !cfg.noRemote && reply.Answer? then !reply.locked && reply.sequence < sequence
    else
      && (cfg.noRemote || reply.CallFailed?)
      && disk.present && Readable(disk.cells[n]).Some? && Readable(disk.cells[n]).value < sequence
  }

  lemma {:induction false} PeersAgreeIff(cfg: Config, disk: Disk, sequence: int, me: nat, nodes: seq<nat>, input: Input)
    requires forall n | n in nodes :: n in disk.cells
    ensures CheckPeers(cfg, disk, sequence, me, nodes, input) == PeerOk <==>
            forall n | n in nodes && n != me :: PeerBelow(cfg, disk, sequence, n, ReplyOf(input, n))
    decreases |nodes|
  {
    if nodes != [] {
      PeersAgreeIff(cfg, disk, sequence, me, nodes[1..], input);
      assert forall n :: n in nodes <==> n == nodes[0] || n in nodes[1..];
    }
  }

  /**
   The group counts as locked if and only if the lock is set, has not expired, and every
   other node is below it; a lock that does not count is taken down only if it has expired
   or some other node is not below it.
   */
  lemma LockedIff(cfg: Config, v: View, me: nat, input: Input)
    requires ValidView(cfg, v, me)
    ensures var (status, shm) := SgIsLocked(cfg, v, me, input);
            var allBelow := forall n | n in cfg.nodes && n != me :: PeerBelow(cfg, v.disk, v.shm.sequence, n, ReplyOf(input, n));
            && (status == StatusTrue <==> input.groupFound && LockedAt(cfg, v.shm, input.now) && allBelow)
            && (shm == v.shm || (shm == Unlocked(v.shm) && (Stale(cfg, v.shm, input.now) || !allBelow)))
            && (status == StatusFalse ==> !shm.isLocked)
  {
    hide CheckPeers;
    hide PeerBelow;
    PeersAgreeIff(cfg, v.disk, v.shm.sequence, me, cfg.nodes, input);
  }

  // ---------------------------------------------------------------------------
  // Maintenance mode, and giving up
  // ---------------------------------------------------------------------------

  /** In maintenance mode a process that does not have file 1 does not take it, and sets nothing. */
  lemma MaintenanceBlocksTakeover(cfg: Config, v: View, me: nat, inputs: State -> Input)
    requires ValidView(cfg, v, me) && !v.proc.locked1 && !v.proc.isLocked && inputs(StChkMmon).mmon
    ensures var (v', end) := Run(cfg, StGetSinglegrp, v, me, inputs);
            Untouched(v, v') && !v'.proc.locked1 && end in {Returned(0), Returned(EventCode(EvAbort))}
  {
    hide Run;
    hide Act;
    var (v1, ev) := Act(cfg, StGetSinglegrp, v, me, inputs(StGetSinglegrp));
    RunStep(cfg, StGetSinglegrp, v, me, inputs);
    ActGetSinglegrp(cfg, v, me, inputs(StGetSinglegrp));
    LockedIff(cfg, v, me, inputs(StGetSinglegrp));
    QuietActs(cfg, v1, me, inputs(StChkMmon));
    RunStep(cfg, StChkLLock, v1, me, inputs);
    RunStep(cfg, StChkLUnlock, v1, me, inputs);
    RunStep(cfg, StChkMmon, v1, me, inputs);
    RunStep(cfg, StAbort, v1, me, inputs);
    RunStep(cfg, StAbortUnlock, v1, me, inputs);
    forall input
      ensures Act(cfg, StChkLLock, v1, me, input) == (v1, EvUnlocked)
      ensures Act(cfg, StChkLUnlock, v1, me, input) == (v1, EvUnlocked)
      ensures Act(cfg, StAbort, v1, me, input) == (Uninit(v1, me, false, false), EvAbort)
      ensures Act(cfg, StAbortUnlock, v1, me, input) == (Uninit(v1, me, false, true), EvAbort)
    {
      QuietActs(cfg, v1, me, input);
    }
  }

  lemma QuietActs(cfg: Config, v: View, me: nat, input: Input)
    requires ValidView(cfg, v, me) && !v.proc.locked1 && !v.proc.isLocked
    ensures Act(cfg, StChkLLock, v, me, input) == (v, EvUnlocked)
    ensures Act(cfg, StChkLUnlock, v, me, input) == (v, EvUnlocked)
    ensures Act(cfg, StChkMmon, v, me, input) == (v, if input.mmon then EvBusy else EvOk)
    ensures Act(cfg, StAbort, v, me, input) == (Uninit(v, me, false, false), EvAbort)
    ensures Act(cfg, StAbortUnlock, v, me, input) == (Uninit(v, me, false, true), EvAbort)
  {
  }

  /** Having file 1 means having its descriptor open and knowing about it. */
  predicate KnowsFile(v: View, me: nat) {
    v.holder == Some(me) ==> v.proc.locked1 && v.proc.fd
  }

  lemma ActKnowsFile(cfg: Config, st: State, v: View, me: nat, input: Input)
    requires ValidView(cfg, v, me) && KnowsFile(v, me)
    ensures var (v', ev) := Act(cfg, st, v, me, input);
            && KnowsFile(v', me)
            && (ev == EvAbort ==> v'.holder != Some(me) && !v'.proc.isLocked)
            && (ev == EvAbort && st == StAbortUnlock ==> !v'.shm.isLocked)
  {
    hide CheckPeers;
    hide SgMaxSeq;
  }

  /** Only the two abort states hand an event to the caller. */
  lemma ReturnIsAbort(st: State, ev: Event)
    ensures Row(st, ev) == Return ==> ev == EvAbort && st in {StAbort, StAbortUnlock}
  {
  }

  /** A run that ends in abort, from whatever state, gives up file 1 and forgets the lock. */
  lemma {:induction false} AbortGivesUp(cfg: Config, st: State, v: View, me: nat, inputs: State -> Input)
    requires ValidView(cfg, v, me) && KnowsFile(v, me)
    ensures var (v', end) := Run(cfg, st, v, me, inputs);
            && KnowsFile(v', me)
            && (end.Returned? && end.code != 0 ==> end.code == EventCode(EvAbort) && v'.holder != Some(me) && !v'.proc.isLocked)
    decreases Rank(st)
  {
    hide Act;
    ActKnowsFile(cfg, st, v, me, inputs(st));
    var (v1, ev) := Act(cfg, st, v, me, inputs(st));
    RowLowersRank(st, ev);
    ReturnIsAbort(st, ev);
    match Row(st, ev)
    case Goto(st') => AbortGivesUp(cfg, st', v1, me, inputs);
    case _ =>
  }

  // ---------------------------------------------------------------------------
  // A takeover
  // ---------------------------------------------------------------------------

  /** Every other node's record can be read and is below `s`. */
  ghost predicate Dominates(cells: map<nat, Copies>, nodes: seq<nat>, me: nat, s: int)
    requires forall n | n in nodes :: n in cells
  {
    forall n | n in nodes && n != me :: Readable(cells[n]).Some? && Readable(cells[n]).value < s
  }

  /** With its own record written last, the owner's sequence is the group's highest. */
  lemma OwnSequenceIsMax(cells: map<nat, Copies>, nodes: seq<nat>, me: nat, s: int)
    requires forall n | n in nodes :: n in cells
    requires me in nodes && s > 0
    requires Dominates(cells, nodes, me, s) && Readable(cells[me]) == Some(s)
    ensures MaxSeqOf(cells, nodes) == Some(s)
  {
    MaxSeqOfIsMaximum(cells, nodes);
  }

  /** The highest sequence plus one is above every other node's. */
  lemma MaxSeqDominates(cells: map<nat, Copies>, nodes: seq<nat>, me: nat, s: int)
    requires forall n | n in nodes :: n in cells
    requires MaxSeqOf(cells, nodes).Some? && s > MaxSeqOf(cells, nodes).value
    ensures Dominates(cells, nodes, me, s) && s > 0
  {
  }

  /** Nothing fails, nobody is in maintenance mode. */
  predicate Smooth(input: Input) {
    && input.groupFound
    && !input.file1Error
    && input.write1 == Written
    && input.write2 == Written
    && !input.mmon
    && input.scriptOk
  }

  lemma DecideWaiting(cfg: Config, v: View, me: nat)
    requires ValidView(cfg, v, me) && me in cfg.nodes
    requires v.disk.present && v.proc.newSequence > 0 && !v.proc.firstBoot
    requires v.disk.cells[me] == Copies(Good(v.proc.newSequence), Good(v.proc.newSequence))
    requires Dominates(v.disk.cells, cfg.nodes, me, v.proc.newSequence)
    ensures var p := v.proc.(waitCounter := v.proc.waitCounter + 1);
            Decide(cfg, v) == if p.waitCounter > cfg.lockedWait then (v.(proc := p.(isLocked := true)), Publish)
                              else (v.(proc := p), Done(EvWait))
  {
    OwnSequenceIsMax(v.disk.cells, cfg.nodes, me, v.proc.newSequence);
  }

  /** One turn of the machine's loop. */
  lemma RunStep(cfg: Config, st: State, v: View, me: nat, inputs: State -> Input)
    requires ValidView(cfg, v, me)
    ensures var (v', ev) := Act(cfg, st, v, me, inputs(st));
            Run(cfg, st, v, me, inputs) ==
            match Row(st, ev)
            case Goto(st') => Run(cfg, st', v', me, inputs)
            case Return => (v', Returned(EventCode(ev)))
            case Return0 => (v', Returned(0))
            case NoRow => (v', Stuck(st, ev))
  {
  }
}
