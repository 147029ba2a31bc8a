/**
 What a whole run of the locking state machine comes to, written as a structured program
 instead of a table, and what that means for the lock in shared memory.
 */
module LockEnds {
  import opened Common
  import opened LockSm
  import opened LockRuns

  // ---------------------------------------------------------------------------
  // Who takes a lock down
  // ---------------------------------------------------------------------------

  /** The node is heard, over the network or else in its record, and is not below `sequence`. */
  predicate PeerAbove(cfg: Config, disk: Disk, sequence: int, n: nat, reply: Reply)
    requires n in disk.cells
  {
    if !cfg.noRemote && reply.Answer? then reply.locked || reply.sequence >= sequence
    else
      && (cfg.noRemote || reply.CallFailed?)
      && disk.present && Readable(disk.cells[n]).Some? && Readable(disk.cells[n]).value >= sequence
  }

  /** The first other node in order that is not below `sequence` is number `i`. */
  ghost predicate FirstObjector(cfg: Config, v: View, me: nat, nodes: seq<nat>, input: Input, i: nat)
    requires forall n | n in nodes :: n in v.disk.cells
  {
    && i < |nodes| && nodes[i] != me
    && !PeerBelow(cfg, v.disk, v.shm.sequence, nodes[i], ReplyOf(input, nodes[i]))
    && forall j | 0 <= j < i && nodes[j] != me :: PeerBelow(cfg, v.disk, v.shm.sequence, nodes[j], ReplyOf(input, nodes[j]))
  }

  lemma {:induction false} ObjectorDecides(cfg: Config, v: View, me: nat, nodes: seq<nat>, input: Input, i: nat)
    requires forall n | n in nodes :: n in v.disk.cells
    requires FirstObjector(cfg, v, me, nodes, input, i)
    ensures nodes[i] in v.disk.cells
    ensures CheckPeers(cfg, v.disk, v.shm.sequence, me, nodes, input) ==
            if PeerAbove(cfg, v.disk, v.shm.sequence, nodes[i], ReplyOf(input, nodes[i])) then PeerFences else PeerFail
    decreases |nodes|
  {
    assert nodes[0] in nodes && nodes[i] in nodes;
    if i > 0 {
      assert nodes[1..][i - 1] == nodes[i];
      assert forall j | 1 <= j < i :: nodes[1..][j - 1] == nodes[j];
      ObjectorDecides(cfg, v, me, nodes[1..], input, i - 1);
    }
  }

  /**
   A lock that is set and has not expired meets an objection: the first node in order that is
   not below it decides.  If that node is heard, over the network or in its record, the lock
   is taken down; if it cannot be heard, the lock is left as it is.  Either way the check fails.
   */
  lemma ObjectionIff(cfg: Config, v: View, me: nat, input: Input, i: nat)
    requires ValidView(cfg, v, me) && input.groupFound && v.shm.isLocked
    requires input.now - cfg.sgRefresh <= v.shm.lastRefresh <= input.now + cfg.sgRefresh
    requires FirstObjector(cfg, v, me, cfg.nodes, input, i)
    ensures cfg.nodes[i] in v.disk.cells
    ensures var heard := PeerAbove(cfg, v.disk, v.shm.sequence, cfg.nodes[i], ReplyOf(input, cfg.nodes[i]));
            SgIsLocked(cfg, v, me, input) == (StatusFail, v.shm.(isLocked := !heard))
  {
    hide CheckPeers;
    hide PeerAbove;
    hide FirstObjector;
    ObjectorDecides(cfg, v, me, cfg.nodes, input, i);
  }

  /** The group counts as unlocked if and only if it is found and its lock is not set or its stamp is off by too much. */
  lemma UnlockedIff(cfg: Config, v: View, me: nat, input: Input)
    requires ValidView(cfg, v, me)
    ensures var (status, shm) := SgIsLocked(cfg, v, me, input);
            var alive := v.shm.isLocked && input.now - cfg.sgRefresh <= v.shm.lastRefresh <= input.now + cfg.sgRefresh;
            && (status == StatusFalse <==> input.groupFound && !alive)
            && (status == StatusFalse ==> shm == v.shm.(isLocked := false))
            && (!input.groupFound ==> status == StatusFail && shm == v.shm)
  {
    hide CheckPeers;
  }

  // ---------------------------------------------------------------------------
  // A run as a structured program
  // ---------------------------------------------------------------------------

  /** File 1 is given up if it was had, the process forgets its lock; shared memory is unlocked or left alone. */
  function GivenUp(v: View, me: nat, unlock: bool): View {
    View(v.proc.(isLocked := false, fd := !v.proc.locked1 && v.proc.fd),
         if unlock then v.shm.(isLocked := false) else v.shm,
         v.disk,
         if v.proc.locked1 && v.proc.fd && v.holder == Some(me) then None else v.holder)
  }

  const ABORT := Returned(6)
  const FINE := Returned(0)

  /** Both copies of the process's record, as two writes leave them; the second only after the first. */
  function BothCopies(d: Disk, me: nat, s: int, input: Input): Disk
    requires me in d.cells
  {
    var c := d.cells[me];
    var first := CellAfter(c.first, s, input.write1);
    Disk(true, d.cells[me := Copies(first, if input.write1.Written? then CellAfter(c.second, s, input.write2) else c.second)])
  }

  predicate BothWritten(input: Input) {
    input.write1 == Written && input.write2 == Written
  }

  /** The process has file 1's descriptor open and nobody else has its lock. */
  predicate MayPing(v: View, me: nat, input: Input) {
    v.proc.fd && !input.file1Error && v.holder in {None, Some(me)}
  }

  /** Lock the group, once the boot script has run: not if somebody has set the lock meanwhile. */
  function LockNow(v: View, me: nat, input: Input): (View, RunEnd) {
    var v' := v.(proc := v.proc.(isLocked := true));
    if input.scriptOk && !v.shm.isLocked then
      (v'.(shm := Shm(true, v.proc.newRefresh, v.proc.newSequence, v.proc.pid)), FINE)
    else (GivenUp(v', me, true), ABORT)
  }

  /** An owner that has just pinged: lock at once on first boot, else when enough runs have passed. */
  function WaitOrLock(cfg: Config, v: View, me: nat, input: Input): (View, RunEnd)
    requires ValidView(cfg, v, me)
  {
    if v.proc.firstBoot then LockNow(v, me, input)
    else
      var v' := v.(proc := v.proc.(waitCounter := v.proc.waitCounter + 1));
      if SgMaxSeq(cfg, v.disk) != Some(v.proc.newSequence) && !(SgMaxSeq(cfg, v.disk).None? && v.proc.newSequence == -1) then
        (GivenUp(v', me, true), ABORT)
      else if v.proc.waitCounter + 1 <= cfg.lockedWait then (v', FINE)
      else LockNow(v', me, input)
  }

  /** The rest of a run that found the group locked. */
  function WhenLocked(cfg: Config, v: View, me: nat, inputs: State -> Input): (View, RunEnd)
    requires ValidView(cfg, v, me)
  {
    var ping, refresh := inputs(StPingLock), inputs(StShmRefresh);
    if !v.proc.isLocked then
      if v.proc.locked1 then (v, Stuck(StChkLLock, EvWait)) else (GivenUp(v, me, true), ABORT)
    else if !MayPing(v, me, ping) then (GivenUp(v, me, true), ABORT)
    else
      var s := v.proc.newSequence + 1;
      var v' := v.(proc := v.proc.(newSequence := s), disk := BothCopies(v.disk, me, s, ping));
      if BothWritten(ping) && v.shm.isLocked && v.shm.pid == v.proc.pid &&
         refresh.now - cfg.sgRefresh <= v.shm.lastRefresh <= refresh.now + cfg.sgRefresh then
        (v'.(shm := v.shm.(lastRefresh := v.proc.newRefresh, sequence := s)), FINE)
      else (GivenUp(v', me, true), ABORT)
  }

  /** The rest of a run that found the group unlocked. */
  function WhenUnlocked(cfg: Config, v: View, me: nat, inputs: State -> Input): (View, RunEnd)
    requires ValidView(cfg, v, me)
  {
    if v.proc.isLocked then (GivenUp(v, me, false), ABORT)
    else if v.proc.locked1 then WhenWaiting(cfg, v, me, inputs(StPingWait), inputs(StDoLock))
    else if inputs(StChkMmon).mmon then (v, FINE)
    else WhenFree(cfg, v, me, inputs(StDoLock))
  }

  function WhenWaiting(cfg: Config, v: View, me: nat, ping: Input, lock: Input): (View, RunEnd)
    requires ValidView(cfg, v, me)
  {
    if !MayPing(v, me, ping) then (GivenUp(v, me, true), ABORT)
    else
      var s := v.proc.newSequence + 1;
      var v' := v.(proc := v.proc.(newSequence := s), disk := BothCopies(v.disk, me, s, ping));
      if BothWritten(ping) then WaitOrLock(cfg, v', me, lock) else (GivenUp(v', me, true), ABORT)
  }

  function WhenFree(cfg: Config, v: View, me: nat, lock: Input): (View, RunEnd)
    requires ValidView(cfg, v, me)
  {
    if lock.file1Error then (GivenUp(v, me, true), ABORT)
    else if v.holder !in {None, Some(me)} then (v, FINE)
    else
      var p := v.proc.(locked1 := true, fd := true);
      match SgMaxSeq(cfg, v.disk)
      case None => (GivenUp(v.(proc := p.(newSequence := -1), holder := Some(me)), me, true), ABORT)
      case Some(m) =>
        var s := m + cfg.lockInc;
        var v' := v.(proc := p.(newSequence := s), holder := Some(me), disk := BothCopies(v.disk, me, s, lock));
        if BothWritten(lock) then WaitOrLock(cfg, v', me, lock) else (GivenUp(v', me, true), ABORT)
  }

  /** A whole run. */
  function Outcome(cfg: Config, v: View, me: nat, inputs: State -> Input): (View, RunEnd)
    requires ValidView(cfg, v, me)
  {
    var check := inputs(StGetSinglegrp);
    var (status, shm) := SgIsLocked(cfg, v, me, check);
    var v' := v.(proc := v.proc.(newRefresh := check.now), shm := shm);
    match status
    case StatusFail => (GivenUp(v', me, false), ABORT)
    case StatusTrue => WhenLocked(cfg, v', me, inputs)
    case StatusFalse => WhenUnlocked(cfg, v', me, inputs)
  }

  // ---------------------------------------------------------------------------
  // The table does the same
  // ---------------------------------------------------------------------------

  lemma AbortRuns(cfg: Config, v: View, me: nat, inputs: State -> Input)
    requires ValidView(cfg, v, me)
    ensures Run(cfg, StAbort, v, me, inputs) == (GivenUp(v, me, false), ABORT)
    ensures Run(cfg, StAbortUnlock, v, me, inputs) == (GivenUp(v, me, true), ABORT)
  {
    hide Run;
    RunStep(cfg, StAbort, v, me, inputs);
    RunStep(cfg, StAbortUnlock, v, me, inputs);
  }

  /** What the check, the two pings and the refresh come to as whole actions. */
  lemma PingActs(cfg: Config, st: State, v: View, me: nat, input: Input)
    requires ValidView(cfg, v, me) && st in {StPingLock, StPingWait}
    ensures var s := v.proc.newSequence + 1;
            Act(cfg, st, v, me, input) ==
            if !MayPing(v, me, input) then (v, EvErr)
            else (v.(proc := v.proc.(newSequence := s), disk := BothCopies(v.disk, me, s, input)),
                  if BothWritten(input) then EvOk else EvErr)
  {
    TwoWrites(v.disk, me, v.proc.newSequence + 1, input);
  }

  lemma TwoWrites(d: Disk, me: nat, s: int, input: Input)
    requires me in d.cells
    ensures BothCopies(d, me, s, input) ==
            if input.write1.Written? then WriteSecond(WriteFirst(d, me, s, input.write1), me, s, input.write2)
            else WriteFirst(d, me, s, input.write1)
  {
    var c := d.cells[me];
    var c1 := c.(first := CellAfter(c.first, s, input.write1));
    var c2 := c1.(second := CellAfter(c1.second, s, input.write2));
    assert d.cells[me := c1][me := c2] == d.cells[me := c2];
  }

  lemma RefreshActs(cfg: Config, v: View, me: nat, input: Input)
    requires ValidView(cfg, v, me)
    ensures var ok := v.shm.isLocked && v.shm.pid == v.proc.pid &&
                      input.now - cfg.sgRefresh <= v.shm.lastRefresh <= input.now + cfg.sgRefresh;
            var (v', ev) := Act(cfg, StShmRefresh, v, me, input);
            && (ok ==> ev == EvOk && v' == v.(shm := v.shm.(lastRefresh := v.proc.newRefresh, sequence := v.proc.newSequence)))
            && (!ok ==> ev == EvErr && v' == v.(shm := v.shm.(isLocked := v.shm.isLocked && v.shm.pid != v.proc.pid)))
            && (!ok ==> GivenUp(v', me, true) == GivenUp(v, me, true))
  {
  }

  lemma CheckActs(cfg: Config, v: View, me: nat, input: Input)
    requires ValidView(cfg, v, me)
    ensures var ev := if v.proc.isLocked then EvLocked else if v.proc.locked1 then EvWait else EvUnlocked;
            Act(cfg, StChkLLock, v, me, input) == (v, ev) && Act(cfg, StChkLUnlock, v, me, input) == (v, ev)
    ensures Act(cfg, StChkMmon, v, me, input) == (v, if input.mmon then EvBusy else EvOk)
  {
  }

  lemma RefreshRuns(cfg: Config, v: View, me: nat, inputs: State -> Input)
    requires ValidView(cfg, v, me)
    ensures var input := inputs(StShmRefresh);
            var ok := v.shm.isLocked && v.shm.pid == v.proc.pid &&
                      input.now - cfg.sgRefresh <= v.shm.lastRefresh <= input.now + cfg.sgRefresh;
            Run(cfg, StShmRefresh, v, me, inputs) ==
            if ok then (v.(shm := v.shm.(lastRefresh := v.proc.newRefresh, sequence := v.proc.newSequence)), FINE)
            else (GivenUp(v, me, true), ABORT)
  {
    hide Run;
    hide Act;
    hide GivenUp;
    RefreshActs(cfg, v, me, inputs(StShmRefresh));
    RunStep(cfg, StShmRefresh, v, me, inputs);
    AbortRuns(cfg, Act(cfg, StShmRefresh, v, me, inputs(StShmRefresh)).0, me, inputs);
  }

  /** A ping, and the way out when it fails. */
  lemma PingRuns(cfg: Config, st: State, v: View, me: nat, inputs: State -> Input)
    requires ValidView(cfg, v, me) && st in {StPingLock, StPingWait}
    ensures var s := v.proc.newSequence + 1;
            var v' := v.(proc := v.proc.(newSequence := s), disk := BothCopies(v.disk, me, s, inputs(st)));
            && ValidView(cfg, v', me)
            && Run(cfg, st, v, me, inputs) ==
               if !MayPing(v, me, inputs(st)) then (GivenUp(v, me, true), ABORT)
               else if !BothWritten(inputs(st)) then (GivenUp(v', me, true), ABORT)
               else Run(cfg, if st == StPingLock then StShmRefresh else StDoLock, v', me, inputs)
  {
    hide Run;
    hide Act;
    hide GivenUp;
    hide BothCopies;
    hide MayPing;
    var s := v.proc.newSequence + 1;
    var v' := v.(proc := v.proc.(newSequence := s), disk := BothCopies(v.disk, me, s, inputs(st)));
    CopiesKeepKeys(cfg, v, me, s, inputs(st), v');
    PingActs(cfg, st, v, me, inputs(st));
    RunStep(cfg, st, v, me, inputs);
    AbortRuns(cfg, v, me, inputs);
    AbortRuns(cfg, v', me, inputs);
  }

  lemma LockedRuns(cfg: Config, v: View, me: nat, inputs: State -> Input)
    requires ValidView(cfg, v, me)
    ensures Run(cfg, StChkLLock, v, me, inputs) == WhenLocked(cfg, v, me, inputs)
  {
    hide Run;
    hide Act;
    hide GivenUp;
    hide BothCopies;
    hide MayPing;
    hide EventCode;
    CheckActs(cfg, v, me, inputs(StChkLLock));
    RunStep(cfg, StChkLLock, v, me, inputs);
    if !v.proc.isLocked {
      AbortRuns(cfg, v, me, inputs);
    } else {
      var s := v.proc.newSequence + 1;
      var v' := v.(proc := v.proc.(newSequence := s), disk := BothCopies(v.disk, me, s, inputs(StPingLock)));
      PingRuns(cfg, StPingLock, v, me, inputs);
      RefreshRuns(cfg, v', me, inputs);
    }
  }

  /** What deciding, publishing and storing come to. */
  function Decided(cfg: Config, v: View, input: Input): (View, Event)
    requires forall n | n in cfg.nodes :: n in v.disk.cells
  {
    var (v1, n1) := Decide(cfg, v);
    if n1.Publish? then
      var (v2, n2) := DoPublish(v1, input);
      if n2.Store? then (StoreLock(StDoLock, v2).0, EvOk) else (v2, EvErr)
    else (v1, if n1.Done? then n1.ev else EvErr)
  }

  lemma DecidedRuns(cfg: Config, v: View, me: nat, input: Input, v': View, ev: Event, inputs: State -> Input)
    requires ValidView(cfg, v, me) && (v', ev) == Decided(cfg, v, input) && ValidView(cfg, v', me)
    ensures WaitOrLock(cfg, v, me, input) ==
            match Row(StDoLock, ev)
            case Goto(st') => Run(cfg, st', v', me, inputs)
            case Return => (v', Returned(EventCode(ev)))
            case Return0 => (v', Returned(0))
            case NoRow => (v', Stuck(StDoLock, ev))
  {
    hide Run;
    hide SgMaxSeq;
    AbortRuns(cfg, v', me, inputs);
  }

  lemma DoLockActs(cfg: Config, v: View, me: nat, input: Input)
    requires ValidView(cfg, v, me)
    ensures v.proc.locked1 ==> Act(cfg, StDoLock, v, me, input) == Decided(cfg, v, input)
    ensures !v.proc.locked1 && input.file1Error ==> Act(cfg, StDoLock, v, me, input) == (v, EvErr)
    ensures !v.proc.locked1 && !input.file1Error && v.holder !in {None, Some(me)} ==> Act(cfg, StDoLock, v, me, input) == (v, EvBusy)
    ensures !v.proc.locked1 && !input.file1Error && v.holder in {None, Some(me)} ==>
              var p := v.proc.(locked1 := true, fd := true);
              match SgMaxSeq(cfg, v.disk)
              case None => Act(cfg, StDoLock, v, me, input) == (v.(proc := p.(newSequence := -1), holder := Some(me)), EvErr)
              case Some(m) =>
                var s := m + cfg.lockInc;
                var v' := v.(proc := p.(newSequence := s), holder := Some(me), disk := BothCopies(v.disk, me, s, input));
                Act(cfg, StDoLock, v, me, input) == if BothWritten(input) then Decided(cfg, v', input) else (v', EvErr)
  {
    hide SgMaxSeq;
    hide Decide;
    hide BothCopies;
    DecideEnds(cfg, v);
    if SgMaxSeq(cfg, v.disk).Some? {
      var s := SgMaxSeq(cfg, v.disk).value + cfg.lockInc;
      TwoWrites(v.disk, me, s, input);
      var v' := v.(proc := v.proc.(locked1 := true, fd := true, newSequence := s), holder := Some(me), disk := BothCopies(v.disk, me, s, input));
      CopiesKeepKeys(cfg, v, me, s, input, v');
      DecideEnds(cfg, v');
    }
  }

  lemma DecideEnds(cfg: Config, v: View)
    requires forall n | n in cfg.nodes :: n in v.disk.cells
    ensures Decide(cfg, v).1.Publish? || Decide(cfg, v).1.Done?
  {
  }

  lemma OwnerDoLockRuns(cfg: Config, v: View, me: nat, inputs: State -> Input)
    requires ValidView(cfg, v, me) && v.proc.locked1
    ensures Run(cfg, StDoLock, v, me, inputs) == WaitOrLock(cfg, v, me, inputs(StDoLock))
  {
    hide Run;
    hide Act;
    hide WaitOrLock;
    hide Decided;
    hide SgMaxSeq;
    var (v1, ev) := Act(cfg, StDoLock, v, me, inputs(StDoLock));
    DoLockActs(cfg, v, me, inputs(StDoLock));
    RunStep(cfg, StDoLock, v, me, inputs);
    DecidedRuns(cfg, v, me, inputs(StDoLock), v1, ev, inputs);
  }

  lemma TakesFileRuns(cfg: Config, v: View, me: nat, inputs: State -> Input, m: int)
    requires ValidView(cfg, v, me) && !v.proc.locked1
    requires !inputs(StDoLock).file1Error && v.holder in {None, Some(me)} && SgMaxSeq(cfg, v.disk) == Some(m)
    ensures Run(cfg, StDoLock, v, me, inputs) == WhenFree(cfg, v, me, inputs(StDoLock))
  {
    hide Run;
    hide Act;
    hide GivenUp;
    hide BothCopies;
    hide WaitOrLock;
    hide Decided;
    hide SgMaxSeq;
    var input, s := inputs(StDoLock), m + cfg.lockInc;
    var v' := v.(proc := v.proc.(locked1 := true, fd := true, newSequence := s), holder := Some(me), disk := BothCopies(v.disk, me, s, input));
    var (v1, ev) := Act(cfg, StDoLock, v, me, input);
    CopiesKeepKeys(cfg, v, me, s, input, v');
    DoLockActs(cfg, v, me, input);
    RunStep(cfg, StDoLock, v, me, inputs);
    if BothWritten(input) {
      DecidedRuns(cfg, v', me, input, v1, ev, inputs);
    } else {
      AbortRuns(cfg, v', me, inputs);
    }
  }

  lemma FreeDoLockRuns(cfg: Config, v: View, me: nat, inputs: State -> Input)
    requires ValidView(cfg, v, me) && !v.proc.locked1
    ensures Run(cfg, StDoLock, v, me, inputs) == WhenFree(cfg, v, me, inputs(StDoLock))
  {
    hide Run;
    hide Act;
    hide GivenUp;
    hide WaitOrLock;
    hide Decided;
    hide SgMaxSeq;
    var input := inputs(StDoLock);
    if !input.file1Error && v.holder in {None, Some(me)} && SgMaxSeq(cfg, v.disk).Some? {
      TakesFileRuns(cfg, v, me, inputs, SgMaxSeq(cfg, v.disk).value);
    } else {
      DoLockActs(cfg, v, me, input);
      RunStep(cfg, StDoLock, v, me, inputs);
      AbortRuns(cfg, Act(cfg, StDoLock, v, me, input).0, me, inputs);
    }
  }

  lemma CopiesKeepKeys(cfg: Config, v: View, me: nat, s: int, input: Input, v': View)
    requires ValidView(cfg, v, me) && v'.disk == BothCopies(v.disk, me, s, input)
    ensures ValidView(cfg, v', me)
  {
  }

  lemma WaitingRuns(cfg: Config, v: View, me: nat, inputs: State -> Input)
    requires ValidView(cfg, v, me) && v.proc.locked1
    ensures Run(cfg, StPingWait, v, me, inputs) == WhenWaiting(cfg, v, me, inputs(StPingWait), inputs(StDoLock))
  {
    hide Run;
    hide GivenUp;
    hide BothCopies;
    hide MayPing;
    hide WaitOrLock;
    PingRuns(cfg, StPingWait, v, me, inputs);
    var s := v.proc.newSequence + 1;
    OwnerDoLockRuns(cfg, v.(proc := v.proc.(newSequence := s), disk := BothCopies(v.disk, me, s, inputs(StPingWait))), me, inputs);
  }

  lemma UnlockedRuns(cfg: Config, v: View, me: nat, inputs: State -> Input)
    requires ValidView(cfg, v, me)
    ensures Run(cfg, StChkLUnlock, v, me, inputs) == WhenUnlocked(cfg, v, me, inputs)
  {
    hide Run;
    hide Act;
    hide GivenUp;
    hide WhenWaiting;
    hide WhenFree;
    hide ValidView;
    CheckActs(cfg, v, me, inputs(StChkLUnlock));
    RunStep(cfg, StChkLUnlock, v, me, inputs);
    if v.proc.isLocked {
      AbortRuns(cfg, v, me, inputs);
    } else if v.proc.locked1 {
      WaitingRuns(cfg, v, me, inputs);
    } else {
      CheckActs(cfg, v, me, inputs(StChkMmon));
      RunStep(cfg, StChkMmon, v, me, inputs);
      FreeDoLockRuns(cfg, v, me, inputs);
    }
  }

  /** The table-driven machine is the structured program: same final state, same return code, for every input. */
  lemma RunIsOutcome(cfg: Config, v: View, me: nat, inputs: State -> Input)
    requires ValidView(cfg, v, me)
    ensures Run(cfg, StGetSinglegrp, v, me, inputs) == Outcome(cfg, v, me, inputs)
  {
    hide Run;
    hide Act;
    hide SgIsLocked;
    hide WhenLocked;
    hide WhenUnlocked;
    hide GivenUp;
    ActGetSinglegrp(cfg, v, me, inputs(StGetSinglegrp));
    RunStep(cfg, StGetSinglegrp, v, me, inputs);
    var v1 := Act(cfg, StGetSinglegrp, v, me, inputs(StGetSinglegrp)).0;
    AbortRuns(cfg, v1, me, inputs);
    LockedRuns(cfg, v1, me, inputs);
    UnlockedRuns(cfg, v1, me, inputs);
  }

  // ---------------------------------------------------------------------------
  // The lock in shared memory at the end of a run
  // ---------------------------------------------------------------------------

  lemma WaitOrLockEnds(cfg: Config, v: View, me: nat, input: Input)
    requires ValidView(cfg, v, me)
    ensures WaitOrLock(cfg, v, me, input).1 in {FINE, ABORT}
    ensures WaitOrLock(cfg, v, me, input).1 == ABORT ==> !WaitOrLock(cfg, v, me, input).0.shm.isLocked
  {
    hide SgMaxSeq;
  }

  lemma WhenUnlockedEnds(cfg: Config, v: View, me: nat, inputs: State -> Input)
    requires ValidView(cfg, v, me) && !v.shm.isLocked
    ensures WhenUnlocked(cfg, v, me, inputs).1 in {FINE, ABORT}
    ensures WhenUnlocked(cfg, v, me, inputs).1 == ABORT ==> !WhenUnlocked(cfg, v, me, inputs).0.shm.isLocked
  {
    hide SgMaxSeq;
    hide WaitOrLock;
    forall v', input | ValidView(cfg, v', me)
      ensures WaitOrLock(cfg, v', me, input).1 in {FINE, ABORT}
      ensures WaitOrLock(cfg, v', me, input).1 == ABORT ==> !WaitOrLock(cfg, v', me, input).0.shm.isLocked
    {
      WaitOrLockEnds(cfg, v', me, input);
    }
  }

  /**
   A run that fails leaves the group's lock in shared memory as the check left it when it was
   the check that failed, and unlocked when anything after it did.
   */
  lemma AbortLeavesFlag(cfg: Config, v: View, me: nat, inputs: State -> Input)
    requires ValidView(cfg, v, me)
    ensures var (v', end) := Run(cfg, StGetSinglegrp, v, me, inputs);
            var (status, shm) := SgIsLocked(cfg, v, me, inputs(StGetSinglegrp));
            && (status == StatusFail ==> end == Returned(EventCode(EvAbort)) && v'.shm == shm)
            && (status != StatusFail && end == Returned(EventCode(EvAbort)) ==> !v'.shm.isLocked)
  {
    hide Run;
    hide SgIsLocked;
    hide WhenUnlocked;
    var check := inputs(StGetSinglegrp);
    var (status, shm) := SgIsLocked(cfg, v, me, check);
    RunIsOutcome(cfg, v, me, inputs);
    UnlockedIff(cfg, v, me, check);
    if status == StatusFalse {
      WhenUnlockedEnds(cfg, v.(proc := v.proc.(newRefresh := check.now), shm := shm), me, inputs);
    }
  }

  /**
   A process that has locked the group and finds it locked ends its run well if and only if
   it may ping, both copies are written, and the lock is still its own and alive when it
   refreshes it.  Then the lock is stamped with the time of the check and the next sequence,
   which both copies of its record carry.
   */
  lemma OwnerRunIff(cfg: Config, v: View, me: nat, inputs: State -> Input)
    requires ValidView(cfg, v, me) && v.proc.isLocked
    requires SgIsLocked(cfg, v, me, inputs(StGetSinglegrp)).0 == StatusTrue
    ensures var (v', end) := Run(cfg, StGetSinglegrp, v, me, inputs);
            var ping, refresh, s := inputs(StPingLock), inputs(StShmRefresh), v.proc.newSequence + 1;
            var well := && v.proc.fd && !ping.file1Error && v.holder in {None, Some(me)}
                        && ping.write1 == Written && ping.write2 == Written && v.shm.pid == v.proc.pid
                        && refresh.now - cfg.sgRefresh <= v.shm.lastRefresh <= refresh.now + cfg.sgRefresh;
            && end == (if well then Returned(0) else Returned(EventCode(EvAbort)))
            && (well ==>
                  && v'.shm == v.shm.(lastRefresh := inputs(StGetSinglegrp).now, sequence := s)
                  && v'.disk.cells[me] == Copies(Good(s), Good(s))
                  && v'.proc.newSequence == s && v'.proc.isLocked && v'.holder == v.holder)
            && (!well ==> !v'.shm.isLocked && !v'.proc.isLocked && (v.proc.locked1 && v.proc.fd ==> v'.holder != Some(me)))
  {
    hide Run;
    hide SgIsLocked;
    RunIsOutcome(cfg, v, me, inputs);
    LockedIff(cfg, v, me, inputs(StGetSinglegrp));
  }
}
