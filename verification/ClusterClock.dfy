/**
 The clock of a cluster: stamps lie in the past, locks of nodes that do not own file 1 date
 from before it was taken, and an owner that waits has counted its runs, each a full
 interval long.  All of this holds in every reachable state.
 */
module ClusterClock {
  import opened Common
  import opened LockSm
  import opened LockRuns
  import opened Cluster
  import opened ClusterInv

  /** Stamps lie in the past, and a process counts waiting runs only while it holds file 1. */
  predicate ClockOk(node: Node, now: int) {
    && node.shm.lastRefresh <= now
    && node.proc.newRefresh <= now
    && node.lastEnd <= now
    && node.proc.waitCounter >= 0
    && (!node.proc.locked1 ==> node.proc.waitCounter == 0)
  }

  /** The process is between taking file 1 and locking the group. */
  predicate Waits(pc: Pc, p: Proc) {
    Live(pc) && !Aborting(pc) && !p.isLocked
  }

  /** The process has decided to lock the group and has not set the lock yet. */
  predicate Locking(pc: Pc) {
    pc in {Publishing, Storing(StDoLock)}
  }

  /** How many runs a takeover lets pass before the one that locks. */
  function RunsWaited(cfg: Config): int {
    Max(0, cfg.lockedWait)
  }

  /**
   A waiting owner has counted exactly its runs since it took file 1, at most as many as
   configured, and each began a full interval after the one before it ended.
   */
  predicate WaitOk(cfg: Config, node: Node, now: int, acquired: int) {
    Waits(node.pc, node.proc) ==>
      && node.proc.waitCounter == node.runs <= RunsWaited(cfg)
      && (node.pc == Idle ==> node.lastEnd >= acquired + (node.proc.waitCounter - 1) * cfg.chkInterval)
      && (node.pc != Idle ==> now >= acquired + node.proc.waitCounter * cfg.chkInterval)
  }

  /** A takeover that has decided to lock has waited for exactly the configured number of runs. */
  predicate LockingOk(cfg: Config, node: Node) {
    Locking(node.pc) && !node.proc.firstBoot ==> node.runs == RunsWaited(cfg)
  }

  ghost predicate OthersOlder(w: World, n: nat) {
    forall m | m in w.nodes && m != n && w.nodes[m].shm.isLocked :: w.nodes[m].shm.lastRefresh <= w.acquired
  }

  ghost predicate OwnerClock(cfg: Config, w: World, n: nat)
    requires n in w.nodes
  {
    OthersOlder(w, n) && WaitOk(cfg, w.nodes[n], w.now, w.acquired) && LockingOk(cfg, w.nodes[n])
  }

  ghost predicate ClockInv(cfg: Config, w: World) {
    && w.now >= 0 && w.acquired <= w.now
    && (forall n | n in w.nodes :: ClockOk(w.nodes[n], w.now))
    && (w.holder.Some? && w.holder.value in w.nodes ==> OwnerClock(cfg, w, w.holder.value))
  }

  lemma InitClockInv(cfg: Config, w: World)
    requires Init(cfg, w)
    ensures ClockInv(cfg, w)
  {
  }

  // ---------------------------------------------------------------------------
  // One step of one process
  // ---------------------------------------------------------------------------

  lemma CountTimes(c: int, k: int, l: int)
    requires c > 0 && k >= l
    ensures k * c >= l * c
  {
  }

  /** What a step does to its own process's times and to its own lock. */
  ghost predicate StepTimes(cfg: Config, pc: Pc, v: View, now: int, v': View, pc': Pc) {
    && v'.proc.newRefresh <= now
    && v'.shm.lastRefresh <= now
    && v'.proc.waitCounter >= 0
    && (!v'.proc.locked1 ==> v'.proc.waitCounter == 0)
    && (Waits(pc', v'.proc) && v'.proc.fd ==>
          && v'.proc.waitCounter == v.proc.waitCounter + (if Active(pc') then 0 else 1)
          && (!Active(pc') ==> v'.proc.waitCounter <= cfg.lockedWait))
    && (Locking(pc') && !v'.proc.firstBoot ==>
          && v.proc.fd && !v.proc.firstBoot
          && (Locking(pc) || (Waits(pc, v.proc) && v.proc.waitCounter >= cfg.lockedWait)))
    && (v'.shm.isLocked ==> v'.shm == v.shm || (pc.Storing? && v.proc.fd))
    && (!v.proc.fd && v'.proc.fd ==> v.proc.waitCounter == 0 && Active(pc'))
    && (v.proc.fd && v'.proc.fd && Waits(pc', v'.proc) ==> Waits(pc, v.proc))
  }

  ghost predicate TimesPre(cfg: Config, pc: Pc, v: View, n: nat, now: int) {
    && ProcPre(cfg, pc, v, n)
    && v.proc.newRefresh <= now && v.shm.lastRefresh <= now
    && v.proc.waitCounter >= 0 && (!v.proc.locked1 ==> v.proc.waitCounter == 0)
  }

  lemma FirstStepTimes(cfg: Config, st: State, v: View, n: nat, input: Input)
    requires TimesPre(cfg, At(st), v, n, input.now) && st != StDoLock
    ensures var (v', next) := StepFirst(cfg, st, v, n, input);
            StepTimes(cfg, At(st), v, input.now, v', PcAfter(st, next))
  {
    hide CheckPeers;
  }

  lemma DoLockStepTimes(cfg: Config, v: View, n: nat, input: Input)
    requires TimesPre(cfg, At(StDoLock), v, n, input.now)
    ensures var (v', next) := StepFirst(cfg, StDoLock, v, n, input);
            StepTimes(cfg, At(StDoLock), v, input.now, v', PcAfter(StDoLock, next))
  {
    hide SgMaxSeq;
  }

  lemma SecondStepTimes(cfg: Config, st: State, v: View, n: nat, input: Input)
    requires TimesPre(cfg, Second(st), v, n, input.now)
    ensures var (v', next) := StepSecond(cfg, st, v, n, input);
            StepTimes(cfg, Second(st), v, input.now, v', PcAfter(st, next))
  {
    hide SgMaxSeq;
  }

  lemma StepKeepsTimes(cfg: Config, pc: Pc, v: View, n: nat, input: Input)
    requires Active(pc) && TimesPre(cfg, pc, v, n, input.now)
    ensures var (v', next) := StepAt(cfg, pc, v, n, input);
            StepTimes(cfg, pc, v, input.now, v', PcAfter(StateOf(pc), next))
  {
    hide StepFirst;
    hide StepSecond;
    match pc
    case At(st) =>
      if st == StDoLock {
        DoLockStepTimes(cfg, v, n, input);
      } else {
        FirstStepTimes(cfg, st, v, n, input);
      }
    case Second(st) => SecondStepTimes(cfg, st, v, n, input);
    case Publishing =>
    case Storing(st) =>
  }

  // ---------------------------------------------------------------------------
  // The whole cluster
  // ---------------------------------------------------------------------------

  /** A change to one node. */
  lemma NodeClock(cfg: Config, w: World, w': World, n: nat)
    requires ClockInv(cfg, w) && n in w.nodes && n in w'.nodes && w'.now == w.now
    requires w'.nodes == w.nodes[n := w'.nodes[n]]
    requires w'.acquired <= w'.now && ClockOk(w'.nodes[n], w'.now)
    requires w'.nodes[n].shm.isLocked ==> w'.nodes[n].shm == w.nodes[n].shm || w.holder == Some(n)
    requires w'.holder.Some? && w'.holder != Some(n) ==> w'.holder == w.holder && w'.acquired == w.acquired
    requires w'.holder == Some(n) ==> OwnerClock(cfg, w', n)
    ensures ClockInv(cfg, w')
  {
    hide WaitOk;
    hide ClockOk;
    if w'.holder.Some? && w'.holder.value in w'.nodes && w'.holder != Some(n) {
      assert w'.nodes[w'.holder.value] == w.nodes[w'.holder.value];
    }
  }

  lemma BeginKeepsClock(cfg: Config, w: World, n: nat)
    requires Inv(cfg, w) && ClockInv(cfg, w) && Enabled(cfg, w, Begin(n))
    ensures ClockInv(cfg, Apply(cfg, w, Begin(n)))
  {
    hide Inv;
    hide DiskOk;
    hide OwnerOk;
    hide Stored;
    InvFacts(cfg, w, n);
    var node, c := w.nodes[n], cfg.chkInterval;
    assert ClockOk(node, w.now);
    assert (node.proc.waitCounter - 1) * c + c == node.proc.waitCounter * c;
    NodeClock(cfg, w, Apply(cfg, w, Begin(n)), n);
  }

  /** A process that starts or goes, or a flag taken down, leaves no newer lock behind. */
  lemma PlainKeepsClock(cfg: Config, w: World, a: Action)
    requires Inv(cfg, w) && ClockInv(cfg, w) && Enabled(cfg, w, a)
    requires a.Boot? || a.Crash? || a.TakeDown?
    ensures ClockInv(cfg, Apply(cfg, w, a))
  {
    hide Inv;
    hide DiskOk;
    hide OwnerOk;
    hide Stored;
    InvFacts(cfg, w, a.n);
    assert ClockOk(w.nodes[a.n], w.now);
    NodeClock(cfg, w, Apply(cfg, w, a), a.n);
  }

  lemma ExitKeepsClock(cfg: Config, w: World, n: nat)
    requires Inv(cfg, w) && ClockInv(cfg, w) && Enabled(cfg, w, Exit(n))
    ensures ClockInv(cfg, Apply(cfg, w, Exit(n)))
  {
    hide Inv;
    hide DiskOk;
    hide OwnerOk;
    hide Stored;
    hide OwnerClock;
    InvFacts(cfg, w, n);
    assert ClockOk(w.nodes[n], w.now);
    NodeClock(cfg, w, Apply(cfg, w, Exit(n)), n);
  }

  lemma RebootKeepsClock(cfg: Config, w: World, n: nat)
    requires Inv(cfg, w) && ClockInv(cfg, w) && Enabled(cfg, w, Reboot(n))
    ensures ClockInv(cfg, Apply(cfg, w, Reboot(n)))
  {
    hide Inv;
    hide DiskOk;
    hide OwnerOk;
    hide Stored;
    hide OwnerClock;
    InvFacts(cfg, w, n);
    assert ClockOk(w.nodes[n], w.now);
    NodeClock(cfg, w, Apply(cfg, w, Reboot(n)), n);
  }

  lemma CrashPublishingKeepsClock(cfg: Config, w: World, n: nat, sequenceStored: bool)
    requires Inv(cfg, w) && ClockInv(cfg, w) && Enabled(cfg, w, CrashPublishing(n, sequenceStored))
    ensures ClockInv(cfg, Apply(cfg, w, CrashPublishing(n, sequenceStored)))
  {
    hide Inv;
    hide OwnerOk;
    hide DiskOk;
    hide OwnerClock;
    InvFacts(cfg, w, n);
    assert ClockOk(w.nodes[n], w.now);
    NodeClock(cfg, w, Apply(cfg, w, CrashPublishing(n, sequenceStored)), n);
  }

  lemma CrashWritingKeepsClock(cfg: Config, w: World, n: nat, input: Input)
    requires Inv(cfg, w) && ClockInv(cfg, w) && Enabled(cfg, w, CrashWriting(n, input))
    ensures ClockInv(cfg, Apply(cfg, w, CrashWriting(n, input)))
  {
    hide Inv;
    hide OwnerOk;
    hide DiskOk;
    hide StepFirst;
    hide StepSecond;
    hide OwnerClock;
    InvFacts(cfg, w, n);
    assert ClockOk(w.nodes[n], w.now);
    var pc, v := w.nodes[n].pc, ViewOf(w, n);
    var torn := input.(write1 := FailedTorn, write2 := FailedTorn);
    WritingIsQuiet(cfg, pc, v, n, input);
    StepKeepsTimes(cfg, pc, v, n, torn);
    StepKeepsProc(cfg, pc, v, n, torn);
    NodeClock(cfg, w, Apply(cfg, w, CrashWriting(n, input)), n);
  }

  lemma StepResult(cfg: Config, w: World, n: nat, input: Input)
    requires Inv(cfg, w) && ClockInv(cfg, w) && Enabled(cfg, w, Step(n, input))
    ensures Shape(cfg, w) && n in w.nodes && Active(w.nodes[n].pc) && input.now == w.now
    ensures TimesPre(cfg, w.nodes[n].pc, ViewOf(w, n), n, w.now)
    ensures StepMade(cfg, w, n, input, Apply(cfg, w, Step(n, input)))
    ensures var v := ViewOf(w, n);
            var (v', next) := StepAt(cfg, w.nodes[n].pc, v, n, input);
            var pc' := PcAfter(StateOf(w.nodes[n].pc), next);
            StepTimes(cfg, w.nodes[n].pc, v, w.now, v', pc') && ProcStepOk(w.nodes[n].pc, v, n, v', next)
  {
    hide Inv;
    hide Apply;
    hide StepMade;
    hide StepTimes;
    hide ProcStepOk;
    hide ProcOk;
    InvFacts(cfg, w, n);
    ApplyStep(cfg, w, n, input);
    assert ClockOk(w.nodes[n], w.now);
    StepKeepsTimes(cfg, w.nodes[n].pc, ViewOf(w, n), n, input);
    StepKeepsProc(cfg, w.nodes[n].pc, ViewOf(w, n), n, input);
  }

  lemma StepKeepsClock(cfg: Config, w: World, n: nat, input: Input)
    requires Inv(cfg, w) && ClockInv(cfg, w)
    requires Enabled(cfg, w, Step(n, input))
    ensures ClockInv(cfg, Apply(cfg, w, Step(n, input)))
  {
    hide Inv;
    hide Apply;
    hide Enabled;
    hide ProcOk;
    hide StepAt;
    hide PcAfter;
    StepResult(cfg, w, n, input);
    var w', v := Apply(cfg, w, Step(n, input)), ViewOf(w, n);
    assert ClockOk(w.nodes[n], w.now);
    if w'.holder == Some(n) {
      forall m | m in w'.nodes && m != n && w'.nodes[m].shm.isLocked
        ensures w'.nodes[m].shm.lastRefresh <= w'.acquired
      {
        assert w'.nodes[m] == w.nodes[m] && ClockOk(w.nodes[m], w.now);
      }
      assert WaitOk(cfg, w'.nodes[n], w'.now, w'.acquired);
      assert LockingOk(cfg, w'.nodes[n]);
    }
    NodeClock(cfg, w, w', n);
  }

  lemma ActionKeepsClock(cfg: Config, w: World, a: Action)
    requires Inv(cfg, w) && ClockInv(cfg, w) && Enabled(cfg, w, a)
    ensures ClockInv(cfg, Apply(cfg, w, a))
  {
    hide Inv;
    hide Enabled;
    hide Apply;
    match a
    case Tick => TickKeepsClock(cfg, w);
    case Begin(n) => BeginKeepsClock(cfg, w, n);
    case Step(n, input) => StepKeepsClock(cfg, w, n, input);
    case CrashWriting(n, input) => CrashWritingKeepsClock(cfg, w, n, input);
    case CrashPublishing(n, sequenceStored) => CrashPublishingKeepsClock(cfg, w, n, sequenceStored);
    case Exit(n) => ExitKeepsClock(cfg, w, n);
    case Reboot(n) => RebootKeepsClock(cfg, w, n);
    case _ => PlainKeepsClock(cfg, w, a);
  }

  lemma TickKeepsClock(cfg: Config, w: World)
    requires Inv(cfg, w) && ClockInv(cfg, w) && Enabled(cfg, w, Tick)
    ensures ClockInv(cfg, Apply(cfg, w, Tick))
  {
    hide Inv;
  }

  lemma {:induction false} ReachableClock(cfg: Config, w: World, actions: seq<Action>, w': World)
    requires Inv(cfg, w) && ClockInv(cfg, w) && Reaches(cfg, w, actions, w')
    ensures Inv(cfg, w') && ClockInv(cfg, w')
    decreases |actions|
  {
    hide Inv;
    hide ClockInv;
    hide Enabled;
    hide Apply;
    if actions != [] {
      ActionKeepsInv(cfg, w, actions[0]);
      ActionKeepsClock(cfg, w, actions[0]);
      ReachableClock(cfg, Apply(cfg, w, actions[0]), actions[1..], w');
    }
  }
}
