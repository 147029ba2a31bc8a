/**
 Timed mutual exclusion: with enough waiting runs before a takeover locks the group, the
 previous owner's lock has expired everywhere before the new owner's is set.  A first boot
 does not wait; runs are exclusive exactly if its locks meet no other one.
 */
module ClusterTime {
  import opened Common
  import opened LockSm
  import opened LockRuns
  import opened Cluster
  import opened ClusterInv
  import opened ClusterClock

  /** The runs a takeover waits for, end to end, outlast the life of a lock. */
  predicate WaitOutlastsLock(cfg: Config) {
    && cfg.sgRefresh >= 0
    && cfg.chkInterval > 0
    && cfg.lockedWait * cfg.chkInterval > cfg.sgRefresh
  }

  /** No two nodes have an unexpired lock in their shared memory. */
  ghost predicate Exclusive(cfg: Config, w: World) {
    forall m, n | m in w.nodes && n in w.nodes && m != n ::
      !(LockedAt(cfg, w.nodes[m].shm, w.now) && LockedAt(cfg, w.nodes[n].shm, w.now))
  }

  ghost predicate NoOtherLock(cfg: Config, w: World, n: nat) {
    forall m | m in w.nodes && m != n :: !LockedAt(cfg, w.nodes[m].shm, w.now)
  }

  /** The action is a first boot setting its lock, with a stamp that has not expired. */
  predicate BootLocks(cfg: Config, w: World, a: Action) {
    && a.Step? && a.n in w.nodes
    && w.nodes[a.n].pc == Storing(StDoLock) && w.nodes[a.n].proc.firstBoot
    && Abs(w.now - w.nodes[a.n].proc.newRefresh) <= cfg.sgRefresh
  }

  /** If the action is a first boot setting its lock, no other node's lock is alive. */
  ghost predicate SafeBoot(cfg: Config, w: World, a: Action) {
    BootLocks(cfg, w, a) ==> NoOtherLock(cfg, w, a.n)
  }

  /** A run in which every first boot's lock meets no other one. */
  ghost predicate ReachesSafely(cfg: Config, w: World, actions: seq<Action>, w': World)
    decreases |actions|
  {
    if actions == [] then w' == w
    else
      && Shape(cfg, w) && Enabled(cfg, w, actions[0]) && SafeBoot(cfg, w, actions[0])
      && ReachesSafely(cfg, Apply(cfg, w, actions[0]), actions[1..], w')
  }

  // ---------------------------------------------------------------------------
  // The invariant
  // ---------------------------------------------------------------------------

  predicate ExpiredOrUnlocked(cfg: Config, shm: Shm, now: int) {
    shm.isLocked ==> now - shm.lastRefresh > cfg.sgRefresh
  }

  ghost predicate OthersExpired(cfg: Config, w: World, n: nat) {
    forall m | m in w.nodes && m != n :: ExpiredOrUnlocked(cfg, w.nodes[m].shm, w.now)
  }

  /** A first boot that has decided to lock and has not set its lock yet. */
  predicate Boots(pc: Pc, p: Proc) {
    p.firstBoot && pc in {Publishing, Storing(StDoLock)}
  }

  /** A process whose lock does not count and that is on its way out. */
  predicate Doomed(cfg: Config, pc: Pc, shm: Shm, now: int) {
    ExpiredOrUnlocked(cfg, shm, now) && (pc in {Idle, At(StGetSinglegrp), At(StChkLUnlock)} || Aborting(pc))
  }

  predicate Excused(cfg: Config, pc: Pc, p: Proc, shm: Shm, now: int) {
    Boots(pc, p) || Doomed(cfg, pc, shm, now)
  }

  /** Once an owner has decided to lock, all other locks have expired, unless its own does not count yet or any more. */
  ghost predicate OwnerLock(cfg: Config, w: World, n: nat)
    requires n in w.nodes
  {
    var node := w.nodes[n];
    Live(node.pc) && node.proc.isLocked ==>
      OthersExpired(cfg, w, n) || Excused(cfg, node.pc, node.proc, node.shm, w.now)
  }

  ghost predicate LockInv(cfg: Config, w: World) {
    && (w.holder.Some? && w.holder.value in w.nodes ==> OwnerLock(cfg, w, w.holder.value))
    && Exclusive(cfg, w)
  }

  /** The invariants of all reachable states, and that of exclusive ones. */
  ghost predicate TimeInv(cfg: Config, w: World) {
    Inv(cfg, w) && ClockInv(cfg, w) && LockInv(cfg, w)
  }

  lemma InitTimeInv(cfg: Config, w: World)
    requires Init(cfg, w) && cfg.lockInc >= 1
    ensures TimeInv(cfg, w)
  {
    InitInv(cfg, w);
    InitClockInv(cfg, w);
  }

  // ---------------------------------------------------------------------------
  // One step of one process
  // ---------------------------------------------------------------------------

  /** What a step does to its own process's lock. */
  ghost predicate StepLock(cfg: Config, pc: Pc, v: View, now: int, v': View, pc': Pc) {
    && (v.proc.isLocked ==> v.proc.fd)
    && (v'.proc.isLocked && !v.proc.isLocked ==>
          Waits(pc, v.proc) && v.proc.fd && (Boots(pc', v'.proc) || v.proc.waitCounter >= cfg.lockedWait))
    && (v.proc.isLocked && v'.proc.isLocked && Excused(cfg, pc, v.proc, v.shm, now) ==>
          Excused(cfg, pc', v'.proc, v'.shm, now) ||
          (pc == Storing(StDoLock) && v.proc.firstBoot && now - v.proc.newRefresh <= cfg.sgRefresh))
    && (pc == Storing(StDoLock) && v.proc.firstBoot ==> v'.shm.lastRefresh == v.proc.newRefresh)
  }

  lemma FirstStepLock(cfg: Config, st: State, v: View, n: nat, input: Input)
    requires TimesPre(cfg, At(st), v, n, input.now) && st != StDoLock
    ensures var (v', next) := StepFirst(cfg, st, v, n, input);
            StepLock(cfg, At(st), v, input.now, v', PcAfter(st, next))
  {
    hide CheckPeers;
  }

  lemma OtherStepLock(cfg: Config, pc: Pc, v: View, n: nat, input: Input)
    requires Active(pc) && TimesPre(cfg, pc, v, n, input.now) && (pc.At? ==> pc.st == StDoLock)
    ensures var (v', next) := StepAt(cfg, pc, v, n, input);
            StepLock(cfg, pc, v, input.now, v', PcAfter(StateOf(pc), next))
  {
    hide SgMaxSeq;
    hide CheckPeers;
  }

  lemma StepKeepsLock(cfg: Config, pc: Pc, v: View, n: nat, input: Input)
    requires Active(pc) && TimesPre(cfg, pc, v, n, input.now)
    ensures var (v', next) := StepAt(cfg, pc, v, n, input);
            StepLock(cfg, pc, v, input.now, v', PcAfter(StateOf(pc), next))
  {
    hide StepLock;
    hide StepFirst;
    hide TimesPre;
    if pc.At? && pc.st != StDoLock {
      FirstStepLock(cfg, pc.st, v, n, input);
    } else {
      OtherStepLock(cfg, pc, v, n, input);
    }
  }

  // ---------------------------------------------------------------------------
  // The whole cluster
  // ---------------------------------------------------------------------------

  /** Without stamps in the future, a lock that does not count has expired. */
  lemma NotLockedIsExpired(cfg: Config, w: World, n: nat)
    requires ClockInv(cfg, w) && NoOtherLock(cfg, w, n)
    ensures OthersExpired(cfg, w, n)
  {
    forall m | m in w.nodes && m != n
      ensures ExpiredOrUnlocked(cfg, w.nodes[m].shm, w.now)
    {
      assert ClockOk(w.nodes[m], w.now);
    }
  }

  /** A change to one node: it may get a lock that counts only as owner, and while all others have expired. */
  lemma NodeLock(cfg: Config, w: World, w': World, n: nat)
    requires LockInv(cfg, w) && n in w.nodes && n in w'.nodes && w'.now == w.now && cfg.sgRefresh >= 0
    requires w'.nodes == w.nodes[n := w'.nodes[n]]
    requires w'.nodes[n].shm.isLocked ==> w'.nodes[n].shm == w.nodes[n].shm || w.holder == Some(n)
    requires LockedAt(cfg, w'.nodes[n].shm, w'.now) ==> w'.nodes[n].shm == w.nodes[n].shm || OthersExpired(cfg, w, n)
    requires w'.holder.Some? && w'.holder != Some(n) ==> w'.holder == w.holder
    requires w'.holder == Some(n) ==> OwnerLock(cfg, w', n)
    ensures LockInv(cfg, w')
  {
    if w'.holder.Some? && w'.holder.value in w'.nodes && w'.holder != Some(n) {
      assert w'.nodes[w'.holder.value] == w.nodes[w'.holder.value];
    }
    forall m, k | m in w'.nodes && k in w'.nodes && m != k
      ensures !(LockedAt(cfg, w'.nodes[m].shm, w'.now) && LockedAt(cfg, w'.nodes[k].shm, w'.now))
    {
      assert m != n ==> w'.nodes[m] == w.nodes[m];
      assert k != n ==> w'.nodes[k] == w.nodes[k];
    }
  }

  lemma TickKeepsLock(cfg: Config, w: World)
    requires TimeInv(cfg, w)
    ensures LockInv(cfg, Apply(cfg, w, Tick))
  {
    hide Inv;
    InvShape(cfg, w);
    forall m | m in w.nodes
      ensures LockedAt(cfg, w.nodes[m].shm, w.now + 1) ==> LockedAt(cfg, w.nodes[m].shm, w.now)
    {
      assert ClockOk(w.nodes[m], w.now);
    }
  }

  lemma PlainKeepsLock(cfg: Config, w: World, a: Action)
    requires TimeInv(cfg, w) && cfg.sgRefresh >= 0 && Enabled(cfg, w, a)
    requires a.Begin? || a.Boot? || a.Crash? || a.TakeDown?
    ensures LockInv(cfg, Apply(cfg, w, a))
  {
    hide Inv;
    hide DiskOk;
    hide OwnerOk;
    hide Stored;
    hide ClockInv;
    hide Exclusive;
    InvFacts(cfg, w, a.n);
    NodeLock(cfg, w, Apply(cfg, w, a), a.n);
  }

  lemma LeavingKeepsLock(cfg: Config, w: World, a: Action)
    requires TimeInv(cfg, w) && cfg.sgRefresh >= 0 && Enabled(cfg, w, a)
    requires a.Exit? || a.Reboot?
    ensures LockInv(cfg, Apply(cfg, w, a))
  {
    hide Inv;
    hide DiskOk;
    hide OwnerOk;
    hide Stored;
    hide ClockInv;
    hide Exclusive;
    hide OwnerLock;
    InvFacts(cfg, w, a.n);
    NodeLock(cfg, w, Apply(cfg, w, a), a.n);
  }

  lemma CrashPublishingKeepsLock(cfg: Config, w: World, n: nat, sequenceStored: bool)
    requires TimeInv(cfg, w) && cfg.sgRefresh >= 0 && Enabled(cfg, w, CrashPublishing(n, sequenceStored))
    ensures LockInv(cfg, Apply(cfg, w, CrashPublishing(n, sequenceStored)))
  {
    hide Inv;
    hide OwnerOk;
    hide DiskOk;
    hide ClockInv;
    hide Exclusive;
    InvFacts(cfg, w, n);
    NodeLock(cfg, w, Apply(cfg, w, CrashPublishing(n, sequenceStored)), n);
  }

  lemma CrashWritingKeepsLock(cfg: Config, w: World, n: nat, input: Input)
    requires TimeInv(cfg, w) && cfg.sgRefresh >= 0 && Enabled(cfg, w, CrashWriting(n, input))
    ensures LockInv(cfg, Apply(cfg, w, CrashWriting(n, input)))
  {
    hide Inv;
    hide OwnerOk;
    hide DiskOk;
    hide StepFirst;
    hide StepSecond;
    hide ClockInv;
    hide Exclusive;
    hide OwnerLock;
    InvFacts(cfg, w, n);
    var torn := input.(write1 := FailedTorn, write2 := FailedTorn);
    WritingIsQuiet(cfg, w.nodes[n].pc, ViewOf(w, n), n, input);
    StepKeepsProc(cfg, w.nodes[n].pc, ViewOf(w, n), n, torn);
    NodeLock(cfg, w, Apply(cfg, w, CrashWriting(n, input)), n);
  }

  /** When an owner that is not on its first boot decides to lock, all other locks have expired. */
  lemma WaitedEnough(cfg: Config, w: World, n: nat)
    requires ClockInv(cfg, w) && WaitOutlastsLock(cfg) && w.holder == Some(n) && n in w.nodes
    requires Waits(w.nodes[n].pc, w.nodes[n].proc) && w.nodes[n].pc != Idle
    requires w.nodes[n].proc.waitCounter >= cfg.lockedWait
    ensures OthersExpired(cfg, w, n)
  {
    CountTimes(cfg.chkInterval, w.nodes[n].proc.waitCounter, cfg.lockedWait);
  }

  /** After an owner's step, all other locks have expired, or its own does not count. */
  lemma OwnerStepLock(cfg: Config, w: World, n: nat, input: Input)
    requires TimeInv(cfg, w) && WaitOutlastsLock(cfg)
    requires Enabled(cfg, w, Step(n, input)) && SafeBoot(cfg, w, Step(n, input))
    ensures var w' := Apply(cfg, w, Step(n, input));
            && n in w'.nodes
            && (w'.holder == Some(n) ==> OwnerLock(cfg, w', n))
            && (w.nodes[n].pc.Storing? && LockedAt(cfg, w'.nodes[n].shm, w.now) ==> OthersExpired(cfg, w, n))
  {
    hide Inv;
    hide Apply;
    hide Enabled;
    hide ProcOk;
    hide StepAt;
    hide PcAfter;
    hide Exclusive;
    hide ClockInv;
    StepResult(cfg, w, n, input);
    var pc, v, w' := w.nodes[n].pc, ViewOf(w, n), Apply(cfg, w, Step(n, input));
    var (v', next) := StepAt(cfg, pc, v, n, input);
    StepKeepsLock(cfg, pc, v, n, input);
    StoringOwns(pc, v, n);
    if BootLocks(cfg, w, Step(n, input)) {
      NotLockedIsExpired(cfg, w, n);
    }
    if v'.proc.isLocked && !v.proc.isLocked && !Boots(PcAfter(StateOf(pc), next), v'.proc) {
      WaitedEnough(cfg, w, n);
    }
    assert OthersExpired(cfg, w, n) ==> OthersExpired(cfg, w', n);
  }

  lemma StoringOwns(pc: Pc, v: View, n: nat)
    requires ProcOk(pc, v.proc, v.shm) && (v.proc.fd <==> v.holder == Some(n))
    ensures pc.Storing? ==> v.proc.isLocked && v.holder == Some(n) && (pc == Storing(StShmRefresh) || pc == Storing(StDoLock))
  {
  }

  lemma StepKeepsLockInv(cfg: Config, w: World, n: nat, input: Input)
    requires TimeInv(cfg, w) && WaitOutlastsLock(cfg)
    requires Enabled(cfg, w, Step(n, input)) && SafeBoot(cfg, w, Step(n, input))
    ensures LockInv(cfg, Apply(cfg, w, Step(n, input)))
  {
    hide Inv;
    hide Apply;
    hide Enabled;
    hide SafeBoot;
    hide ProcOk;
    hide StepAt;
    hide PcAfter;
    hide Exclusive;
    hide OwnerLock;
    hide ClockInv;
    StepResult(cfg, w, n, input);
    OwnerStepLock(cfg, w, n, input);
    NodeLock(cfg, w, Apply(cfg, w, Step(n, input)), n);
  }

  lemma ActionKeepsTime(cfg: Config, w: World, a: Action)
    requires TimeInv(cfg, w) && WaitOutlastsLock(cfg)
    requires Enabled(cfg, w, a) && SafeBoot(cfg, w, a)
    ensures TimeInv(cfg, Apply(cfg, w, a))
  {
    hide Inv;
    hide ClockInv;
    hide LockInv;
    hide SafeBoot;
    hide Apply;
    hide Enabled;
    ActionKeepsInv(cfg, w, a);
    ActionKeepsClock(cfg, w, a);
    match a
    case Tick => TickKeepsLock(cfg, w);
    case Step(n, input) => StepKeepsLockInv(cfg, w, n, input);
    case CrashWriting(n, input) => CrashWritingKeepsLock(cfg, w, n, input);
    case CrashPublishing(n, sequenceStored) => CrashPublishingKeepsLock(cfg, w, n, sequenceStored);
    case Exit(n) => LeavingKeepsLock(cfg, w, a);
    case Reboot(n) => LeavingKeepsLock(cfg, w, a);
    case _ => PlainKeepsLock(cfg, w, a);
  }

  lemma {:induction false} ReachableTimes(cfg: Config, w: World, actions: seq<Action>, w': World)
    requires TimeInv(cfg, w) && WaitOutlastsLock(cfg)
    requires ReachesSafely(cfg, w, actions, w')
    ensures TimeInv(cfg, w')
    decreases |actions|
  {
    hide TimeInv;
    hide Enabled;
    hide Apply;
    hide SafeBoot;
    if actions != [] {
      ActionKeepsTime(cfg, w, actions[0]);
      ReachableTimes(cfg, Apply(cfg, w, actions[0]), actions[1..], w');
    }
  }

  /**
   Timed mutual exclusion.  If the waiting runs of a takeover outlast the life of a lock,
   and every first boot's lock meets no other one, then in every reachable state at most one
   node has an unexpired lock in its shared memory.
   */
  lemma MutualExclusion(cfg: Config, w: World, actions: seq<Action>, w': World)
    requires cfg.lockInc >= 1 && WaitOutlastsLock(cfg)
    requires Init(cfg, w) && ReachesSafely(cfg, w, actions, w')
    ensures forall m, n | m in w'.nodes && n in w'.nodes && m != n ::
              !(LockedAt(cfg, w'.nodes[m].shm, w'.now) && LockedAt(cfg, w'.nodes[n].shm, w'.now))
  {
    hide Inv;
    hide ReachesSafely;
    InitTimeInv(cfg, w);
    ReachableTimes(cfg, w, actions, w');
  }

  // ---------------------------------------------------------------------------
  // First boots
  // ---------------------------------------------------------------------------

  /** Every state of the run is exclusive. */
  ghost predicate ExclusiveRun(cfg: Config, w: World, actions: seq<Action>, w': World)
    decreases |actions|
  {
    && Exclusive(cfg, w)
    && (actions != [] ==>
          Shape(cfg, w) && Enabled(cfg, w, actions[0]) && ExclusiveRun(cfg, Apply(cfg, w, actions[0]), actions[1..], w'))
    && (actions == [] ==> w' == w)
  }

  /** A first boot that sets its lock while another one is alive makes the state not exclusive. */
  lemma UnsafeBootOverlaps(cfg: Config, w: World, a: Action)
    requires Inv(cfg, w) && Enabled(cfg, w, a) && !SafeBoot(cfg, w, a)
    ensures !Exclusive(cfg, Apply(cfg, w, a))
  {
    hide Inv;
    hide Apply;
    hide Enabled;
    InvFacts(cfg, w, a.n);
    ApplyStep(cfg, w, a.n, a.input);
    var w', n := Apply(cfg, w, a), a.n;
    var m :| m in w.nodes && m != n && LockedAt(cfg, w.nodes[m].shm, w.now);
    assert w'.nodes[m] == w.nodes[m] && LockedAt(cfg, w'.nodes[n].shm, w'.now);
  }

  lemma {:induction false} ExclusiveFrom(cfg: Config, w: World, actions: seq<Action>, w': World)
    requires TimeInv(cfg, w) && WaitOutlastsLock(cfg)
    ensures ExclusiveRun(cfg, w, actions, w') <==> ReachesSafely(cfg, w, actions, w')
    decreases |actions|
  {
    hide Inv;
    hide ClockInv;
    hide Apply;
    hide Enabled;
    hide SafeBoot;
    hide Exclusive;
    if actions != [] && Shape(cfg, w) && Enabled(cfg, w, actions[0]) {
      if SafeBoot(cfg, w, actions[0]) {
        ActionKeepsTime(cfg, w, actions[0]);
        ExclusiveFrom(cfg, Apply(cfg, w, actions[0]), actions[1..], w');
      } else {
        UnsafeBootOverlaps(cfg, w, actions[0]);
      }
    }
  }

  /**
   If the waiting runs outlast the life of a lock, a run is exclusive in every state if and
   only if no first boot in it sets a lock, with a stamp that still counts, while another
   node's lock is alive.
   */
  lemma ExclusiveIffBootsSafe(cfg: Config, w: World, actions: seq<Action>, w': World)
    requires cfg.lockInc >= 1 && WaitOutlastsLock(cfg)
    requires Init(cfg, w)
    ensures ExclusiveRun(cfg, w, actions, w') <==> ReachesSafely(cfg, w, actions, w')
  {
    hide TimeInv;
    InitTimeInv(cfg, w);
    ExclusiveFrom(cfg, w, actions, w');
  }
}
