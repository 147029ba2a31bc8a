/**
 What follows from the cluster's invariants for every reachable state: the owner stays
 above all other nodes and never fences itself, the state machine never lacks a row, and
 the one situation that does break mutual exclusion.
 */
module ClusterSafety {
  import opened Common
  import opened LockSm
  import opened LockRuns
  import opened Cluster
  import opened ClusterInv
  import opened ClusterClock
  import opened ClusterTime

  ghost predicate Reachable(cfg: Config, w: World) {
    exists start: World, actions: seq<Action> :: Init(cfg, start) && Reaches(cfg, start, actions, w)
  }

  lemma ReachableHasInv(cfg: Config, w: World)
    requires cfg.lockInc >= 1 && Reachable(cfg, w)
    ensures Inv(cfg, w)
  {
    hide Inv;
    hide Init;
    var start: World, actions: seq<Action> :| Init(cfg, start) && Reaches(cfg, start, actions, w);
    InitInv(cfg, start);
    ReachableInv(cfg, start, actions, w);
  }

  /** In every reachable state, whatever an action returns has a row in the table. */
  lemma NoReachableRunIsStuck(cfg: Config, w: World, n: nat, input: Input)
    requires cfg.lockInc >= 1 && Reachable(cfg, w)
    requires n in w.nodes && Active(w.nodes[n].pc) && ValidView(cfg, ViewOf(w, n), n)
    ensures var (_, next) := StepAt(cfg, w.nodes[n].pc, ViewOf(w, n), n, input);
            next.Done? ==> Row(StateOf(w.nodes[n].pc), next.ev) != NoRow
  {
    hide Inv;
    hide Reachable;
    hide StepFirst;
    hide StepSecond;
    hide DoPublish;
    ReachableHasInv(cfg, w);
    InvFacts(cfg, w, n);
    StepKeepsProc(cfg, w.nodes[n].pc, ViewOf(w, n), n, input);
  }

  /** A reachable process that does not own file 1 writes no heartbeat and sets or refreshes no lock. */
  lemma NonOwnerIsHarmless(cfg: Config, w: World, n: nat, input: Input)
    requires cfg.lockInc >= 1 && Reachable(cfg, w)
    requires n in w.nodes && Active(w.nodes[n].pc) && ValidView(cfg, ViewOf(w, n), n)
    requires w.holder != None && w.holder != Some(n)
    ensures var (v', _) := StepAt(cfg, w.nodes[n].pc, ViewOf(w, n), n, input);
            && v'.disk == w.disk
            && (v'.shm == w.nodes[n].shm || v'.shm == Unlocked(w.nodes[n].shm))
  {
    hide Inv;
    hide Reachable;
    hide CheckPeers;
    ReachableHasInv(cfg, w);
    InvFacts(cfg, w, n);
    StepOfNonOwner(cfg, w.nodes[n].pc, ViewOf(w, n), n, input);
  }

  /** From the end of its first ping on, the owner's readable sequence is above every other node's. */
  lemma OwnerDominates(cfg: Config, w: World, n: nat, m: nat)
    requires cfg.lockInc >= 1 && Reachable(cfg, w)
    requires w.holder == Some(n) && n in w.nodes && Live(w.nodes[n].pc) && !Aborting(w.nodes[n].pc)
    requires m in w.nodes && m != n && m in w.disk.cells && n in w.disk.cells
    ensures Readable(w.disk.cells[n]).Some? && Readable(w.disk.cells[m]).Some?
    ensures Readable(w.disk.cells[m]).value < Readable(w.disk.cells[n]).value
  {
    hide Inv;
    hide Reachable;
    ReachableHasInv(cfg, w);
    InvFacts(cfg, w, n);
  }

  /** Checking against the heartbeat file alone, an owner whose lock has not expired always finds it intact. */
  lemma OwnerNeverFencesItself(cfg: Config, w: World, n: nat, input: Input)
    requires cfg.lockInc >= 1 && cfg.noRemote && Reachable(cfg, w)
    requires n in w.nodes && w.nodes[n].pc == At(StGetSinglegrp) && w.nodes[n].proc.isLocked
    requires input.groupFound && LockedAt(cfg, w.nodes[n].shm, input.now)
    requires ValidView(cfg, ViewOf(w, n), n)
    ensures SgIsLocked(cfg, ViewOf(w, n), n, input) == (StatusTrue, w.nodes[n].shm)
  {
    hide Inv;
    hide Reachable;
    hide SgIsLocked;
    ReachableHasInv(cfg, w);
    InvFacts(cfg, w, n);
    LockedIff(cfg, ViewOf(w, n), n, input);
  }

  /** While waiting to take over, the owner always finds its own sequence to be the group's highest. */
  lemma WaitingOwnerIsUncontested(cfg: Config, w: World, n: nat)
    requires cfg.lockInc >= 1 && Reachable(cfg, w)
    requires n in w.nodes && w.nodes[n].pc == At(StDoLock) && w.nodes[n].proc.locked1
    requires forall m | m in cfg.nodes :: m in w.disk.cells
    ensures SgMaxSeq(cfg, w.disk) == Some(w.nodes[n].proc.newSequence)
    ensures Decide(cfg, ViewOf(w, n)).1 in {Publish, Done(EvWait)}
  {
    hide Inv;
    hide Reachable;
    ReachableHasInv(cfg, w);
    InvFacts(cfg, w, n);
    OwnSequenceIsMax(w.disk.cells, cfg.nodes, n, w.nodes[n].proc.newSequence);
  }

  // ---------------------------------------------------------------------------
  // Locking at once on first boot
  // ---------------------------------------------------------------------------

  /** An input with which nothing fails. */
  function Fine(now: int): Input {
    Input(now, true, map[], false, Written, Written, false, true)
  }

  /** A cluster in which node `n` is down and could take file 1. */
  ghost predicate Bootable(cfg: Config, w: World, n: nat) {
    && Inv(cfg, w)
    && n in w.nodes && w.nodes[n].pc == Dead && !w.nodes[n].shm.isLocked
    && w.holder == None
    && SgMaxSeq(cfg, w.disk).Some?
  }

  function BootRun(n: nat, now: int): seq<Action> {
    var step := Step(n, Fine(now));
    [Boot(n, false), step, step, step, step, step, step, step]
  }

  /** One step of a node in which nothing fails. */
  lemma SmoothStep(cfg: Config, w: World, n: nat)
    requires Inv(cfg, w) && n in w.nodes && Active(w.nodes[n].pc)
    ensures var a := Step(n, Fine(w.now));
            && Shape(cfg, w) && Enabled(cfg, w, a)
            && Inv(cfg, Apply(cfg, w, a))
            && ValidView(cfg, ViewOf(w, n), n)
            && StepMade(cfg, w, n, Fine(w.now), Apply(cfg, w, a))
  {
    hide Inv;
    hide StepMade;
    InvFacts(cfg, w, n);
    ApplyStep(cfg, w, n, Fine(w.now));
    ActionKeepsInv(cfg, w, Step(n, Fine(w.now)));
  }

  lemma {:induction false} ReachesJoin(cfg: Config, w: World, a: seq<Action>, w1: World, b: seq<Action>, w2: World)
    requires Reaches(cfg, w, a, w1) && Reaches(cfg, w1, b, w2)
    ensures Reaches(cfg, w, a + b, w2)
    decreases |a|
  {
    hide Apply;
    hide Enabled;
    if a == [] {
      assert a + b == b;
    } else {
      ReachesJoin(cfg, Apply(cfg, w, a[0]), a[1..], w1, b, w2);
      assert (a + b)[0] == a[0] && (a + b)[1..] == a[1..] + b;
    }
  }

  lemma ReachesOne(cfg: Config, w: World, a: Action)
    requires Shape(cfg, w) && Enabled(cfg, w, a)
    ensures Reaches(cfg, w, [a], Apply(cfg, w, a))
  {
  }

  /** Where a first boot stands, seen from its own node; everything else is as in `w`. */
  ghost predicate Booting(cfg: Config, w: World, n: nat, w': World, pc: Pc, p: Proc, shm: Shm) {
    && Inv(cfg, w') && w'.now == w.now && n in w.nodes && n in w'.nodes
    && w'.nodes == w.nodes[n := w'.nodes[n]]
    && w'.nodes[n].pc == pc && w'.nodes[n].proc == p && w'.nodes[n].shm == shm
  }

  lemma BootStep(cfg: Config, w: World, n: nat) returns (w': World)
    requires Bootable(cfg, w, n)
    ensures Reaches(cfg, w, [Boot(n, false)], w')
    ensures Booting(cfg, w, n, w', At(StGetSinglegrp), NewProc(w.pids, false), w.nodes[n].shm)
    ensures w'.holder == w.holder && w'.disk == w.disk
  {
    hide Inv;
    hide SgMaxSeq;
    hide Reaches;
    InvFacts(cfg, w, n);
    ActionKeepsInv(cfg, w, Boot(n, false));
    ReachesOne(cfg, w, Boot(n, false));
    w' := Apply(cfg, w, Boot(n, false));
  }

  lemma ChecksPass(cfg: Config, v: View, n: nat, now: int)
    requires ValidView(cfg, v, n) && !v.proc.locked1 && !v.proc.isLocked && !v.shm.isLocked
    ensures StepFirst(cfg, StGetSinglegrp, v, n, Fine(now)) == (v.(proc := v.proc.(newRefresh := now)), Done(EvUnlocked))
    ensures StepFirst(cfg, StChkLUnlock, v, n, Fine(now)) == (v, Done(EvUnlocked))
    ensures StepFirst(cfg, StChkMmon, v, n, Fine(now)) == (v, Done(EvOk))
  {
  }

  /** Where an unlocked process without file 1 goes from the states before `StDoLock`. */
  function AfterCheck(st: State): State {
    match st
    case StGetSinglegrp => StChkLUnlock
    case StChkLUnlock => StChkMmon
    case _ => StDoLock
  }

  /** The actions before `StDoLock` change nothing but the stamp. */
  lemma CheckStep(cfg: Config, start: World, n: nat, w: World, st: State, p: Proc) returns (w': World)
    requires n in start.nodes && !start.nodes[n].shm.isLocked
    requires Booting(cfg, start, n, w, At(st), p, start.nodes[n].shm)
    requires st in {StGetSinglegrp, StChkLUnlock, StChkMmon} && !p.locked1 && !p.isLocked
    ensures Reaches(cfg, w, [Step(n, Fine(start.now))], w')
    ensures Booting(cfg, start, n, w', At(AfterCheck(st)), if st == StGetSinglegrp then p.(newRefresh := start.now) else p,
                    start.nodes[n].shm)
    ensures w'.holder == w.holder && w'.disk == w.disk
  {
    hide Inv;
    hide Enabled;
    hide Apply;
    hide Reaches;
    hide StepFirst;
    hide NodeOk;
    hide OwnerOk;
    hide DiskOk;
    SmoothStep(cfg, w, n);
    InvFacts(cfg, w, n);
    ChecksPass(cfg, ViewOf(w, n), n, w.now);
    ReachesOne(cfg, w, Step(n, Fine(w.now)));
    w' := Apply(cfg, w, Step(n, Fine(w.now)));
  }

  lemma FirstBootChecks(cfg: Config, w: World, n: nat) returns (w': World)
    requires Bootable(cfg, w, n)
    ensures Reaches(cfg, w, [Boot(n, false)] + [Step(n, Fine(w.now))] + [Step(n, Fine(w.now))] + [Step(n, Fine(w.now))], w')
    ensures Booting(cfg, w, n, w', At(StDoLock), NewProc(w.pids, false).(newRefresh := w.now), w.nodes[n].shm)
    ensures w'.holder == w.holder && w'.disk == w.disk
  {
    hide Inv;
    hide Booting;
    hide SgMaxSeq;
    hide Reaches;
    var step, p := Step(n, Fine(w.now)), NewProc(w.pids, false);
    var w1 := BootStep(cfg, w, n);
    var w2 := CheckStep(cfg, w, n, w1, StGetSinglegrp, p);
    var w3 := CheckStep(cfg, w, n, w2, StChkLUnlock, p.(newRefresh := w.now));
    w' := CheckStep(cfg, w, n, w3, StChkMmon, p.(newRefresh := w.now));
    ReachesJoin(cfg, w, [Boot(n, false)], w1, [step], w2);
    ReachesJoin(cfg, w, [Boot(n, false)] + [step], w2, [step], w3);
    ReachesJoin(cfg, w, [Boot(n, false)] + [step] + [step], w3, [step], w');
  }

  /** Taking file 1 and pinging both copies brings a first boot to the point of setting the lock. */
  lemma FirstBootTakes(cfg: Config, w: World, n: nat) returns (w': World)
    requires Inv(cfg, w) && n in w.nodes && w.nodes[n].pc == At(StDoLock)
    requires w.nodes[n].proc.firstBoot && !w.nodes[n].proc.locked1 && w.nodes[n].proc.newRefresh == w.now
    requires !w.nodes[n].shm.isLocked && w.holder == None && SgMaxSeq(cfg, w.disk).Some?
    ensures Reaches(cfg, w, [Step(n, Fine(w.now))] + [Step(n, Fine(w.now))], w')
    ensures Inv(cfg, w') && w'.now == w.now && n in w'.nodes && w'.nodes == w.nodes[n := w'.nodes[n]]
    ensures w'.nodes[n].pc == Publishing && !w'.nodes[n].shm.isLocked && w'.nodes[n].proc.newRefresh == w.now
    ensures w'.holder == Some(n)
  {
    hide Inv;
    hide Enabled;
    hide Apply;
    hide SgMaxSeq;
    hide Reaches;
    var step := Step(n, Fine(w.now));
    SmoothStep(cfg, w, n);
    var w1 := Apply(cfg, w, step);
    ReachesOne(cfg, w, step);
    SmoothStep(cfg, w1, n);
    w' := Apply(cfg, w1, step);
    ReachesOne(cfg, w1, step);
    ReachesJoin(cfg, w, [step], w1, [step], w');
  }

  /** The boot script and the check have passed; the stores set the lock. */
  lemma FirstBootStores(cfg: Config, w: World, n: nat) returns (w': World)
    requires Inv(cfg, w) && n in w.nodes && w.nodes[n].pc == Publishing && w.holder == Some(n)
    requires !w.nodes[n].shm.isLocked && w.nodes[n].proc.newRefresh == w.now
    ensures Reaches(cfg, w, [Step(n, Fine(w.now))] + [Step(n, Fine(w.now))], w')
    ensures Inv(cfg, w') && w'.now == w.now && n in w'.nodes && w'.nodes == w.nodes[n := w'.nodes[n]]
    ensures HoldsLock(w', n, w.now) && w'.disk == w.disk
  {
    hide Inv;
    hide Enabled;
    hide Apply;
    hide Reaches;
    hide OwnerOk;
    hide DiskOk;
    hide Stored;
    InvFacts(cfg, w, n);
    var step := Step(n, Fine(w.now));
    SmoothStep(cfg, w, n);
    var w1 := Apply(cfg, w, step);
    ReachesOne(cfg, w, step);
    SmoothStep(cfg, w1, n);
    w' := Apply(cfg, w1, step);
    ReachesOne(cfg, w1, step);
    ReachesJoin(cfg, w, [step], w1, [step], w');
  }

  /** Node `n` owns file 1, its last run has just ended, and its lock is stamped `at`. */
  predicate HoldsLock(w: World, n: nat, at: int) {
    && n in w.nodes && w.holder == Some(n) && w.nodes[n].pc == Idle && w.nodes[n].lastEnd == w.now
    && w.nodes[n].proc.isLocked && w.nodes[n].proc.fd
    && w.nodes[n].shm == Shm(true, at, w.nodes[n].proc.newSequence, w.nodes[n].proc.pid)
  }

  /** A first boot that meets a free file 1 locks the group within the same second. */
  lemma FirstBootLocks(cfg: Config, w: World, n: nat) returns (w': World)
    requires Bootable(cfg, w, n) && cfg.sgRefresh >= 0
    ensures Reaches(cfg, w, BootRun(n, w.now), w')
    ensures Inv(cfg, w') && w'.now == w.now && n in w'.nodes && w'.nodes == w.nodes[n := w'.nodes[n]]
    ensures HoldsLock(w', n, w'.now) && LockedAt(cfg, w'.nodes[n].shm, w'.now)
    ensures (forall m | m in cfg.nodes :: m in w'.disk.cells) && SgMaxSeq(cfg, w'.disk).Some?
  {
    hide Inv;
    hide SgMaxSeq;
    hide Reaches;
    var step := Step(n, Fine(w.now));
    var w1 := FirstBootChecks(cfg, w, n);
    var w2 := FirstBootTakes(cfg, w1, n);
    w' := FirstBootStores(cfg, w2, n);
    ReachesJoin(cfg, w, [Boot(n, false)] + [step] + [step] + [step], w1, [step] + [step], w2);
    ReachesJoin(cfg, w, [Boot(n, false)] + [step] + [step] + [step] + ([step] + [step]), w2, [step] + [step], w');
    assert [Boot(n, false)] + [step] + [step] + [step] + ([step] + [step]) + ([step] + [step]) == BootRun(n, w.now);
    PublisherReads(cfg, w2, n);
  }

  lemma PublisherReads(cfg: Config, w: World, n: nat)
    requires Inv(cfg, w) && n in w.nodes && w.nodes[n].pc == Publishing && w.holder == Some(n)
    ensures forall m | m in cfg.nodes :: m in w.disk.cells
    ensures SgMaxSeq(cfg, w.disk).Some?
  {
    hide Inv;
    InvFacts(cfg, w, n);
    OwnSequenceIsMax(w.disk.cells, cfg.nodes, n, w.nodes[n].proc.newSequence);
  }

  /**
   Two first boots in a row do break exclusivity: a node boots and locks, its provider
   crashes, another node boots and locks while the first lock is still alive.
   */
  lemma FirstBootsCanOverlap(cfg: Config, w: World, m: nat, n: nat) returns (actions: seq<Action>, w': World)
    requires cfg.lockInc >= 1 && cfg.sgRefresh >= 0 && Init(cfg, w)
    requires m in w.nodes && n in w.nodes && m != n
    ensures Reaches(cfg, w, actions, w') && !Exclusive(cfg, w')
  {
    hide Inv;
    hide SgMaxSeq;
    hide Reaches;
    InitInv(cfg, w);
    InitReads(cfg, w);
    var w1 := FirstBootLocks(cfg, w, m);
    InvFacts(cfg, w1, m);
    ActionKeepsInv(cfg, w1, Crash(m));
    var w2 := Apply(cfg, w1, Crash(m));
    ReachesOne(cfg, w1, Crash(m));
    w' := FirstBootLocks(cfg, w2, n);
    actions := BootRun(m, w.now) + [Crash(m)] + BootRun(n, w.now);
    ReachesJoin(cfg, w, BootRun(m, w.now), w1, [Crash(m)], w2);
    ReachesJoin(cfg, w, BootRun(m, w.now) + [Crash(m)], w2, BootRun(n, w.now), w');
    assert w'.nodes[m].shm == w1.nodes[m].shm;
  }

  lemma InitReads(cfg: Config, w: World)
    requires Init(cfg, w)
    ensures forall m | m in cfg.nodes :: m in w.disk.cells
    ensures SgMaxSeq(cfg, w.disk).Some?
  {
  }
}
