/**
 The waiting condition of timed mutual exclusion is exact: with a shorter wait, a crash
 right after a refresh and an immediate takeover leave two locks alive at once.
 */
module ClusterBound {
  import opened Common
  import opened LockSm
  import opened LockRuns
  import opened Cluster
  import opened ClusterInv
  import opened ClusterClock
  import opened ClusterTime
  import opened ClusterSafety

  // ---------------------------------------------------------------------------
  // Runs of a single node
  // ---------------------------------------------------------------------------

  /** The action is a tick or an action of node `n` other than its start. */
  predicate Local(a: Action, n: nat) {
    a.Tick? || (a.n == n && !a.Boot?)
  }

  predicate AllLocal(actions: seq<Action>, n: nat) {
    forall i | 0 <= i < |actions| :: Local(actions[i], n)
  }

  lemma ApplyIsLocal(cfg: Config, w: World, a: Action)
    requires Shape(cfg, w) && Enabled(cfg, w, a)
    ensures var w' := Apply(cfg, w, a);
            && w'.nodes.Keys == w.nodes.Keys
            && forall m | m in w.nodes && (a.Tick? || m != a.n) :: w'.nodes[m] == w.nodes[m]
  {
    hide StepFirst;
    hide StepSecond;
    hide DoPublish;
    hide PcAfter;
    hide ValidView;
  }

  lemma StepKeepsBootFlag(cfg: Config, pc: Pc, v: View, n: nat, input: Input)
    requires Active(pc) && ValidView(cfg, v, n)
    ensures StepAt(cfg, pc, v, n, input).0.proc.firstBoot == v.proc.firstBoot
  {
    hide CheckPeers;
    hide SgMaxSeq;
  }

  lemma ApplyKeepsBootFlag(cfg: Config, w: World, a: Action, n: nat)
    requires Shape(cfg, w) && Enabled(cfg, w, a) && Local(a, n) && n in w.nodes && !w.nodes[n].proc.firstBoot
    ensures n in Apply(cfg, w, a).nodes && !Apply(cfg, w, a).nodes[n].proc.firstBoot
  {
    hide StepFirst;
    hide StepSecond;
    hide DoPublish;
    hide PcAfter;
    ShapeView(cfg, w, n);
    hide ValidView;
    if a.Step? {
      StepKeepsBootFlag(cfg, w.nodes[n].pc, ViewOf(w, n), n, a.input);
    } else if a.CrashWriting? {
      var torn := a.input.(write1 := FailedTorn, write2 := FailedTorn);
      StepKeepsBootFlag(cfg, w.nodes[n].pc, ViewOf(w, n), n, torn);
    }
  }

  /** A node that is not on its first boot can do nothing unsafe on its own. */
  lemma {:induction false} RespawnedRunIsSafe(cfg: Config, w: World, actions: seq<Action>, w': World, n: nat)
    requires Reaches(cfg, w, actions, w') && AllLocal(actions, n)
    requires n in w.nodes && !w.nodes[n].proc.firstBoot
    ensures ReachesSafely(cfg, w, actions, w') && n in w'.nodes && !w'.nodes[n].proc.firstBoot
    decreases |actions|
  {
    hide Apply;
    hide Enabled;
    if actions != [] {
      assert Local(actions[0], n);
      ApplyKeepsBootFlag(cfg, w, actions[0], n);
      RespawnedRunIsSafe(cfg, Apply(cfg, w, actions[0]), actions[1..], w', n);
    }
  }

  /** While no other node has a lock, one node can do nothing unsafe on its own. */
  lemma {:induction false} LonelyRunIsSafe(cfg: Config, w: World, actions: seq<Action>, w': World, n: nat)
    requires Reaches(cfg, w, actions, w')
    requires forall i | 0 <= i < |actions| :: actions[i].Tick? || actions[i].n == n
    requires forall m | m in w.nodes && m != n :: !w.nodes[m].shm.isLocked
    ensures ReachesSafely(cfg, w, actions, w')
    decreases |actions|
  {
    hide Apply;
    hide Enabled;
    if actions != [] {
      assert actions[0].Tick? || actions[0].n == n;
      ApplyIsLocal(cfg, w, actions[0]);
      LonelyRunIsSafe(cfg, Apply(cfg, w, actions[0]), actions[1..], w', n);
    }
  }

  lemma {:induction false} SafeJoin(cfg: Config, w: World, a: seq<Action>, w1: World, b: seq<Action>, w2: World)
    requires ReachesSafely(cfg, w, a, w1) && ReachesSafely(cfg, w1, b, w2)
    ensures ReachesSafely(cfg, w, a + b, w2)
    decreases |a|
  {
    hide Apply;
    hide Enabled;
    hide SafeBoot;
    if a == [] {
      assert a + b == b;
    } else {
      SafeJoin(cfg, Apply(cfg, w, a[0]), a[1..], w1, b, w2);
      assert (a + b)[0] == a[0] && (a + b)[1..] == a[1..] + b;
    }
  }

  // ---------------------------------------------------------------------------
  // A takeover, run by run
  // ---------------------------------------------------------------------------

  /** `actions` are node `n`'s own, or ticks, and lead from `w` to `w'`. */
  ghost predicate LocalRun(cfg: Config, w: World, actions: seq<Action>, w': World, n: nat) {
    && Inv(cfg, w) && Inv(cfg, w') && n in w.nodes && n in w'.nodes
    && w'.nodes == w.nodes[n := w'.nodes[n]]
    && AllLocal(actions, n)
    && Reaches(cfg, w, actions, w')
  }

  lemma LocalJoin(cfg: Config, w: World, a: seq<Action>, w1: World, b: seq<Action>, w2: World, n: nat)
    requires LocalRun(cfg, w, a, w1, n) && LocalRun(cfg, w1, b, w2, n)
    ensures LocalRun(cfg, w, a + b, w2, n)
  {
    hide Inv;
    hide Reaches;
    hide Local;
    ReachesJoin(cfg, w, a, w1, b, w2);
  }

  /** Node `n` has taken file 1, has counted `k` runs, and its last run has just ended. */
  ghost predicate WaitsAt(cfg: Config, w: World, n: nat, k: int) {
    && Inv(cfg, w) && n in w.nodes && w.holder == Some(n)
    && w.nodes[n].pc == Idle && w.nodes[n].lastEnd == w.now
    && w.nodes[n].proc.locked1 && !w.nodes[n].proc.isLocked && !w.nodes[n].proc.firstBoot
    && w.nodes[n].proc.waitCounter == k && !w.nodes[n].shm.isLocked
  }

  /** Node `n` has set its lock in this second. */
  ghost predicate HasLocked(cfg: Config, w: World, n: nat) {
    && Inv(cfg, w) && n in w.nodes
    && w.nodes[n].shm.isLocked && w.nodes[n].shm.lastRefresh == w.now
  }

  /** A takeover at `pc`, in a run that began in this second, with `k` runs counted before. */
  ghost predicate TakesOver(cfg: Config, w: World, n: nat, pc: Pc, k: int, owner: bool) {
    && Inv(cfg, w) && n in w.nodes && w.nodes[n].pc == pc
    && w.holder == (if owner then Some(n) else None)
    && (w.nodes[n].proc.locked1 <==> owner) && !w.nodes[n].proc.isLocked && !w.nodes[n].proc.firstBoot
    && w.nodes[n].proc.waitCounter == k && !w.nodes[n].shm.isLocked
  }

  function Ticks(c: nat): seq<Action> {
    seq(c, _ => Tick)
  }

  lemma {:induction false} TicksPass(cfg: Config, w: World, c: nat)
    requires Inv(cfg, w)
    ensures Reaches(cfg, w, Ticks(c), w.(now := w.now + c)) && Inv(cfg, w.(now := w.now + c))
    decreases c
  {
    hide Inv;
    if c == 0 {
      assert Ticks(0) == [] && w.(now := w.now + 0) == w;
    } else {
      TickKeepsInv(cfg, w);
      var w1 := w.(now := w.now + 1);
      TicksPass(cfg, w1, c - 1);
      InvShape(cfg, w);
      ReachesOne(cfg, w, Tick);
      ReachesJoin(cfg, w, [Tick], w1, Ticks(c - 1), w1.(now := w1.now + (c - 1)));
      assert [Tick] + Ticks(c - 1) == Ticks(c);
      assert w1.(now := w1.now + (c - 1)) == w.(now := w.now + c);
    }
  }

  /** One step in which nothing fails, as a run of its own. */
  lemma SmoothRun(cfg: Config, w: World, n: nat) returns (w': World)
    requires Inv(cfg, w) && n in w.nodes && Active(w.nodes[n].pc)
    ensures LocalRun(cfg, w, [Step(n, Fine(w.now))], w', n) && w'.now == w.now
    ensures ValidView(cfg, ViewOf(w, n), n) && StepMade(cfg, w, n, Fine(w.now), w')
  {
    hide Inv;
    hide Reaches;
    hide Apply;
    hide Enabled;
    hide StepAt;
    hide PcAfter;
    SmoothStep(cfg, w, n);
    InvFacts(cfg, w, n);
    w' := Apply(cfg, w, Step(n, Fine(w.now)));
    ReachesOne(cfg, w, Step(n, Fine(w.now)));
  }

  /** A new run begins an interval after the last one ended and finds the group unlocked. */
  lemma WaitBegins(cfg: Config, w: World, n: nat, k: int) returns (actions: seq<Action>, w': World)
    requires WaitsAt(cfg, w, n, k) && cfg.chkInterval > 0
    ensures LocalRun(cfg, w, actions, w', n) && w'.now == w.now + cfg.chkInterval
    ensures TakesOver(cfg, w', n, At(StGetSinglegrp), k, true)
  {
    hide Inv;
    hide Reaches;
    TicksPass(cfg, w, cfg.chkInterval);
    var w1 := w.(now := w.now + cfg.chkInterval);
    InvShape(cfg, w1);
    ActionKeepsInv(cfg, w1, Begin(n));
    ReachesOne(cfg, w1, Begin(n));
    w' := Apply(cfg, w1, Begin(n));
    actions := Ticks(cfg.chkInterval) + [Begin(n)];
    ReachesJoin(cfg, w, Ticks(cfg.chkInterval), w1, [Begin(n)], w');
  }

  /** The run's own stamp is taken; an owner goes on to ping, anybody else to take file 1. */
  lemma TakeoverChecks(cfg: Config, w: World, n: nat, k: int, owner: bool) returns (actions: seq<Action>, w': World)
    requires TakesOver(cfg, w, n, At(StGetSinglegrp), k, owner)
    ensures LocalRun(cfg, w, actions, w', n) && w'.now == w.now && w'.disk == w.disk
    ensures TakesOver(cfg, w', n, At(if owner then StPingWait else StDoLock), k, owner)
    ensures w'.nodes[n].proc.newRefresh == w.now
  {
    hide Inv;
    hide LocalRun;
    hide CheckPeers;
    var w1 := SmoothRun(cfg, w, n);
    LocalFacts(cfg, w, [Step(n, Fine(w.now))], w1, n);
    var w2 := SmoothRun(cfg, w1, n);
    LocalFacts(cfg, w1, [Step(n, Fine(w.now))], w2, n);
    actions := [Step(n, Fine(w.now))] + [Step(n, Fine(w.now))];
    LocalJoin(cfg, w, [Step(n, Fine(w.now))], w1, [Step(n, Fine(w.now))], w2, n);
    w' := w2;
    if !owner {
      w' := SmoothRun(cfg, w2, n);
      LocalFacts(cfg, w2, [Step(n, Fine(w.now))], w', n);
      LocalJoin(cfg, w, actions, w2, [Step(n, Fine(w.now))], w', n);
      actions := actions + [Step(n, Fine(w.now))];
    }
  }

  lemma LocalFacts(cfg: Config, w: World, actions: seq<Action>, w': World, n: nat)
    requires LocalRun(cfg, w, actions, w', n)
    ensures Inv(cfg, w) && Inv(cfg, w') && n in w.nodes && n in w'.nodes && w'.nodes == w.nodes[n := w'.nodes[n]]
  {
  }

  lemma OwnerPingsBoth(cfg: Config, w: World, n: nat, k: int) returns (actions: seq<Action>, w': World)
    requires TakesOver(cfg, w, n, At(StPingWait), k, true)
    ensures LocalRun(cfg, w, actions, w', n) && w'.now == w.now
    ensures TakesOver(cfg, w', n, At(StDoLock), k, true)
    ensures w'.nodes[n].proc.newRefresh == w.nodes[n].proc.newRefresh
  {
    hide Inv;
    hide LocalRun;
    hide OwnerOk;
    hide DiskOk;
    InvFacts(cfg, w, n);
    var w1 := SmoothRun(cfg, w, n);
    LocalFacts(cfg, w, [Step(n, Fine(w.now))], w1, n);
    w' := SmoothRun(cfg, w1, n);
    LocalFacts(cfg, w1, [Step(n, Fine(w.now))], w', n);
    actions := [Step(n, Fine(w.now))] + [Step(n, Fine(w.now))];
    LocalJoin(cfg, w, [Step(n, Fine(w.now))], w1, [Step(n, Fine(w.now))], w', n);
  }

  /** After the decision of a run: one more run counted, and either waiting or about to lock. */
  ghost predicate Decided(cfg: Config, w: World, n: nat, k: int) {
    if k > cfg.lockedWait then
      && Inv(cfg, w) && n in w.nodes && w.nodes[n].pc == Publishing
      && !w.nodes[n].shm.isLocked && w.nodes[n].proc.newRefresh == w.now
    else WaitsAt(cfg, w, n, k)
  }

  lemma OwnerDecidesAgain(cfg: Config, w: World, n: nat, k: int) returns (actions: seq<Action>, w': World)
    requires TakesOver(cfg, w, n, At(StDoLock), k, true) && w.nodes[n].proc.newRefresh == w.now
    ensures LocalRun(cfg, w, actions, w', n) && w'.now == w.now
    ensures Decided(cfg, w', n, k + 1)
  {
    hide Inv;
    hide LocalRun;
    hide Decide;
    hide DiskOk;
    InvFacts(cfg, w, n);
    DecideWaiting(cfg, ViewOf(w, n), n);
    w' := SmoothRun(cfg, w, n);
    actions := [Step(n, Fine(w.now))];
    LocalFacts(cfg, w, actions, w', n);
  }

  lemma SecondCopyDecides(cfg: Config, v: View, n: nat, now: int)
    requires ValidView(cfg, v, n) && n in cfg.nodes && !v.proc.firstBoot
    requires v.disk.present && v.proc.newSequence > 0 && v.disk.cells[n].first == Good(v.proc.newSequence)
    requires Dominates(v.disk.cells, cfg.nodes, n, v.proc.newSequence)
    ensures var v1 := v.(disk := WriteSecond(v.disk, n, v.proc.newSequence, Written));
            var p := v.proc.(waitCounter := v.proc.waitCounter + 1);
            StepSecond(cfg, StDoLock, v, n, Fine(now)) ==
            if p.waitCounter > cfg.lockedWait then (v1.(proc := p.(isLocked := true)), Publish)
            else (v1.(proc := p), Done(EvWait))
  {
    hide Decide;
    var s := v.proc.newSequence;
    var v1 := v.(disk := WriteSecond(v.disk, n, s, Written));
    assert v1.disk.cells[n] == Copies(Good(s), Good(s));
    DecideWaiting(cfg, v1, n);
  }

  lemma NewOwnerDecides(cfg: Config, w: World, n: nat) returns (actions: seq<Action>, w': World)
    requires TakesOver(cfg, w, n, Second(StDoLock), 0, true) && w.nodes[n].proc.newRefresh == w.now
    ensures LocalRun(cfg, w, actions, w', n) && w'.now == w.now
    ensures Decided(cfg, w', n, 1)
  {
    hide Inv;
    hide LocalRun;
    hide DiskOk;
    hide StepFirst;
    hide StepSecond;
    hide Dominates;
    InvFacts(cfg, w, n);
    SecondCopyDecides(cfg, ViewOf(w, n), n, w.now);
    w' := SmoothRun(cfg, w, n);
    actions := [Step(n, Fine(w.now))];
    LocalFacts(cfg, w, actions, w', n);
  }

  lemma TakesFile(cfg: Config, w: World, n: nat) returns (actions: seq<Action>, w': World)
    requires TakesOver(cfg, w, n, At(StDoLock), 0, false)
    requires forall m | m in cfg.nodes :: m in w.disk.cells
    requires SgMaxSeq(cfg, w.disk).Some?
    ensures LocalRun(cfg, w, actions, w', n) && w'.now == w.now
    ensures TakesOver(cfg, w', n, Second(StDoLock), 0, true)
    ensures w'.nodes[n].proc.newRefresh == w.nodes[n].proc.newRefresh
  {
    hide Inv;
    hide LocalRun;
    hide SgMaxSeq;
    hide OwnerOk;
    hide DiskOk;
    InvFacts(cfg, w, n);
    w' := SmoothRun(cfg, w, n);
    actions := [Step(n, Fine(w.now))];
    LocalFacts(cfg, w, actions, w', n);
  }

  /** Every later run counts one more, and locks once the count exceeds the configured wait. */
  lemma WaitingRun(cfg: Config, w: World, n: nat, k: int) returns (actions: seq<Action>, w': World)
    requires WaitsAt(cfg, w, n, k) && cfg.chkInterval > 0
    ensures LocalRun(cfg, w, actions, w', n) && w'.now == w.now + cfg.chkInterval
    ensures Decided(cfg, w', n, k + 1)
  {
    hide Inv;
    hide LocalRun;
    var a1, w1 := WaitBegins(cfg, w, n, k);
    var a2, w2 := TakeoverChecks(cfg, w1, n, k, true);
    var a3, w3 := OwnerPingsBoth(cfg, w2, n, k);
    var a4, w4 := OwnerDecidesAgain(cfg, w3, n, k);
    LocalJoin(cfg, w, a1, w1, a2, w2, n);
    LocalJoin(cfg, w, a1 + a2, w2, a3, w3, n);
    LocalJoin(cfg, w, a1 + a2 + a3, w3, a4, w4, n);
    actions, w' := a1 + a2 + a3 + a4, w4;
  }

  /** The rest of a takeover that has counted `k` runs: it locks after exactly the runs still missing. */
  lemma {:induction false} WaitsOut(cfg: Config, w: World, n: nat, k: int) returns (actions: seq<Action>, w': World)
    requires Decided(cfg, w, n, k) && cfg.chkInterval > 0 && 1 <= k <= Max(0, cfg.lockedWait) + 1
    ensures LocalRun(cfg, w, actions, w', n) && HasLocked(cfg, w', n)
    ensures w'.now == w.now + (Max(0, cfg.lockedWait) + 1 - k) * cfg.chkInterval
    decreases Max(0, cfg.lockedWait) + 1 - k
  {
    hide Inv;
    hide LocalRun;
    if k > cfg.lockedWait {
      var w1 := SmoothRun(cfg, w, n);
      LocalFacts(cfg, w, [Step(n, Fine(w.now))], w1, n);
      w' := SmoothRun(cfg, w1, n);
      actions := [Step(n, Fine(w.now))] + [Step(n, Fine(w.now))];
      LocalFacts(cfg, w1, [Step(n, Fine(w.now))], w', n);
      LocalJoin(cfg, w, [Step(n, Fine(w.now))], w1, [Step(n, Fine(w.now))], w', n);
    } else {
      var a1, w1 := WaitingRun(cfg, w, n, k);
      var a2, w2 := WaitsOut(cfg, w1, n, k + 1);
      LocalJoin(cfg, w, a1, w1, a2, w2, n);
      actions, w' := a1 + a2, w2;
      var left, c := Max(0, cfg.lockedWait) + 1 - k, cfg.chkInterval;
      assert left * c == (left - 1) * c + c;
    }
  }

  /** A process that is started again while file 1 is free takes it at once. */
  lemma RespawnTakes(cfg: Config, w: World, n: nat) returns (actions: seq<Action>, w': World)
    requires Bootable(cfg, w, n)
    ensures ReachesSafely(cfg, w, actions, w') && w'.now == w.now
    ensures Inv(cfg, w') && n in w'.nodes && w'.nodes == w.nodes[n := w'.nodes[n]]
    ensures Decided(cfg, w', n, 1) && !w'.nodes[n].proc.firstBoot
  {
    hide Inv;
    hide LocalRun;
    hide Decided;
    hide ReachesSafely;
    hide SgMaxSeq;
    hide Bootable;
    var w0 := RespawnStarts(cfg, w, n);
    var a1, w1 := NewOwnerRun(cfg, w0, n);
    LocalFacts(cfg, w0, a1, w1, n);
    SafeRun(cfg, w0, a1, w1, n);
    SafeJoin(cfg, w, [Boot(n, true)], w0, a1, w1);
    actions, w' := [Boot(n, true)] + a1, w1;
  }

  lemma RespawnStarts(cfg: Config, w: World, n: nat) returns (w': World)
    requires Bootable(cfg, w, n)
    ensures ReachesSafely(cfg, w, [Boot(n, true)], w') && w'.now == w.now
    ensures n in w.nodes && n in w'.nodes && w'.nodes == w.nodes[n := w'.nodes[n]]
    ensures TakesOver(cfg, w', n, At(StGetSinglegrp), 0, false)
    ensures (forall m | m in cfg.nodes :: m in w'.disk.cells) && SgMaxSeq(cfg, w'.disk).Some?
  {
    hide Inv;
    hide SgMaxSeq;
    InvFacts(cfg, w, n);
    ActionKeepsInv(cfg, w, Boot(n, true));
    w' := Apply(cfg, w, Boot(n, true));
    BootIsSafe(cfg, w, n, w');
  }

  /** The first run of a takeover, which takes file 1. */
  lemma NewOwnerRun(cfg: Config, w: World, n: nat) returns (actions: seq<Action>, w': World)
    requires TakesOver(cfg, w, n, At(StGetSinglegrp), 0, false)
    requires (forall m | m in cfg.nodes :: m in w.disk.cells) && SgMaxSeq(cfg, w.disk).Some?
    ensures LocalRun(cfg, w, actions, w', n) && w'.now == w.now
    ensures Decided(cfg, w', n, 1)
  {
    hide Inv;
    hide LocalRun;
    hide SgMaxSeq;
    hide Decided;
    var a1, w1 := TakeoverChecks(cfg, w, n, 0, false);
    var a2, w2 := TakesFile(cfg, w1, n);
    var a3, w3 := NewOwnerDecides(cfg, w2, n);
    LocalJoin(cfg, w, a1, w1, a2, w2, n);
    LocalJoin(cfg, w, a1 + a2, w2, a3, w3, n);
    actions, w' := a1 + a2 + a3, w3;
  }

  lemma SafeRun(cfg: Config, w: World, actions: seq<Action>, w': World, n: nat)
    requires LocalRun(cfg, w, actions, w', n) && !w.nodes[n].proc.firstBoot
    ensures ReachesSafely(cfg, w, actions, w') && !w'.nodes[n].proc.firstBoot
  {
    hide Inv;
    hide Reaches;
    hide ReachesSafely;
    RespawnedRunIsSafe(cfg, w, actions, w', n);
  }

  lemma BootIsSafe(cfg: Config, w: World, n: nat, w': World)
    requires Shape(cfg, w) && Enabled(cfg, w, Boot(n, true)) && w' == Apply(cfg, w, Boot(n, true))
    ensures ReachesSafely(cfg, w, [Boot(n, true)], w')
  {
  }

  // ---------------------------------------------------------------------------
  // The bound is exact
  // ---------------------------------------------------------------------------

  lemma CrashIsSafe(cfg: Config, w: World, m: nat)
    requires Shape(cfg, w) && m in w.nodes
    ensures ReachesSafely(cfg, w, [Crash(m)], Die(w, m))
  {
  }

  /** Node `m` boots first in an empty cluster, locks the group, and its provider crashes. */
  lemma LocksAndCrashes(cfg: Config, w: World, m: nat) returns (actions: seq<Action>, w': World)
    requires cfg.lockInc >= 1 && cfg.sgRefresh >= 0 && Init(cfg, w) && m in w.nodes
    ensures ReachesSafely(cfg, w, actions, w') && Inv(cfg, w') && w'.now == w.now
    ensures m in w'.nodes && w'.nodes == w.nodes[m := w'.nodes[m]]
    ensures w'.nodes[m].shm.isLocked && w'.nodes[m].shm.lastRefresh == w'.now
    ensures w'.holder == None && (forall k | k in cfg.nodes :: k in w'.disk.cells) && SgMaxSeq(cfg, w'.disk).Some?
  {
    hide Inv;
    hide SgMaxSeq;
    hide Reaches;
    hide ReachesSafely;
    hide LockedAt;
    InitInv(cfg, w);
    InitReads(cfg, w);
    InitUnlocked(cfg, w);
    hide Init;
    var w1 := FirstBootLocks(cfg, w, m);
    LonelyRunIsSafe(cfg, w, BootRun(m, w.now), w1, m);
    DieKeepsInv(cfg, w1, m);
    InvShape(cfg, w1);
    CrashIsSafe(cfg, w1, m);
    w' := Die(w1, m);
    actions := BootRun(m, w.now) + [Crash(m)];
    SafeJoin(cfg, w, BootRun(m, w.now), w1, [Crash(m)], w');
  }

  lemma InitUnlocked(cfg: Config, w: World)
    requires Init(cfg, w)
    ensures w.holder == None
    ensures forall n | n in w.nodes :: w.nodes[n].pc == Dead && !w.nodes[n].shm.isLocked
  {
  }

  /** There is a run in which node `n` takes file 1 at once and locks `max(0, lockedWait)` intervals later. */
  lemma TakeoverLocks(cfg: Config, w: World, n: nat) returns (actions: seq<Action>, w': World)
    requires Bootable(cfg, w, n) && cfg.chkInterval > 0
    ensures ReachesSafely(cfg, w, actions, w')
    ensures HasLocked(cfg, w', n) && w'.nodes == w.nodes[n := w'.nodes[n]]
    ensures w'.now == w.now + Max(0, cfg.lockedWait) * cfg.chkInterval
  {
    hide Inv;
    hide LocalRun;
    hide Decided;
    hide Bootable;
    hide ReachesSafely;
    var a1, w1 := RespawnTakes(cfg, w, n);
    var a2, w2 := WaitsOut(cfg, w1, n, 1);
    LocalFacts(cfg, w1, a2, w2, n);
    SafeRun(cfg, w1, a2, w2, n);
    SafeJoin(cfg, w, a1, w1, a2, w2);
    actions, w' := a1 + a2, w2;
  }

  /** If the waiting runs do not outlast a lock, one crash is enough for two locks to be alive at once. */
  lemma ShortWaitOverlaps(cfg: Config, w: World, m: nat, n: nat) returns (actions: seq<Action>, w': World)
    requires cfg.lockInc >= 1 && cfg.sgRefresh >= 0 && cfg.chkInterval > 0
    requires cfg.lockedWait * cfg.chkInterval <= cfg.sgRefresh
    requires Init(cfg, w) && m in w.nodes && n in w.nodes && m != n
    ensures ReachesSafely(cfg, w, actions, w') && !Exclusive(cfg, w')
  {
    hide Inv;
    hide SgMaxSeq;
    hide ReachesSafely;
    var a1, w1 := LocksAndCrashes(cfg, w, m);
    assert w1.nodes[n] == w.nodes[n];
    var a2, w2 := TakeoverLocks(cfg, w1, n);
    SafeJoin(cfg, w, a1, w1, a2, w2);
    actions, w' := a1 + a2, w2;
    assert w2.nodes[m] == w1.nodes[m];
  }

  lemma HasInit(cfg: Config) returns (w: World)
    ensures Init(cfg, w) && forall n :: n in cfg.nodes <==> n in w.nodes
  {
    var ids := set n | n in cfg.nodes;
    var nodes := map n | n in ids :: Node(Dead, NewProc(0, true), Shm(false, 0, 0, 0), 0, 0);
    w := World(0, None, Disk(false, map n | n in nodes :: Copies(Good(0), Good(0))), nodes, [],
               map n | n in nodes :: 0, 0, 0);
  }

  /**
   The exact condition.  In a group of two nodes or more, every state of every run is
   exclusive if and only if the configured wait outlasts the life of a lock (with a
   negative life no lock ever counts).
   */
  lemma ExclusionIff(cfg: Config)
    requires cfg.lockInc >= 1 && cfg.chkInterval > 0
    requires exists m, n :: m in cfg.nodes && n in cfg.nodes && m != n
    ensures (forall w, actions, w' | Init(cfg, w) && ReachesSafely(cfg, w, actions, w') :: Exclusive(cfg, w')) <==>
            cfg.lockedWait * cfg.chkInterval > cfg.sgRefresh || cfg.sgRefresh < 0
  {
    hide Init;
    hide ReachesSafely;
    if cfg.sgRefresh < 0 {
    } else if cfg.lockedWait * cfg.chkInterval > cfg.sgRefresh {
      forall w, actions, w' | Init(cfg, w) && ReachesSafely(cfg, w, actions, w')
        ensures Exclusive(cfg, w')
      {
        MutualExclusion(cfg, w, actions, w');
      }
    } else {
      var m, n :| m in cfg.nodes && n in cfg.nodes && m != n;
      var w := HasInit(cfg);
      var actions, w' := ShortWaitOverlaps(cfg, w, m, n);
    }
  }
}
