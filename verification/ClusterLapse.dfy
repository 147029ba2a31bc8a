/**
 A lock that lapses: when it can come back, and when it cannot.  A refresh checks the lock
 and stores the new stamp in two steps; time can pass in between.
 */
module ClusterLapse {
  import opened Common
  import opened LockSm
  import opened LockRuns
  import opened Cluster
  import opened ClusterInv
  import opened ClusterClock
  import opened ClusterSafety
  import opened ClusterBound

  /** Node `n`'s lock is set, but has expired. */
  predicate Lapsed(cfg: Config, w: World, n: nat) {
    n in w.nodes && w.nodes[n].shm.isLocked && Stale(cfg, w.nodes[n].shm, w.now)
  }

  /** Node `n`'s process has checked its lock for a refresh and not stored the stamp yet. */
  predicate Refreshing(w: World, n: nat) {
    n in w.nodes && w.nodes[n].pc == Storing(StShmRefresh)
  }

  lemma ReachableHasClock(cfg: Config, w: World)
    requires cfg.lockInc >= 1 && Reachable(cfg, w)
    ensures Inv(cfg, w) && ClockInv(cfg, w)
  {
    hide Inv;
    hide ClockInv;
    hide Init;
    var start: World, actions: seq<Action> :| Init(cfg, start) && Reaches(cfg, start, actions, w);
    InitInv(cfg, start);
    InitClockInv(cfg, start);
    ReachableClock(cfg, start, actions, w);
  }

  // ---------------------------------------------------------------------------
  // One action
  // ---------------------------------------------------------------------------

  lemma LapsedStep(cfg: Config, pc: Pc, v: View, n: nat, input: Input)
    requires Active(pc) && ProcPre(cfg, pc, v, n) && v.shm.isLocked && Stale(cfg, v.shm, input.now)
    ensures var (v', next) := StepAt(cfg, pc, v, n, input);
            if pc == Storing(StShmRefresh) then
              v'.shm == v.shm.(lastRefresh := v.proc.newRefresh, sequence := v.proc.newSequence)
            else
              (v'.shm == v.shm || v'.shm == Unlocked(v.shm)) && PcAfter(StateOf(pc), next) != Storing(StShmRefresh)
  {
    hide CheckPeers;
    hide SgMaxSeq;
  }

  /** The action stores the stamp of a refresh on node `n`. */
  predicate StoresStamp(a: Action, w: World, n: nat) {
    (a.Step? || a.CrashPublishing?) && a.n == n && Refreshing(w, n)
  }

  /** What one action makes of a lapsed lock. */
  ghost predicate LapsedAfter(cfg: Config, w: World, n: nat, a: Action, w': World)
    requires n in w.nodes
  {
    && n in w'.nodes && w'.now >= w.now
    && (if StoresStamp(a, w, n) then
          && w'.now == w.now && w'.nodes[n].shm.isLocked
          && w'.nodes[n].shm.lastRefresh == w.nodes[n].proc.newRefresh
        else
          && (w'.nodes[n].shm == w.nodes[n].shm || !w'.nodes[n].shm.isLocked)
          && (Refreshing(w', n) ==> Refreshing(w, n)))
  }

  lemma LapsedOwnStep(cfg: Config, w: World, n: nat, input: Input)
    requires Inv(cfg, w) && Enabled(cfg, w, Step(n, input)) && Lapsed(cfg, w, n)
    ensures LapsedAfter(cfg, w, n, Step(n, input), Apply(cfg, w, Step(n, input)))
  {
    hide Inv;
    hide Apply;
    hide StepAt;
    hide PcAfter;
    hide OwnerOk;
    hide DiskOk;
    hide ProcOk;
    InvFacts(cfg, w, n);
    ApplyStep(cfg, w, n, input);
    LapsedStep(cfg, w.nodes[n].pc, ViewOf(w, n), n, input);
  }

  lemma LapsedAction(cfg: Config, w: World, n: nat, a: Action)
    requires Inv(cfg, w) && Enabled(cfg, w, a) && Lapsed(cfg, w, n)
    ensures LapsedAfter(cfg, w, n, a, Apply(cfg, w, a))
  {
    hide Inv;
    hide StepAt;
    hide StepFirst;
    hide StepSecond;
    hide PcAfter;
    hide OwnerOk;
    hide DiskOk;
    hide ValidView;
    if a.Step? && a.n == n {
      LapsedOwnStep(cfg, w, n, a.input);
    } else {
      InvFacts(cfg, w, n);
      if a.CrashWriting? && a.n == n {
        WritingIsQuiet(cfg, w.nodes[n].pc, ViewOf(w, n), n, a.input);
      }
    }
  }

  /**
   A lapsed lock counts again after an action if and only if that action stores the stamp of
   a refresh that was checked before the lock lapsed, and the stamp itself has not expired.
   */
  lemma LapsedIsRevivedIff(cfg: Config, w: World, n: nat, a: Action)
    requires cfg.lockInc >= 1 && Reachable(cfg, w) && Shape(cfg, w) && Enabled(cfg, w, a) && Lapsed(cfg, w, n)
    ensures n in Apply(cfg, w, a).nodes
    ensures LockedAt(cfg, Apply(cfg, w, a).nodes[n].shm, Apply(cfg, w, a).now) <==>
            StoresStamp(a, w, n) && w.now - w.nodes[n].proc.newRefresh <= cfg.sgRefresh
  {
    hide Inv;
    hide Reachable;
    hide Apply;
    hide Enabled;
    ReachableHasClock(cfg, w);
    LapsedAction(cfg, w, n, a);
    assert ClockOk(w.nodes[n], w.now);
  }

  // ---------------------------------------------------------------------------
  // Whole runs
  // ---------------------------------------------------------------------------

  /** Node `n`'s lock flag is set in every state of the run. */
  ghost predicate FlagStays(cfg: Config, w: World, actions: seq<Action>, n: nat)
    decreases |actions|
  {
    && n in w.nodes && w.nodes[n].shm.isLocked
    && (actions != [] && Shape(cfg, w) && Enabled(cfg, w, actions[0]) ==>
          FlagStays(cfg, Apply(cfg, w, actions[0]), actions[1..], n))
  }

  lemma {:induction false} LapsedFrom(cfg: Config, w: World, actions: seq<Action>, w': World, n: nat)
    requires Inv(cfg, w) && ClockInv(cfg, w) && Reaches(cfg, w, actions, w') && FlagStays(cfg, w, actions, n)
    requires Lapsed(cfg, w, n) && !Refreshing(w, n)
    ensures Lapsed(cfg, w', n) && !Refreshing(w', n)
    decreases |actions|
  {
    hide Inv;
    hide Apply;
    hide Enabled;
    if actions != [] {
      LapsedAction(cfg, w, n, actions[0]);
      assert ClockOk(w.nodes[n], w.now);
      ActionKeepsInv(cfg, w, actions[0]);
      ActionKeepsClock(cfg, w, actions[0]);
      LapsedFrom(cfg, Apply(cfg, w, actions[0]), actions[1..], w', n);
    }
  }

  /**
   A lock that lapses outside the stores of a refresh is gone: through any run it stays
   lapsed for as long as its flag is not taken down.
   */
  lemma LapsedStaysLapsed(cfg: Config, w: World, actions: seq<Action>, w': World, n: nat)
    requires cfg.lockInc >= 1 && Reachable(cfg, w)
    requires Reaches(cfg, w, actions, w') && FlagStays(cfg, w, actions, n)
    requires Lapsed(cfg, w, n) && !Refreshing(w, n)
    ensures Lapsed(cfg, w', n) && !LockedAt(cfg, w'.nodes[n].shm, w'.now)
  {
    hide Inv;
    hide ClockInv;
    hide Reachable;
    hide Reaches;
    hide FlagStays;
    ReachableHasClock(cfg, w);
    LapsedFrom(cfg, w, actions, w', n);
  }

  // ---------------------------------------------------------------------------
  // A run that revives a lapsed lock
  // ---------------------------------------------------------------------------

  /** A holder at `pc` of a refreshing run that began in this second; its lock was stamped `at`. */
  ghost predicate Refreshes(cfg: Config, w: World, n: nat, pc: Pc, at: int) {
    && Inv(cfg, w) && n in w.nodes && w.holder == Some(n) && w.nodes[n].pc == pc
    && w.nodes[n].proc.isLocked && w.nodes[n].proc.fd
    && w.nodes[n].shm.isLocked && w.nodes[n].shm.lastRefresh == at && w.nodes[n].shm.pid == w.nodes[n].proc.pid
    && (pc != At(StGetSinglegrp) ==> w.nodes[n].proc.newRefresh == w.now)
  }

  /** A lock that counts is found intact when no other node answers and the owner's record is above theirs. */
  lemma FindsLock(cfg: Config, w: World, n: nat, at: int)
    requires Refreshes(cfg, w, n, At(StGetSinglegrp), at) && LockedAt(cfg, w.nodes[n].shm, w.now)
    ensures ValidView(cfg, ViewOf(w, n), n)
    ensures SgIsLocked(cfg, ViewOf(w, n), n, Fine(w.now)) == (StatusTrue, w.nodes[n].shm)
  {
    hide Inv;
    hide SgIsLocked;
    InvFacts(cfg, w, n);
    LockedIff(cfg, ViewOf(w, n), n, Fine(w.now));
  }

  lemma RefreshBegins(cfg: Config, w: World, n: nat) returns (actions: seq<Action>, w': World)
    requires Inv(cfg, w) && HoldsLock(w, n, w.now) && cfg.chkInterval > 0
    ensures LocalRun(cfg, w, actions, w', n) && w'.now == w.now + cfg.chkInterval
    ensures Refreshes(cfg, w', n, At(StGetSinglegrp), w.now)
  {
    hide Inv;
    hide Reaches;
    TicksPass(cfg, w, cfg.chkInterval);
    var w1 := w.(now := w.now + cfg.chkInterval);
    InvShape(cfg, w1);
    ActionKeepsInv(cfg, w1, Begin(n));
    ReachesOne(cfg, w1, Begin(n));
    w' := Apply(cfg, w1, Begin(n));
    actions := Ticks(cfg.chkInterval) + [Begin(n)];
    ReachesJoin(cfg, w, Ticks(cfg.chkInterval), w1, [Begin(n)], w');
  }

  /** Where a holder whose lock counts goes from `pc` when nothing fails. */
  function RefreshPath(pc: Pc): Pc {
    match pc
    case At(StGetSinglegrp) => At(StChkLLock)
    case At(StChkLLock) => At(StPingLock)
    case At(StPingLock) => Second(StPingLock)
    case Second(StPingLock) => At(StShmRefresh)
    case _ => Storing(StShmRefresh)
  }

  lemma RefreshStep(cfg: Config, w: World, n: nat, pc: Pc, at: int) returns (w': World)
    requires Refreshes(cfg, w, n, pc, at) && LockedAt(cfg, w.nodes[n].shm, w.now)
    requires pc in {At(StGetSinglegrp), At(StChkLLock), At(StPingLock), Second(StPingLock), At(StShmRefresh)}
    ensures LocalRun(cfg, w, [Step(n, Fine(w.now))], w', n) && w'.now == w.now
    ensures Refreshes(cfg, w', n, RefreshPath(pc), at)
  {
    hide Inv;
    hide LocalRun;
    hide SgIsLocked;
    hide LockedAt;
    if pc == At(StGetSinglegrp) {
      FindsLock(cfg, w, n, at);
    }
    w' := SmoothRun(cfg, w, n);
    LocalFacts(cfg, w, [Step(n, Fine(w.now))], w', n);
    RefreshMoves(cfg, w, n, pc, at, w');
  }

  lemma RefreshMoves(cfg: Config, w: World, n: nat, pc: Pc, at: int, w': World)
    requires Refreshes(cfg, w, n, pc, at) && LockedAt(cfg, w.nodes[n].shm, w.now)
    requires pc in {At(StGetSinglegrp), At(StChkLLock), At(StPingLock), Second(StPingLock), At(StShmRefresh)}
    requires ValidView(cfg, ViewOf(w, n), n) && StepMade(cfg, w, n, Fine(w.now), w') && Inv(cfg, w')
    requires pc == At(StGetSinglegrp) ==> SgIsLocked(cfg, ViewOf(w, n), n, Fine(w.now)) == (StatusTrue, w.nodes[n].shm)
    ensures Refreshes(cfg, w', n, RefreshPath(pc), at)
  {
    hide Inv;
    hide SgIsLocked;
  }

  /** All steps of a refresh up to the check, in one second. */
  lemma RefreshChecks(cfg: Config, w: World, n: nat, at: int) returns (actions: seq<Action>, w': World)
    requires Refreshes(cfg, w, n, At(StGetSinglegrp), at) && w.now - at <= cfg.sgRefresh && at <= w.now
    ensures LocalRun(cfg, w, actions, w', n) && w'.now == w.now
    ensures Refreshes(cfg, w', n, Storing(StShmRefresh), at)
  {
    hide Inv;
    hide LocalRun;
    var step := [Step(n, Fine(w.now))];
    var w1 := RefreshStep(cfg, w, n, At(StGetSinglegrp), at);
    var w2 := RefreshStep(cfg, w1, n, At(StChkLLock), at);
    var w3 := RefreshStep(cfg, w2, n, At(StPingLock), at);
    var w4 := RefreshStep(cfg, w3, n, Second(StPingLock), at);
    w' := RefreshStep(cfg, w4, n, At(StShmRefresh), at);
    LocalJoin(cfg, w, step, w1, step, w2, n);
    LocalJoin(cfg, w, step + step, w2, step, w3, n);
    LocalJoin(cfg, w, step + step + step, w3, step, w4, n);
    LocalJoin(cfg, w, step + step + step + step, w4, step, w', n);
    actions := step + step + step + step + step;
  }

  /**
   The check before the stores does not keep a lapsed lock down.  In every configuration
   whose interval is at most the life of a lock there is a run that revives one: a node
   locks, checks its lock for a refresh in time, is held up until the lock has lapsed, and
   then stores the stamp it took before the check.
   */
  lemma LateStoreRevives(cfg: Config, w: World, n: nat) returns (actions: seq<Action>, late: World, w': World)
    requires cfg.lockInc >= 1 && 1 <= cfg.chkInterval <= cfg.sgRefresh
    requires Init(cfg, w) && n in w.nodes
    ensures Reaches(cfg, w, actions, late) && Lapsed(cfg, late, n)
    ensures Reaches(cfg, late, [Step(n, Fine(late.now))], w')
    ensures n in w'.nodes && LockedAt(cfg, w'.nodes[n].shm, w'.now)
  {
    hide Inv;
    hide SgMaxSeq;
    hide Reaches;
    InitInv(cfg, w);
    InitReads(cfg, w);
    InitUnlocked(cfg, w);
    var w1 := FirstBootLocks(cfg, w, n);
    var a2, w2 := RefreshBegins(cfg, w1, n);
    var a3, w3 := RefreshChecks(cfg, w2, n, w1.now);
    var rest := cfg.sgRefresh + 1 - cfg.chkInterval;
    TicksPass(cfg, w3, rest);
    late := w3.(now := w3.now + rest);
    ReachesJoin(cfg, w, BootRun(n, w.now), w1, a2, w2);
    ReachesJoin(cfg, w, BootRun(n, w.now) + a2, w2, a3, w3);
    ReachesJoin(cfg, w, BootRun(n, w.now) + a2 + a3, w3, Ticks(rest), late);
    actions := BootRun(n, w.now) + a2 + a3 + Ticks(rest);
    w' := SmoothRun(cfg, late, n);
  }
}
