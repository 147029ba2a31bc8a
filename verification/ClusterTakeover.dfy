/**
 A takeover, with everybody else doing as they like: it never locks before or after its
 turn, and if nothing fails on its own node it does lock.
 */
module ClusterTakeover {
  import opened Common
  import opened LockSm
  import opened LockRuns
  import opened Cluster
  import opened ClusterInv
  import opened ClusterClock
  import opened ClusterSafety
  import opened ClusterLapse
  import opened ClusterBound

  /** In every reachable state a waiting owner has counted exactly its runs since it took file 1. */
  lemma WaitCounterIsRuns(cfg: Config, w: World, n: nat)
    requires cfg.lockInc >= 1 && Reachable(cfg, w)
    requires n in w.nodes && w.holder == Some(n)
    ensures Waits(w.nodes[n].pc, w.nodes[n].proc) ==>
              w.nodes[n].proc.waitCounter == w.nodes[n].runs <= Max(0, cfg.lockedWait)
    ensures Locking(w.nodes[n].pc) && !w.nodes[n].proc.firstBoot ==> w.nodes[n].runs == Max(0, cfg.lockedWait)
  {
    hide Inv;
    hide Reachable;
    ReachableHasClock(cfg, w);
  }

  /** Node `n` itself only begins runs and makes steps in which nothing fails; the rest is free. */
  predicate Undisturbed(a: Action, n: nat) {
    a.Tick? || a.n != n || a.Begin? || a.TakeDown? || (a.Step? && Smooth(a.input))
  }

  /** Node `n` owns file 1, is not on its first boot, and has not set its lock. */
  predicate TakingOver(w: World, n: nat) {
    && n in w.nodes && w.holder == Some(n)
    && w.nodes[n].proc.locked1 && !w.nodes[n].proc.firstBoot && !w.nodes[n].shm.isLocked
    && (Waits(w.nodes[n].pc, w.nodes[n].proc) || Locking(w.nodes[n].pc))
  }

  /**
   Node `n` has ended the run that locks, and so the run after it is at least its second as
   holder of the lock; between the two, the lock in shared memory is its own, and set
   unless somebody took it down.
   */
  predicate TookOver(cfg: Config, w: World, n: nat, untouched: bool) {
    && n in w.nodes && w.nodes[n].proc.locked1
    && w.nodes[n].runs > Max(0, cfg.lockedWait)
    && (w.nodes[n].runs == Max(0, cfg.lockedWait) + 1 && w.nodes[n].pc == Idle ==>
          && w.nodes[n].proc.isLocked
          && w.nodes[n].shm.pid == w.nodes[n].proc.pid && w.nodes[n].shm.sequence == w.nodes[n].proc.newSequence
          && (untouched ==> w.nodes[n].shm.isLocked))
  }

  // ---------------------------------------------------------------------------
  // One step of the owner
  // ---------------------------------------------------------------------------

  /** What the step of a takeover leads to when nothing fails: further on, or the lock is set. */
  ghost predicate GoesOn(pc: Pc, v: View, n: nat, v': View, pc': Pc) {
    && v'.holder == Some(n) && v'.proc.locked1 && !v'.proc.firstBoot
    && if pc == Storing(StDoLock) then
         pc' == Idle && v'.proc.isLocked && v'.shm == Shm(true, v.proc.newRefresh, v'.proc.newSequence, v'.proc.pid)
       else
         !v'.shm.isLocked && (Waits(pc', v'.proc) || Locking(pc'))
  }

  ghost predicate StepPre(cfg: Config, pc: Pc, v: View, n: nat, top: int) {
    && ProcPre(cfg, pc, v, n) && n in cfg.nodes && v.holder == Some(n) && OwnerOk(cfg, n, pc, v.proc, v.disk, top)
    && v.proc.locked1 && !v.proc.firstBoot && !v.shm.isLocked
    && (Waits(pc, v.proc) || Locking(pc))
  }

  lemma DecisionGoesOn(cfg: Config, pc: Pc, v: View, n: nat, input: Input, top: int)
    requires pc in {At(StDoLock), Second(StDoLock)} && StepPre(cfg, pc, v, n, top) && Smooth(input)
    ensures var (v', next) := StepAt(cfg, pc, v, n, input);
            GoesOn(pc, v, n, v', PcAfter(StateOf(pc), next))
  {
    hide Decide;
    var s := v.proc.newSequence;
    var v1 := if pc.Second? then v.(disk := WriteSecond(v.disk, n, s, Written)) else v;
    assert v1.disk.cells[n] == Copies(Good(s), Good(s));
    DecideWaiting(cfg, v1, n);
  }

  lemma TakeoverGoesOn(cfg: Config, pc: Pc, v: View, n: nat, input: Input, top: int)
    requires Active(pc) && StepPre(cfg, pc, v, n, top) && Smooth(input)
    ensures var (v', next) := StepAt(cfg, pc, v, n, input);
            GoesOn(pc, v, n, v', PcAfter(StateOf(pc), next))
  {
    hide OwnerOk;
    hide Decide;
    hide CheckPeers;
    if pc in {At(StDoLock), Second(StDoLock)} {
      DecisionGoesOn(cfg, pc, v, n, input, top);
    }
  }

  /** A process that has taken file 1 never takes it again. */
  lemma TakesOnce(cfg: Config, pc: Pc, v: View, n: nat, input: Input)
    requires Active(pc) && ValidView(cfg, v, n) && v.proc.locked1
    ensures var (v', _) := StepAt(cfg, pc, v, n, input);
            v'.proc.locked1 && (v'.holder == v.holder || v'.holder == None)
  {
    hide CheckPeers;
    hide SgMaxSeq;
  }

  // ---------------------------------------------------------------------------
  // Whole runs
  // ---------------------------------------------------------------------------

  ghost predicate Clocked(cfg: Config, w: World) {
    Inv(cfg, w) && ClockInv(cfg, w)
  }

  lemma OwnStep(cfg: Config, w: World, n: nat, input: Input, untouched: bool)
    requires Clocked(cfg, w) && Enabled(cfg, w, Step(n, input)) && Smooth(input)
    requires TakingOver(w, n) || TookOver(cfg, w, n, untouched)
    ensures var w' := Apply(cfg, w, Step(n, input));
            TakingOver(w', n) || TookOver(cfg, w', n, untouched)
  {
    hide Inv;
    hide Apply;
    hide StepAt;
    hide PcAfter;
    InvFacts(cfg, w, n);
    ApplyStep(cfg, w, n, input);
    TakesOnce(cfg, w.nodes[n].pc, ViewOf(w, n), n, input);
    if TakingOver(w, n) {
      TakeoverGoesOn(cfg, w.nodes[n].pc, ViewOf(w, n), n, input, Top(w.published));
    }
  }

  /** What other nodes do leaves an owner as it is; so does a flag taken down that is not set yet. */
  lemma OtherAction(cfg: Config, w: World, n: nat, a: Action, untouched: bool)
    requires Clocked(cfg, w) && Enabled(cfg, w, a) && Undisturbed(a, n) && !(a.Step? && a.n == n)
    requires TakingOver(w, n) || TookOver(cfg, w, n, untouched)
    ensures var w' := Apply(cfg, w, a);
            TakingOver(w', n) || TookOver(cfg, w', n, untouched && a != TakeDown(n))
  {
    hide Inv;
    hide ClockInv;
    hide Apply;
    hide Enabled;
    hide NodeOk;
    hide OwnerOk;
    hide DiskOk;
    InvFacts(cfg, w, n);
    if a.Begin? && a.n == n {
      OwnPlain(cfg, w, n, a);
    } else if a.TakeDown? && a.n == n {
      OwnPlain(cfg, w, n, a);
    } else {
      ApplyIsLocal(cfg, w, a);
      if w.holder == Some(n) {
        HolderStays(cfg, w, n, a);
      }
    }
  }

  lemma OwnPlain(cfg: Config, w: World, n: nat, a: Action)
    requires Shape(cfg, w) && Enabled(cfg, w, a) && n in w.nodes && a in {Begin(n), TakeDown(n)}
    ensures var w' := Apply(cfg, w, a);
            && n in w'.nodes && w'.holder == w.holder && w'.nodes[n].proc == w.nodes[n].proc
            && w'.nodes[n].runs == w.nodes[n].runs
            && (a.Begin? ==> w.nodes[n].pc == Idle && w'.nodes[n].pc == At(StGetSinglegrp) && w'.nodes[n].shm == w.nodes[n].shm)
            && (a.TakeDown? ==> w'.nodes[n].pc == w.nodes[n].pc && w'.nodes[n].shm == Unlocked(w.nodes[n].shm))
  {
  }

  /** Only the holder itself gives up file 1. */
  lemma HolderStays(cfg: Config, w: World, n: nat, a: Action)
    requires Inv(cfg, w) && Enabled(cfg, w, a) && (a.Tick? || a.n != n) && w.holder == Some(n)
    ensures Apply(cfg, w, a).holder == Some(n)
  {
    hide Inv;
    hide StepAt;
    hide PcAfter;
    hide OwnerOk;
    hide DiskOk;
    if !a.Tick? {
      InvFacts(cfg, w, a.n);
      if a.Step? {
        StepOfNonOwner(cfg, w.nodes[a.n].pc, ViewOf(w, a.n), a.n, a.input);
      } else if a.CrashWriting? {
        var torn := a.input.(write1 := FailedTorn, write2 := FailedTorn);
        WritingIsQuiet(cfg, w.nodes[a.n].pc, ViewOf(w, a.n), a.n, a.input);
        StepOfNonOwner(cfg, w.nodes[a.n].pc, ViewOf(w, a.n), a.n, torn);
      }
    }
  }

  lemma {:induction false} TakeoverFrom(cfg: Config, w: World, actions: seq<Action>, w': World, n: nat, untouched: bool)
    requires Clocked(cfg, w) && Reaches(cfg, w, actions, w')
    requires forall i | 0 <= i < |actions| :: Undisturbed(actions[i], n)
    requires TakingOver(w, n) || TookOver(cfg, w, n, untouched)
    ensures Clocked(cfg, w')
    ensures TakingOver(w', n) || TookOver(cfg, w', n, untouched && TakeDown(n) !in actions)
    decreases |actions|
  {
    hide Inv;
    hide ClockInv;
    hide Apply;
    hide Enabled;
    hide TakingOver;
    hide TookOver;
    if actions == [] {
      TookOverWeakens(cfg, w, n, untouched);
    } else {
      var a := actions[0];
      ActionKeepsInv(cfg, w, a);
      ActionKeepsClock(cfg, w, a);
      assert Undisturbed(a, n);
      if a.Step? && a.n == n {
        OwnStep(cfg, w, n, a.input, untouched);
      } else {
        OtherAction(cfg, w, n, a, untouched);
      }
      var still := untouched && a != TakeDown(n);
      TakeoverFrom(cfg, Apply(cfg, w, a), actions[1..], w', n, still);
      assert TakeDown(n) in actions <==> a == TakeDown(n) || TakeDown(n) in actions[1..];
    }
  }

  lemma TookOverWeakens(cfg: Config, w: World, n: nat, untouched: bool)
    requires TakingOver(w, n) || TookOver(cfg, w, n, untouched)
    ensures TakingOver(w, n) || TookOver(cfg, w, n, untouched && TakeDown(n) !in [])
  {
  }

  /**
   A takeover locks on time.  From any reachable state in which node `n` owns file 1 and
   waits, through any run in which nothing fails on `n` itself and other nodes step, crash
   and start as they like: until `max(0, lockedWait)` runs have ended since file 1 was taken
   `n` keeps file 1 and its lock is not set, and when one more has ended it has set it.
   */
  lemma TakeoverLocksOnTime(cfg: Config, w: World, actions: seq<Action>, w': World, n: nat)
    requires cfg.lockInc >= 1 && Reachable(cfg, w) && Reaches(cfg, w, actions, w')
    requires n in w.nodes && w.holder == Some(n)
    requires Waits(w.nodes[n].pc, w.nodes[n].proc) && !w.nodes[n].proc.firstBoot
    requires forall i | 0 <= i < |actions| :: Undisturbed(actions[i], n)
    ensures n in w'.nodes
    ensures w'.nodes[n].runs <= Max(0, cfg.lockedWait) ==>
              && w'.holder == Some(n) && Live(w'.nodes[n].pc) && !Aborting(w'.nodes[n].pc)
              && !w'.nodes[n].shm.isLocked
    ensures w'.nodes[n].runs == Max(0, cfg.lockedWait) + 1 && w'.nodes[n].pc == Idle ==>
              && w'.nodes[n].proc.isLocked
              && w'.nodes[n].shm.pid == w'.nodes[n].proc.pid && w'.nodes[n].shm.sequence == w'.nodes[n].proc.newSequence
              && (TakeDown(n) !in actions ==> w'.nodes[n].shm.isLocked)
  {
    hide Inv;
    hide Reachable;
    hide Reaches;
    ReachableHasClock(cfg, w);
    InvFacts(cfg, w, n);
    TakeoverFrom(cfg, w, actions, w', n, true);
  }
}
