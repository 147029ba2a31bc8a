/**
 How a provider process leaves: what an orderly exit and the two aborts release, and that a
 process whose run fails after its check takes its node's lock down first.
 */
module ClusterLeaving {
  import opened Common
  import opened LockSm
  import opened LockRuns
  import opened Cluster
  import opened ClusterInv
  import opened ClusterSafety
  import opened ClusterBound

  /**
   An orderly exit, from every reachable state: a process that has taken file 1 leaves it
   free and its node's lock flag down; one that has not leaves shared memory as it is.  The
   heartbeat file and the other nodes are not touched.
   */
  lemma ExitReleases(cfg: Config, w: World, n: nat)
    requires cfg.lockInc >= 1 && Reachable(cfg, w) && Shape(cfg, w) && Enabled(cfg, w, Exit(n))
    ensures var w' := Apply(cfg, w, Exit(n));
            && n in w'.nodes && w'.nodes[n].pc == Dead
            && w'.holder == (if w.holder == Some(n) then None else w.holder)
            && (w.holder == Some(n) ==> w.nodes[n].proc.locked1)
            && w'.nodes[n].shm == (if w.nodes[n].proc.locked1 then w.nodes[n].shm.(isLocked := false) else w.nodes[n].shm)
            && w'.disk == w.disk && w'.nodes == w.nodes[n := w'.nodes[n]]
  {
    hide Inv;
    hide Reachable;
    hide OwnerOk;
    hide DiskOk;
    ReachableHasInv(cfg, w);
    InvFacts(cfg, w, n);
  }

  /**
   The step that ends a failed run, from every reachable state: file 1 is free if the process
   had it, the process no longer thinks it has locked the group, and the node's lock flag is
   down after the one abort and as it was after the other.
   */
  lemma AbortReleases(cfg: Config, w: World, n: nat, input: Input)
    requires cfg.lockInc >= 1 && Reachable(cfg, w) && Shape(cfg, w)
    requires Enabled(cfg, w, Step(n, input)) && w.nodes[n].pc in {At(StAbort), At(StAbortUnlock)}
    ensures var w' := Apply(cfg, w, Step(n, input));
            && n in w'.nodes && w'.nodes[n].pc == Failed && !w'.nodes[n].proc.isLocked
            && w'.holder == (if w.holder == Some(n) then None else w.holder)
            && w'.nodes[n].shm ==
               (if w.nodes[n].pc == At(StAbortUnlock) then w.nodes[n].shm.(isLocked := false) else w.nodes[n].shm)
            && w'.disk == w.disk && w'.nodes == w.nodes[n := w'.nodes[n]]
  {
    hide Inv;
    hide Reachable;
    hide Apply;
    hide OwnerOk;
    hide DiskOk;
    ReachableHasInv(cfg, w);
    InvFacts(cfg, w, n);
    ApplyStep(cfg, w, n, input);
  }

  // ---------------------------------------------------------------------------
  // Failing after the check
  // ---------------------------------------------------------------------------

  /** Node `n` itself only goes on with its run; the rest is free. */
  predicate GoesOn(a: Action, n: nat) {
    a.Tick? || a.n != n || a.Step? || a.TakeDown?
  }

  /** Where a run can be whose check did not fail, and whether its node's lock flag may still be set. */
  predicate PastCheck(pc: Pc, shm: Shm) {
    match pc
    case At(st) =>
      if st in {StChkLLock, StPingLock, StShmRefresh, StAbortUnlock} then true
      else st in {StChkLUnlock, StChkMmon, StPingWait, StDoLock, StAbort} && !shm.isLocked
    case Second(st) => st == StPingLock || (st in {StPingWait, StDoLock} && !shm.isLocked)
    case Publishing => !shm.isLocked
    case Storing(st) => st == StShmRefresh || (st == StDoLock && !shm.isLocked)
    case Idle => true
    case Failed => !shm.isLocked
    case Dead => false
  }

  lemma StepPastCheck(cfg: Config, pc: Pc, v: View, n: nat, input: Input)
    requires Active(pc) && ProcPre(cfg, pc, v, n) && PastCheck(pc, v.shm)
    ensures var (v', next) := StepAt(cfg, pc, v, n, input);
            PastCheck(PcAfter(StateOf(pc), next), v'.shm)
  {
    hide CheckPeers;
    hide SgMaxSeq;
  }

  lemma ActionPastCheck(cfg: Config, w: World, n: nat, a: Action)
    requires Inv(cfg, w) && Enabled(cfg, w, a) && GoesOn(a, n)
    requires n in w.nodes && PastCheck(w.nodes[n].pc, w.nodes[n].shm)
    ensures n in Apply(cfg, w, a).nodes
    ensures PastCheck(Apply(cfg, w, a).nodes[n].pc, Apply(cfg, w, a).nodes[n].shm)
  {
    hide Inv;
    hide Apply;
    hide StepAt;
    hide PcAfter;
    hide OwnerOk;
    hide DiskOk;
    hide ProcOk;
    InvFacts(cfg, w, n);
    if a.Step? && a.n == n {
      ApplyStep(cfg, w, n, a.input);
      StepPastCheck(cfg, w.nodes[n].pc, ViewOf(w, n), n, a.input);
    } else if a.TakeDown? && a.n == n {
      TakenDown(cfg, w, n);
    } else {
      ApplyIsLocal(cfg, w, a);
    }
  }

  lemma TakenDown(cfg: Config, w: World, n: nat)
    requires Shape(cfg, w) && n in w.nodes
    ensures n in Apply(cfg, w, TakeDown(n)).nodes
    ensures Apply(cfg, w, TakeDown(n)).nodes[n] == w.nodes[n].(shm := w.nodes[n].shm.(isLocked := false))
  {
  }

  lemma {:induction false} PastCheckFrom(cfg: Config, w: World, actions: seq<Action>, w': World, n: nat)
    requires Inv(cfg, w) && Reaches(cfg, w, actions, w')
    requires n in w.nodes && PastCheck(w.nodes[n].pc, w.nodes[n].shm)
    requires forall i | 0 <= i < |actions| :: GoesOn(actions[i], n)
    ensures n in w'.nodes && PastCheck(w'.nodes[n].pc, w'.nodes[n].shm)
    decreases |actions|
  {
    hide Inv;
    hide Apply;
    hide Enabled;
    hide PastCheck;
    if actions != [] {
      assert GoesOn(actions[0], n);
      ActionPastCheck(cfg, w, n, actions[0]);
      ActionKeepsInv(cfg, w, actions[0]);
      PastCheckFrom(cfg, Apply(cfg, w, actions[0]), actions[1..], w', n);
    }
  }

  /**
   A run whose check found the group locked or unlocked, and that fails later, has taken its
   node's lock flag down, whatever the other nodes do and however long it takes.
   */
  lemma FailedIsUnlocked(cfg: Config, w: World, actions: seq<Action>, w': World, n: nat)
    requires cfg.lockInc >= 1 && Reachable(cfg, w) && Reaches(cfg, w, actions, w')
    requires n in w.nodes && w.nodes[n].pc in {At(StChkLLock), At(StChkLUnlock)}
    requires forall i | 0 <= i < |actions| :: GoesOn(actions[i], n)
    ensures n in w'.nodes
    ensures w'.nodes[n].pc == Failed ==> !w'.nodes[n].shm.isLocked
  {
    hide Inv;
    hide Reachable;
    hide Reaches;
    hide OwnerOk;
    hide DiskOk;
    ReachableHasInv(cfg, w);
    InvFacts(cfg, w, n);
    PastCheckFrom(cfg, w, actions, w', n);
  }

  // ---------------------------------------------------------------------------
  // A lock that was taken down
  // ---------------------------------------------------------------------------

  lemma StepRaises(cfg: Config, pc: Pc, v: View, n: nat, input: Input)
    requires Active(pc) && ValidView(cfg, v, n) && !v.shm.isLocked
    ensures StepAt(cfg, pc, v, n, input).0.shm.isLocked <==> pc == Storing(StDoLock)
  {
    hide CheckPeers;
    hide SgMaxSeq;
  }

  /** A node's lock flag goes up if and only if its process makes the stores of a takeover. */
  lemma FlagRaisedIff(cfg: Config, w: World, a: Action, n: nat)
    requires Shape(cfg, w) && Enabled(cfg, w, a) && n in w.nodes && !w.nodes[n].shm.isLocked
    ensures n in Apply(cfg, w, a).nodes
    ensures Apply(cfg, w, a).nodes[n].shm.isLocked <==> a.Step? && a.n == n && w.nodes[n].pc == Storing(StDoLock)
  {
    hide StepAt;
    hide PcAfter;
    if a.Step? || a.CrashWriting? {
      ShapeView(cfg, w, a.n);
      if a.n == n && Active(w.nodes[n].pc) {
        StepRaises(cfg, w.nodes[n].pc, ViewOf(w, n), n, a.input);
        StepRaises(cfg, w.nodes[n].pc, ViewOf(w, n), n, a.input.(write1 := FailedTorn, write2 := FailedTorn));
      }
    }
  }

  /**
   A lock that was taken down, by whomever and even between a refresh's check and its stores,
   stays down until the node's process takes the group over again.
   */
  lemma {:induction false} TakenDownStays(cfg: Config, w: World, actions: seq<Action>, w': World, n: nat)
    returns (i: nat, u: World)
    requires Reaches(cfg, w, actions, w') && n in w.nodes && !w.nodes[n].shm.isLocked
    requires n in w'.nodes && w'.nodes[n].shm.isLocked
    ensures i < |actions| && Reaches(cfg, w, actions[..i], u)
    ensures n in u.nodes && u.nodes[n].pc == Storing(StDoLock) && actions[i].Step? && actions[i].n == n
    decreases |actions|
  {
    hide Apply;
    hide Enabled;
    hide Shape;
    var w1 := Apply(cfg, w, actions[0]);
    FlagRaisedIff(cfg, w, actions[0], n);
    if w1.nodes[n].shm.isLocked {
      i, u := 0, w;
    } else {
      i, u := TakenDownStays(cfg, w1, actions[1..], w', n);
      i := i + 1;
      assert actions[..i][1..] == actions[1..][..i - 1];
    }
  }
}
