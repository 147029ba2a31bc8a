/**
 The invariant behind fencing: what every process, the heartbeat file and the history
 of published sequences satisfy in every reachable state of a cluster.
 */
module ClusterInv {
  import opened Common
  import opened LockSm
  import opened LockRuns
  import opened Cluster

  predicate Live(pc: Pc) {
    pc != Dead && pc != Failed
  }

  /** The states in which shared memory was found, and stays, unlocked. */
  predicate SeesUnlocked(pc: Pc) {
    || pc in {At(StChkLUnlock), At(StChkMmon), At(StPingWait), At(StDoLock)}
    || pc in {Second(StPingWait), Second(StDoLock), Publishing, Storing(StDoLock)}
  }

  /** What a process knows about itself, by where it is. */
  predicate ProcOk(pc: Pc, p: Proc, shm: Shm) {
    && (!Live(pc) ==> !p.fd)
    && (Live(pc) ==>
        && (p.locked1 <==> p.fd)
        && (p.isLocked ==> p.locked1)
        && (p.locked1 && !p.isLocked ==> !shm.isLocked))
    && (SeesUnlocked(pc) ==> !shm.isLocked)
    && (pc == At(StChkLLock) && p.locked1 ==> p.isLocked)
    && (pc in {At(StPingLock), Second(StPingLock), At(StShmRefresh), Publishing} || pc.Storing? ==> p.isLocked)
    && (pc.Storing? ==> pc.st in {StShmRefresh, StDoLock})
    && (pc in {At(StPingWait), Second(StPingWait)} ==> p.locked1 && !p.isLocked)
    && (pc in {At(StDoLock), Second(StDoLock)} ==> !p.isLocked)
    && (pc == At(StChkMmon) ==> !p.locked1)
    && (pc.Second? ==> p.locked1 && pc.st in {StPingLock, StPingWait, StDoLock})
    && (pc in {Idle, At(StGetSinglegrp)} && p.isLocked ==> shm.sequence == p.newSequence)
  }

  /** A process on its way out through an abort. */
  predicate Aborting(pc: Pc) {
    pc == At(StAbort) || pc == At(StAbortUnlock)
  }

  /** The owner has pinged its sequence in this run and not published it yet. */
  predicate Pinged(pc: Pc) {
    pc in {At(StShmRefresh), At(StDoLock), Publishing} || pc.Storing?
  }

  /** What holds of the owner of file 1: its record, and its place above everybody else's. */
  ghost predicate OwnerOk(cfg: Config, n: nat, pc: Pc, p: Proc, disk: Disk, top: int)
    requires n in disk.cells && forall m | m in cfg.nodes :: m in disk.cells
  {
    Live(pc) && !Aborting(pc) ==>
      && disk.present
      && p.newSequence > 0
      && disk.cells[n].first == Good(p.newSequence)
      && (!pc.Second? ==> disk.cells[n].second == Good(p.newSequence))
      && p.newSequence >= top
      && (pc.Second? || Pinged(pc) ==> p.newSequence > top)
      && Dominates(disk.cells, cfg.nodes, n, p.newSequence)
  }

  predicate CellAtLeast(c: Cell, bound: int) {
    c.Good? ==> c.sequence >= bound
  }

  /** Every copy that can be read is at least everything its node has published. */
  ghost predicate DiskOk(disk: Disk, floor: map<nat, int>, top: int) {
    && disk.cells.Keys == floor.Keys
    && (forall m | m in floor :: 0 <= floor[m] <= top)
    && (forall m | m in floor :: CellAtLeast(disk.cells[m].first, floor[m]) && CellAtLeast(disk.cells[m].second, floor[m]))
    && (top > 0 ==> exists m :: m in floor && floor[m] == top)
    && (!disk.present ==> top == 0 && forall m | m in floor :: disk.cells[m] == Copies(Good(0), Good(0)))
  }

  // ---------------------------------------------------------------------------
  // One step of one process
  // ---------------------------------------------------------------------------

  /** What a step of process `n` must leave behind for the process itself. */
  ghost predicate ProcStepOk(pc: Pc, v: View, n: nat, v': View, next: Next)
    requires Active(pc)
  {
    && ProcOk(PcAfter(StateOf(pc), next), v'.proc, v'.shm)
    && (v'.proc.fd <==> v'.holder == Some(n))
    && (v'.holder != v.holder ==> v.holder in {None, Some(n)} && v'.holder in {None, Some(n)})
    && (next.Done? ==> Row(StateOf(pc), next.ev) != NoRow)
  }

  ghost predicate ProcPre(cfg: Config, pc: Pc, v: View, n: nat) {
    && ValidView(cfg, v, n)
    && ProcOk(pc, v.proc, v.shm)
    && (v.proc.fd <==> v.holder == Some(n))
  }

  lemma CheckStates(cfg: Config, st: State, v: View, n: nat, input: Input)
    requires ProcPre(cfg, At(st), v, n)
    requires st !in {StPingLock, StPingWait, StDoLock}
    ensures var (v', next) := StepFirst(cfg, st, v, n, input);
            ProcStepOk(At(st), v, n, v', next) && v'.disk == v.disk
  {
    hide CheckPeers;
  }

  lemma PingStates(cfg: Config, st: State, v: View, n: nat, input: Input)
    requires ProcPre(cfg, At(st), v, n)
    requires st in {StPingLock, StPingWait}
    ensures var (v', next) := StepFirst(cfg, st, v, n, input);
            ProcStepOk(At(st), v, n, v', next)
  {
  }

  lemma DecideStates(cfg: Config, pc: Pc, v: View, n: nat)
    requires ProcPre(cfg, pc, v, n)
    requires pc in {At(StDoLock), Second(StDoLock)} && v.proc.locked1
    ensures var (v', next) := Decide(cfg, v);
            ProcStepOk(pc, v, n, v', next)
  {
  }

  lemma DoLockStates(cfg: Config, v: View, n: nat, input: Input)
    requires ProcPre(cfg, At(StDoLock), v, n)
    ensures var (v', next) := StepFirst(cfg, StDoLock, v, n, input);
            ProcStepOk(At(StDoLock), v, n, v', next)
  {
    hide SgMaxSeq;
    hide Decide;
    if v.proc.locked1 {
      DecideStates(cfg, At(StDoLock), v, n);
    }
  }

  lemma SecondStates(cfg: Config, st: State, v: View, n: nat, input: Input)
    requires ProcPre(cfg, Second(st), v, n)
    ensures var (v', next) := StepSecond(cfg, st, v, n, input);
            ProcStepOk(Second(st), v, n, v', next)
  {
    hide Decide;
    if st == StDoLock && input.write2.Written? {
      var v1 := v.(disk := WriteSecond(v.disk, n, v.proc.newSequence, Written));
      DecideStates(cfg, Second(st), v1, n);
    }
  }

  /** A step keeps what a process knows about itself, and never meets a missing row. */
  lemma StepKeepsProc(cfg: Config, pc: Pc, v: View, n: nat, input: Input)
    requires Active(pc) && ProcPre(cfg, pc, v, n)
    ensures var (v', next) := StepAt(cfg, pc, v, n, input);
            ProcStepOk(pc, v, n, v', next)
  {
    hide StepFirst;
    hide StepSecond;
    hide ProcStepOk;
    match pc
    case At(st) =>
      if st in {StPingLock, StPingWait} {
        PingStates(cfg, st, v, n, input);
      } else if st == StDoLock {
        DoLockStates(cfg, v, n, input);
      } else {
        CheckStates(cfg, st, v, n, input);
      }
    case Second(st) => SecondStates(cfg, st, v, n, input);
    case Publishing => PublishState(cfg, v, n, input);
    case Storing(st) => StoreState(cfg, st, v, n);
  }

  lemma StoreState(cfg: Config, st: State, v: View, n: nat)
    requires ProcPre(cfg, Storing(st), v, n)
    ensures var (v', next) := StoreLock(st, v);
            ProcStepOk(Storing(st), v, n, v', next)
  {
  }

  lemma PublishState(cfg: Config, v: View, n: nat, input: Input)
    requires ProcPre(cfg, Publishing, v, n)
    ensures var (v', next) := DoPublish(v, input);
            ProcStepOk(Publishing, v, n, v', next)
  {
  }

  /** A process that does not own file 1 neither writes the heartbeat file nor publishes. */
  lemma StepOfNonOwner(cfg: Config, pc: Pc, v: View, n: nat, input: Input)
    requires Active(pc) && ProcPre(cfg, pc, v, n)
    requires v.holder != None && v.holder != Some(n)
    ensures var (v', next) := StepAt(cfg, pc, v, n, input);
            && v'.disk == v.disk && v'.holder == v.holder
            && !pc.Storing?
  {
  }

  // ---------------------------------------------------------------------------
  // The owner's step: the file, the history, and its place above the others
  // ---------------------------------------------------------------------------

  /** The configuration's nodes are the ones with a record, and every takeover moves the sequence up. */
  ghost predicate ConfigOk(cfg: Config, floor: map<nat, int>) {
    && cfg.lockInc >= 1
    && forall m :: m in cfg.nodes <==> m in floor
  }

  ghost predicate OwnerPre(cfg: Config, pc: Pc, v: View, n: nat, floor: map<nat, int>, top: int) {
    && ProcPre(cfg, pc, v, n)
    && ConfigOk(cfg, floor)
    && DiskOk(v.disk, floor, top)
    && (v.holder == Some(n) ==> OwnerOk(cfg, n, pc, v.proc, v.disk, top))
  }

  /** What the step leaves behind, when it does not publish. */
  ghost predicate QuietOk(cfg: Config, pc: Pc, v: View, n: nat, floor: map<nat, int>, top: int) {
    && DiskOk(v.disk, floor, top)
    && ValidView(cfg, v, n)
    && (v.holder == Some(n) ==> OwnerOk(cfg, n, pc, v.proc, v.disk, top))
  }

  /** Writing a sequence above all published ones keeps the file in order. */
  lemma WriteKeepsDisk(disk: Disk, floor: map<nat, int>, top: int, n: nat, s: int, w: WriteOutcome)
    requires DiskOk(disk, floor, top) && n in disk.cells && s > top
    ensures DiskOk(WriteFirst(disk, n, s, w), floor, top)
    ensures DiskOk(WriteSecond(disk, n, s, w), floor, top)
    ensures WriteFirst(disk, n, s, w).cells.Keys == disk.cells.Keys
    ensures WriteSecond(disk, n, s, w).cells.Keys == disk.cells.Keys
  {
  }

  /** The sequence chosen at a takeover is above everything published and everything recorded. */
  lemma TakeoverSequence(cfg: Config, disk: Disk, floor: map<nat, int>, top: int, n: nat)
    requires ConfigOk(cfg, floor) && DiskOk(disk, floor, top)
    requires SgMaxSeq(cfg, disk).Some?
    ensures var s := SgMaxSeq(cfg, disk).value + cfg.lockInc;
            s > top && s > 0 && Dominates(disk.cells, cfg.nodes, n, s)
  {
    if disk.present {
      MaxSeqOfIsMaximum(disk.cells, cfg.nodes);
      var m := MaxSeqOf(disk.cells, cfg.nodes).value;
      MaxSeqDominates(disk.cells, cfg.nodes, n, m + cfg.lockInc);
      if top > 0 {
        var k :| k in floor && floor[k] == top;
        assert Readable(disk.cells[k]).value <= m;
      }
    }
  }

  /** A takeover that gets as far as the first copy. */
  lemma OwnerTakes(cfg: Config, v: View, n: nat, input: Input, floor: map<nat, int>, top: int)
    requires OwnerPre(cfg, At(StDoLock), v, n, floor, top) && !v.proc.locked1
    ensures var (v', next) := DoLockFirst(cfg, v, n, input);
            QuietOk(cfg, PcAfter(StDoLock, next), v', n, floor, top)
  {
    hide SgMaxSeq;
    hide DiskOk;
    hide Dominates;
    if SgMaxSeq(cfg, v.disk).Some? {
      TakeoverSequence(cfg, v.disk, floor, top, n);
      var s := SgMaxSeq(cfg, v.disk).value + cfg.lockInc;
      WriteKeepsDisk(v.disk, floor, top, n, s, input.write1);
      OwnWriteKeepsDominance(cfg, v.disk, n, s, s, input.write1);
    }
  }

  lemma OwnWriteKeepsDominance(cfg: Config, disk: Disk, n: nat, s: int, s': int, w: WriteOutcome)
    requires n in disk.cells && forall m | m in cfg.nodes :: m in disk.cells
    requires Dominates(disk.cells, cfg.nodes, n, s) && s <= s'
    ensures Dominates(WriteFirst(disk, n, s', w).cells, cfg.nodes, n, s')
    ensures Dominates(WriteSecond(disk, n, s', w).cells, cfg.nodes, n, s')
  {
  }

  lemma OwnerPings(cfg: Config, st: State, v: View, n: nat, input: Input, floor: map<nat, int>, top: int)
    requires OwnerPre(cfg, At(st), v, n, floor, top) && st in {StPingLock, StPingWait}
    ensures var (v', next) := PingFirst(v, n, input);
            QuietOk(cfg, PcAfter(st, next), v', n, floor, top)
  {
    hide DiskOk;
    hide Dominates;
    if ChkPid(v, n, input) {
      var s := v.proc.newSequence + 1;
      WriteKeepsDisk(v.disk, floor, top, n, s, input.write1);
      OwnWriteKeepsDominance(cfg, v.disk, n, v.proc.newSequence, s, input.write1);
    }
  }

  lemma OwnerDecides(cfg: Config, v: View, n: nat, floor: map<nat, int>, top: int)
    requires OwnerPre(cfg, At(StDoLock), v, n, floor, top) && v.proc.locked1
    ensures var (v', next) := Decide(cfg, v);
            QuietOk(cfg, PcAfter(StDoLock, next), v', n, floor, top)
  {
  }

  lemma OwnerFinishesPing(cfg: Config, st: State, v: View, n: nat, input: Input, floor: map<nat, int>, top: int)
    requires OwnerPre(cfg, Second(st), v, n, floor, top)
    ensures var (v', next) := StepSecond(cfg, st, v, n, input);
            QuietOk(cfg, PcAfter(st, next), v', n, floor, top)
  {
    hide Decide;
    hide DiskOk;
    hide Dominates;
    var s := v.proc.newSequence;
    var v1 := v.(disk := WriteSecond(v.disk, n, s, input.write2));
    WriteKeepsDisk(v.disk, floor, top, n, s, input.write2);
    OwnWriteKeepsDominance(cfg, v.disk, n, s, s, input.write2);
    if st == StDoLock && input.write2.Written? {
      assert OwnerPre(cfg, At(StDoLock), v1, n, floor, top);
      OwnerDecides(cfg, v1, n, floor, top);
    }
  }

  /** A step that does not publish keeps the file in order and the owner above the others. */
  lemma QuietStep(cfg: Config, pc: Pc, v: View, n: nat, input: Input, floor: map<nat, int>, top: int)
    requires Active(pc) && OwnerPre(cfg, pc, v, n, floor, top)
    requires !pc.Storing?
    ensures var (v', next) := StepAt(cfg, pc, v, n, input);
            QuietOk(cfg, PcAfter(StateOf(pc), next), v', n, floor, top)
  {
    hide Dominates;
    hide DiskOk;
    hide CheckPeers;
    match pc
    case At(st) =>
      if st in {StPingLock, StPingWait} {
        OwnerPings(cfg, st, v, n, input, floor, top);
      } else if st == StDoLock {
        if v.proc.locked1 {
          OwnerDecides(cfg, v, n, floor, top);
        } else {
          OwnerTakes(cfg, v, n, input, floor, top);
        }
      } else {
        CheckStates(cfg, st, v, n, input);
      }
    case Second(st) => OwnerFinishesPing(cfg, st, v, n, input, floor, top);
    case Publishing =>
  }

  /**
   A step that publishes is the owner's, and the sequence it publishes is above every
   sequence published before, with both copies of the owner's record already there.
   */
  lemma PublishingStep(cfg: Config, pc: Pc, v: View, n: nat, input: Input, floor: map<nat, int>, top: int)
    requires Active(pc) && OwnerPre(cfg, pc, v, n, floor, top)
    requires pc.Storing?
    ensures var (v', next) := StepAt(cfg, pc, v, n, input);
            var s := v.proc.newSequence;
            && v.holder == Some(n) && v'.holder == Some(n)
            && s > top && v'.proc.newSequence == s
            && QuietOk(cfg, PcAfter(StateOf(pc), next), v', n, floor[n := s], s)
  {
    hide Dominates;
    PublishKeepsDisk(v.disk, floor, top, n, v.proc.newSequence);
  }

  lemma PublishKeepsDisk(disk: Disk, floor: map<nat, int>, top: int, n: nat, s: int)
    requires DiskOk(disk, floor, top) && n in floor && s > top
    requires disk.present && disk.cells[n] == Copies(Good(s), Good(s))
    ensures DiskOk(disk, floor[n := s], s)
  {
  }

  // ---------------------------------------------------------------------------
  // The whole cluster
  // ---------------------------------------------------------------------------

  ghost predicate Increasing(h: seq<int>) {
    && (forall i | 0 <= i < |h| :: h[i] > 0)
    && forall i, j | 0 <= i < j < |h| :: h[i] < h[j]
  }

  /** The highest sequence published so far. */
  function Top(h: seq<int>): int {
    if h == [] then 0 else h[|h| - 1]
  }

  lemma IncreasingAppend(h: seq<int>, s: int)
    requires Increasing(h) && s > Top(h)
    ensures Increasing(h + [s]) && Top(h + [s]) == s
    ensures s > 0
  {
  }

  ghost predicate NodeOk(w: World, n: nat)
    requires n in w.nodes
  {
    && ProcOk(w.nodes[n].pc, w.nodes[n].proc, w.nodes[n].shm)
    && (w.nodes[n].proc.fd <==> w.holder == Some(n))
  }

  /** What a node's shared memory carries is zero or the last sequence the node published. */
  ghost predicate Stored(w: World, n: nat)
    requires n in w.nodes
  {
    && n in w.floor
    && w.nodes[n].shm.sequence in {0, w.floor[n]}
    && (w.floor[n] == 0 || w.floor[n] in w.published)
  }

  ghost predicate HolderOk(cfg: Config, w: World)
    requires Shape(cfg, w)
  {
    w.holder.Some? ==>
      var n := w.holder.value;
      && n in w.nodes
      && OwnerOk(cfg, n, w.nodes[n].pc, w.nodes[n].proc, w.disk, Top(w.published))
  }

  ghost predicate Inv(cfg: Config, w: World) {
    && Shape(cfg, w)
    && ConfigOk(cfg, w.floor)
    && Increasing(w.published)
    && DiskOk(w.disk, w.floor, Top(w.published))
    && (forall n | n in w.nodes :: NodeOk(w, n))
    && (forall n | n in w.nodes :: Stored(w, n))
    && HolderOk(cfg, w)
  }

  lemma InitInv(cfg: Config, w: World)
    requires Init(cfg, w) && cfg.lockInc >= 1
    ensures Inv(cfg, w)
  {
  }

  /** A change to one node and what it shares keeps the invariant if that node's part of it still holds. */
  lemma NodeChange(cfg: Config, w: World, w': World, n: nat)
    requires Inv(cfg, w) && n in w.nodes && n in w'.nodes
    requires w'.nodes == w.nodes[n := w'.nodes[n]]
    requires w'.disk.cells.Keys == w.disk.cells.Keys && w'.floor.Keys == w.floor.Keys
    requires forall m | m in w.floor && m != n :: w'.floor[m] == w.floor[m]
    requires Increasing(w'.published) && DiskOk(w'.disk, w'.floor, Top(w'.published))
    requires NodeOk(w', n) && Stored(w', n) && w.published <= w'.published
    requires w'.holder != w.holder ==> w.holder in {None, Some(n)} && w'.holder in {None, Some(n)}
    requires w'.holder.Some? && w'.holder != Some(n) ==> w'.disk == w.disk && w'.published == w.published
    requires w'.holder == Some(n) ==>
               n in w'.disk.cells && (forall m | m in cfg.nodes :: m in w'.disk.cells) &&
               OwnerOk(cfg, n, w'.nodes[n].pc, w'.nodes[n].proc, w'.disk, Top(w'.published))
    ensures Inv(cfg, w')
  {
    hide DiskOk;
    hide OwnerOk;
    hide ProcOk;
    hide Increasing;
    hide Shape;
    hide ConfigOk;
    assert w'.nodes.Keys == w.nodes.Keys;
    ShapeKept(cfg, w, w');
    forall m | m in w'.nodes && m != n
      ensures NodeOk(w', m) && Stored(w', m)
    {
      assert NodeOk(w, m) && Stored(w, m) && w'.nodes[m] == w.nodes[m];
    }
  }

  lemma ShapeKept(cfg: Config, w: World, w': World)
    requires Shape(cfg, w) && ConfigOk(cfg, w.floor)
    requires w'.nodes.Keys == w.nodes.Keys && w'.disk.cells.Keys == w.disk.cells.Keys && w'.floor.Keys == w.floor.Keys
    ensures Shape(cfg, w') && ConfigOk(cfg, w'.floor)
  {
  }

  lemma BootKeepsInv(cfg: Config, w: World, n: nat, respawn: bool)
    requires Inv(cfg, w) && Enabled(cfg, w, Boot(n, respawn))
    ensures Inv(cfg, Apply(cfg, w, Boot(n, respawn)))
  {
    hide DiskOk;
    hide OwnerOk;
    hide Increasing;
    hide Inv;
    InvFacts(cfg, w, n);
    NodeChange(cfg, w, Apply(cfg, w, Boot(n, respawn)), n);
  }

  /** The parts of the invariant that concern node `n`. */
  lemma InvFacts(cfg: Config, w: World, n: nat)
    requires Inv(cfg, w) && n in w.nodes
    ensures Shape(cfg, w) && ConfigOk(cfg, w.floor)
    ensures Increasing(w.published) && DiskOk(w.disk, w.floor, Top(w.published))
    ensures NodeOk(w, n) && Stored(w, n)
    ensures ValidView(cfg, ViewOf(w, n), n)
    ensures w.holder == Some(n) ==> OwnerOk(cfg, n, w.nodes[n].pc, w.nodes[n].proc, w.disk, Top(w.published))
  {
  }

  lemma InvShape(cfg: Config, w: World)
    requires Inv(cfg, w)
    ensures Shape(cfg, w)
  {
  }

  lemma DieKeepsInv(cfg: Config, w: World, n: nat)
    requires Inv(cfg, w) && n in w.nodes
    ensures Inv(cfg, Die(w, n))
  {
    hide DiskOk;
    hide OwnerOk;
    hide Increasing;
    hide Inv;
    InvFacts(cfg, w, n);
    NodeChange(cfg, w, Die(w, n), n);
  }

  lemma PlainActionsKeepInv(cfg: Config, w: World, a: Action)
    requires Inv(cfg, w) && Enabled(cfg, w, a)
    requires a.Begin? || a.TakeDown?
    ensures Inv(cfg, Apply(cfg, w, a))
  {
    hide DiskOk;
    hide Dominates;
    hide Increasing;
    hide Inv;
    InvFacts(cfg, w, a.n);
    NodeChange(cfg, w, Apply(cfg, w, a), a.n);
  }

  lemma TickKeepsInv(cfg: Config, w: World)
    requires Inv(cfg, w)
    ensures Inv(cfg, w.(now := w.now + 1))
  {
  }

  lemma ExitKeepsInv(cfg: Config, w: World, n: nat)
    requires Inv(cfg, w) && Enabled(cfg, w, Exit(n))
    ensures Inv(cfg, Apply(cfg, w, Exit(n)))
  {
    hide DiskOk;
    hide OwnerOk;
    hide Increasing;
    hide Inv;
    InvFacts(cfg, w, n);
    NodeChange(cfg, w, Apply(cfg, w, Exit(n)), n);
  }

  lemma RebootKeepsInv(cfg: Config, w: World, n: nat)
    requires Inv(cfg, w) && Enabled(cfg, w, Reboot(n))
    ensures Inv(cfg, Apply(cfg, w, Reboot(n)))
  {
    hide DiskOk;
    hide OwnerOk;
    hide Increasing;
    hide Inv;
    InvFacts(cfg, w, n);
    NodeChange(cfg, w, Apply(cfg, w, Reboot(n)), n);
  }

  /** A crash between the stores of a publish: some fields are new, the flag is not. */
  lemma CrashPublishingKeepsInv(cfg: Config, w: World, n: nat, sequenceStored: bool)
    requires Inv(cfg, w) && Enabled(cfg, w, CrashPublishing(n, sequenceStored))
    ensures Inv(cfg, Apply(cfg, w, CrashPublishing(n, sequenceStored)))
  {
    hide DiskOk;
    hide Dominates;
    hide Increasing;
    hide Inv;
    InvFacts(cfg, w, n);
    var s := w.nodes[n].proc.newSequence;
    if sequenceStored {
      IncreasingAppend(w.published, s);
      FloorHas(w.disk, w.floor, Top(w.published), n);
      PublishKeepsDisk(w.disk, w.floor, Top(w.published), n, s);
    }
    NodeChange(cfg, w, Apply(cfg, w, CrashPublishing(n, sequenceStored)), n);
  }

  lemma FloorHas(disk: Disk, floor: map<nat, int>, top: int, n: nat)
    requires DiskOk(disk, floor, top) && n in disk.cells
    ensures n in floor
  {
  }

  /** A crash inside a 24-byte write: that copy is torn, the process is gone. */
  lemma CrashWritingKeepsInv(cfg: Config, w: World, n: nat, input: Input)
    requires Inv(cfg, w) && Enabled(cfg, w, CrashWriting(n, input))
    ensures Inv(cfg, Apply(cfg, w, CrashWriting(n, input)))
  {
    hide DiskOk;
    hide OwnerOk;
    hide Increasing;
    hide Inv;
    hide StepFirst;
    hide StepSecond;
    hide ProcStepOk;
    hide ProcOk;
    hide DoPublish;
    hide SgMaxSeq;
    InvFacts(cfg, w, n);
    var pc, v := w.nodes[n].pc, ViewOf(w, n);
    var torn := input.(write1 := FailedTorn, write2 := FailedTorn);
    var (v', next) := StepAt(cfg, pc, v, n, torn);
    WritingIsQuiet(cfg, pc, v, n, input);
    QuietStep(cfg, pc, v, n, torn, w.floor, Top(w.published));
    StepKeepsProc(cfg, pc, v, n, torn);
    ProcStepFacts(pc, v, n, v', next);
    if v.holder != None && v.holder != Some(n) {
      StepOfNonOwner(cfg, pc, v, n, torn);
    }
    StepKeepsKeys(cfg, pc, v, n, torn);
    DeadIsOk(v'.proc.(fd := false), v'.shm);
    NodeChange(cfg, w, Apply(cfg, w, CrashWriting(n, input)), n);
  }

  lemma DeadIsOk(p: Proc, shm: Shm)
    requires !p.fd
    ensures ProcOk(Dead, p, shm)
  {
  }

  lemma ProcStepFacts(pc: Pc, v: View, n: nat, v': View, next: Next)
    requires Active(pc) && ProcStepOk(pc, v, n, v', next)
    ensures v'.proc.fd <==> v'.holder == Some(n)
    ensures v'.holder != v.holder ==> v.holder in {None, Some(n)} && v'.holder in {None, Some(n)}
  {
  }

  lemma WritingIsQuiet(cfg: Config, pc: Pc, v: View, n: nat, input: Input)
    requires ValidView(cfg, v, n) && WritesNow(cfg, v, n, pc, input)
    ensures Active(pc) && !pc.Storing?
    ensures StepAt(cfg, pc, v, n, input.(write1 := FailedTorn, write2 := FailedTorn)).0.shm == v.shm
  {
  }

  lemma StepKeepsKeys(cfg: Config, pc: Pc, v: View, n: nat, input: Input)
    requires Active(pc) && ValidView(cfg, v, n)
    ensures StepAt(cfg, pc, v, n, input).0.disk.cells.Keys == v.disk.cells.Keys
  {
  }

  /** Only a step that publishes changes the sequence in shared memory. */
  lemma QuietStepKeepsSequence(cfg: Config, pc: Pc, v: View, n: nat, input: Input)
    requires Active(pc) && ValidView(cfg, v, n)
    ensures var (v', next) := StepAt(cfg, pc, v, n, input);
            v'.shm.sequence == if pc.Storing? then v.proc.newSequence else v.shm.sequence
  {
  }

  /** `w'` is what a step of node `n` makes of `w`. */
  ghost predicate StepMade(cfg: Config, w: World, n: nat, input: Input, w': World)
    requires n in w.nodes && Active(w.nodes[n].pc) && ValidView(cfg, ViewOf(w, n), n)
  {
    var node := w.nodes[n];
    var (v', next) := StepAt(cfg, node.pc, ViewOf(w, n), n, input);
    var pc' := PcAfter(StateOf(node.pc), next);
    && n in w'.nodes && w'.nodes == w.nodes[n := w'.nodes[n]]
    && w'.now == w.now && w'.holder == v'.holder && w'.disk == v'.disk
    && w'.acquired == (if Acquires(w, n, v') then w.now else w.acquired)
    && w'.nodes[n].pc == pc' && w'.nodes[n].shm == v'.shm
    && w'.nodes[n].proc == (if Active(pc') then v'.proc else v'.proc.(firstBoot := false))
    && w'.nodes[n].lastEnd == (if Active(pc') then node.lastEnd else w.now)
    && w'.nodes[n].runs == (if Acquires(w, n, v') then 0 else node.runs) + (if Active(pc') then 0 else 1)
    && w'.published == (if node.pc.Storing? then w.published + [v'.proc.newSequence] else w.published)
    && w'.floor == (if node.pc.Storing? then w.floor[n := v'.proc.newSequence] else w.floor)
  }

  lemma ApplyStep(cfg: Config, w: World, n: nat, input: Input)
    requires Shape(cfg, w) && Enabled(cfg, w, Step(n, input)) && ValidView(cfg, ViewOf(w, n), n)
    ensures StepMade(cfg, w, n, input, Apply(cfg, w, Step(n, input)))
  {
    hide Shape;
    hide ValidView;
    hide StepAt;
    hide PcAfter;
  }

  /** Whether a run has ended makes no difference to what a process knows about itself. */
  lemma FirstBootIsIgnored(cfg: Config, n: nat, pc: Pc, p: Proc, shm: Shm, disk: Disk, top: int)
    requires n in disk.cells && forall m | m in cfg.nodes :: m in disk.cells
    ensures ProcOk(pc, p.(firstBoot := false), shm) == ProcOk(pc, p, shm)
    ensures OwnerOk(cfg, n, pc, p.(firstBoot := false), disk, top) == OwnerOk(cfg, n, pc, p, disk, top)
  {
  }

  lemma StepKeepsInv(cfg: Config, w: World, n: nat, input: Input)
    requires Inv(cfg, w) && Enabled(cfg, w, Step(n, input))
    ensures Inv(cfg, Apply(cfg, w, Step(n, input)))
  {
    hide Inv;
    hide DiskOk;
    hide OwnerOk;
    hide ProcOk;
    hide Increasing;
    hide StepAt;
    hide PcAfter;
    hide Apply;
    InvFacts(cfg, w, n);
    ApplyStep(cfg, w, n, input);
    var pc, v, top, w' := w.nodes[n].pc, ViewOf(w, n), Top(w.published), Apply(cfg, w, Step(n, input));
    var (v', next) := StepAt(cfg, pc, v, n, input);
    StepKeepsProc(cfg, pc, v, n, input);
    StepKeepsKeys(cfg, pc, v, n, input);
    QuietStepKeepsSequence(cfg, pc, v, n, input);
    FirstBootIsIgnored(cfg, n, PcAfter(StateOf(pc), next), v'.proc, v'.shm, v'.disk, Top(w'.published));
    if pc.Storing? {
      PublishingStep(cfg, pc, v, n, input, w.floor, top);
      IncreasingAppend(w.published, v.proc.newSequence);
      FloorHas(w.disk, w.floor, top, n);
    } else {
      QuietStep(cfg, pc, v, n, input, w.floor, top);
      if v.holder != None && v.holder != Some(n) {
        StepOfNonOwner(cfg, pc, v, n, input);
      }
    }
    NodeChange(cfg, w, w', n);
  }

  /** Every step of a cluster keeps the invariant. */
  lemma ActionKeepsInv(cfg: Config, w: World, a: Action)
    requires Inv(cfg, w) && Enabled(cfg, w, a)
    ensures Inv(cfg, Apply(cfg, w, a))
  {
    hide Inv;
    hide Enabled;
    match a
    case Tick => TickKeepsInv(cfg, w);
    case Boot(n, respawn) => BootKeepsInv(cfg, w, n, respawn);
    case Begin(n) => PlainActionsKeepInv(cfg, w, a);
    case Step(n, input) => StepKeepsInv(cfg, w, n, input);
    case Crash(n) => CrashKeepsInv(cfg, w, n);
    case CrashWriting(n, input) => CrashWritingKeepsInv(cfg, w, n, input);
    case CrashPublishing(n, sequenceStored) => CrashPublishingKeepsInv(cfg, w, n, sequenceStored);
    case Exit(n) => ExitKeepsInv(cfg, w, n);
    case TakeDown(n) => PlainActionsKeepInv(cfg, w, a);
    case Reboot(n) => RebootKeepsInv(cfg, w, n);
  }

  lemma CrashKeepsInv(cfg: Config, w: World, n: nat)
    requires Inv(cfg, w) && Enabled(cfg, w, Crash(n))
    ensures Inv(cfg, Apply(cfg, w, Crash(n)))
  {
    hide Inv;
    DieKeepsInv(cfg, w, n);
  }

  lemma {:induction false} ReachableInv(cfg: Config, w: World, actions: seq<Action>, w': World)
    requires Inv(cfg, w) && Reaches(cfg, w, actions, w')
    ensures Inv(cfg, w')
    decreases |actions|
  {
    hide Inv;
    hide Enabled;
    hide Apply;
    if actions != [] {
      ActionKeepsInv(cfg, w, actions[0]);
      ReachableInv(cfg, Apply(cfg, w, actions[0]), actions[1..], w');
    }
  }

  // ---------------------------------------------------------------------------
  // Fencing
  // ---------------------------------------------------------------------------

  /**
   Fencing order.  Over every run of the cluster, with any number of crashes at any point,
   the sequences stored to shared memory, on whatever node, strictly increase.
   */
  lemma FencingOrder(cfg: Config, w: World, actions: seq<Action>, w': World)
    requires cfg.lockInc >= 1
    requires Init(cfg, w) && Reaches(cfg, w, actions, w')
    ensures forall i, j | 0 <= i < j < |w'.published| :: w'.published[i] < w'.published[j]
    ensures forall n | n in w'.nodes :: w'.nodes[n].shm.sequence == 0 || w'.nodes[n].shm.sequence in w'.published
  {
    hide Reaches;
    hide DiskOk;
    hide OwnerOk;
    hide ProcOk;
    InitInv(cfg, w);
    ReachableInv(cfg, w, actions, w');
    forall n | n in w'.nodes
      ensures w'.nodes[n].shm.sequence == 0 || w'.nodes[n].shm.sequence in w'.published
    {
      assert Stored(w', n);
    }
  }
}
