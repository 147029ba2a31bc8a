/**
 All nodes of a singleton group at once: their lock provider processes, their shared
 memory, the heartbeat file and the lock on file 1, under one clock.

 A step is one step of one process's current action (see `LockSm`), a crash at any
 point including inside a write, a process start or exit, somebody else on a node
 taking its lock flag down, a node losing its shared memory, or a tick of the clock.  Any interleaving is a run.
 */
module Cluster {
  import opened Common
  import opened LockSm
  import opened LockRuns

  // ---------------------------------------------------------------------------
  // State
  // ---------------------------------------------------------------------------

  /**
   Where a process is: not running, between runs, before the action of a state, between
   the two copies of that action's ping, before the check that precedes setting the lock,
   between a check and its stores to shared memory, or after a failed run.
   */
  datatype Pc = Dead | Idle | At(st: State) | Second(st: State) | Publishing | Storing(st: State) | Failed

  /** `lastEnd` is when the last run ended, `runs` how many have ended since file 1 was taken. */
  datatype Node = Node(pc: Pc, proc: Proc, shm: Shm, lastEnd: int, runs: int)

  /**
   `published` lists every sequence ever stored to some node's shared memory, oldest
   first; `floor` is the last one each node stored; `acquired` is when file 1 was last
   taken; `pids` numbers the processes started so far.
   */
  datatype World = World(now: int, holder: Option<nat>, disk: Disk, nodes: map<nat, Node>,
                         published: seq<int>, floor: map<nat, int>, acquired: int, pids: nat)

  datatype Action =
    | Tick
    | Boot(n: nat, respawn: bool)
    | Begin(n: nat)
    | Step(n: nat, input: Input)
    | Crash(n: nat)
    | CrashWriting(n: nat, input: Input)
    | CrashPublishing(n: nat, sequenceStored: bool)
    | Exit(n: nat)
    | TakeDown(n: nat)
    | Reboot(n: nat)

  function ViewOf(w: World, n: nat): View
    requires n in w.nodes
  {
    View(w.nodes[n].proc, w.nodes[n].shm, w.disk, w.holder)
  }

  /** The step of node `n` that led to view `v` took file 1. */
  predicate Acquires(w: World, n: nat, v: View) {
    v.holder == Some(n) && w.holder != Some(n)
  }

  /** Put back what a step of node `n` changed; a new holder of file 1 is noted with the time. */
  function PutBack(w: World, n: nat, v: View, pc: Pc, lastEnd: int, runs: int): World
    requires n in w.nodes
  {
    var node := Node(pc, v.proc, v.shm, lastEnd, runs);
    w.(holder := v.holder, disk := v.disk, nodes := w.nodes[n := node],
       acquired := if Acquires(w, n, v) then w.now else w.acquired)
  }

  /** Record that node `n` stored sequence `s` in its shared memory. */
  function Record(w: World, n: nat, s: int): World {
    w.(published := w.published + [s], floor := w.floor[n := s])
  }

  /** Where a process goes when its action in `st` has come to `next`. */
  function PcAfter(st: State, next: Next): Pc {
    match next
    case SecondCopy => Second(st)
    case Publish => Publishing
    case Store => Storing(st)
    case Done(ev) =>
      match Row(st, ev)
      case Goto(st') => At(st')
      case Return => Failed
      case Return0 => Idle
      case NoRow => Failed
  }

  predicate Active(pc: Pc) {
    pc.At? || pc.Second? || pc.Publishing? || pc.Storing?
  }

  /** The state whose action a process is in. */
  function StateOf(pc: Pc): State
    requires Active(pc)
  {
    if pc.Publishing? then StDoLock else pc.st
  }

  /** The step of a process at `pc`. */
  function StepAt(cfg: Config, pc: Pc, v: View, n: nat, input: Input): (View, Next)
    requires Active(pc) && ValidView(cfg, v, n)
  {
    match pc
    case At(st) => StepFirst(cfg, st, v, n, input)
    case Second(st) => StepSecond(cfg, st, v, n, input)
    case Publishing => DoPublish(v, input)
    case Storing(st) => StoreLock(st, v)
  }

  function NewProc(pid: nat, respawn: bool): Proc {
    Proc(pid, false, false, !respawn, 0, 0, 0, false)
  }

  // ---------------------------------------------------------------------------
  // Steps
  // ---------------------------------------------------------------------------

  ghost predicate Shape(cfg: Config, w: World) {
    && (forall n :: n in cfg.nodes <==> n in w.nodes)
    && w.disk.cells.Keys == w.nodes.Keys
    && w.floor.Keys == w.nodes.Keys
  }

  lemma ShapeView(cfg: Config, w: World, n: nat)
    requires Shape(cfg, w) && n in w.nodes
    ensures ValidView(cfg, ViewOf(w, n), n)
  {
  }

  /** A process crashes inside a write of its current ping step. */
  predicate WritesNow(cfg: Config, v: View, n: nat, pc: Pc, input: Input)
    requires ValidView(cfg, v, n)
  {
    match pc
    case At(st) => StepFirst(cfg, st, v, n, input.(write1 := Written)).1 == SecondCopy
    case Second(st) => true
    case _ => false
  }

  ghost predicate Enabled(cfg: Config, w: World, a: Action)
    requires Shape(cfg, w)
  {
    match a
    case Tick => true
    case Boot(n, _) => n in w.nodes && w.nodes[n].pc == Dead
    case Begin(n) => n in w.nodes && w.nodes[n].pc == Idle && w.now >= w.nodes[n].lastEnd + cfg.chkInterval
    case Step(n, input) => n in w.nodes && Active(w.nodes[n].pc) && input.now == w.now
    case Crash(n) => n in w.nodes
    case CrashWriting(n, input) =>
      n in w.nodes && input.now == w.now &&
      (ShapeView(cfg, w, n); WritesNow(cfg, ViewOf(w, n), n, w.nodes[n].pc, input))
    case CrashPublishing(n, _) =>
      n in w.nodes && w.nodes[n].pc.Storing?
    case Exit(n) => n in w.nodes && (w.nodes[n].pc == Failed || w.nodes[n].pc == Idle)
    case TakeDown(n) => n in w.nodes
    case Reboot(n) => n in w.nodes
  }

  /** Process death: the descriptor is closed and with it the lock on file 1. */
  function Die(w: World, n: nat): World
    requires n in w.nodes
  {
    var node := w.nodes[n];
    w.(nodes := w.nodes[n := node.(pc := Dead, proc := node.proc.(fd := false))],
       holder := if w.holder == Some(n) then None else w.holder)
  }

  ghost function Apply(cfg: Config, w: World, a: Action): World
    requires Shape(cfg, w) && Enabled(cfg, w, a)
  {
    match a
    case Tick => w.(now := w.now + 1)
    case Boot(n, respawn) =>
      var node := w.nodes[n].(pc := At(StGetSinglegrp), proc := NewProc(w.pids, respawn));
      w.(nodes := w.nodes[n := node], pids := w.pids + 1)
    case Begin(n) =>
      w.(nodes := w.nodes[n := w.nodes[n].(pc := At(StGetSinglegrp))])
    case Step(n, input) =>
      ShapeView(cfg, w, n);
      var node := w.nodes[n];
      var (v, next) := StepAt(cfg, node.pc, ViewOf(w, n), n, input);
      var pc := PcAfter(StateOf(node.pc), next);
      var runs := if Acquires(w, n, v) then 0 else node.runs;
      // a run that ends is not the first one any more
      var w' := if Active(pc) then PutBack(w, n, v, pc, node.lastEnd, runs)
                else PutBack(w, n, v.(proc := v.proc.(firstBoot := false)), pc, w.now, runs + 1);
      if node.pc.Storing? then Record(w', n, v.proc.newSequence) else w'
    case Crash(n) => Die(w, n)
    case CrashWriting(n, input) =>
      ShapeView(cfg, w, n);
      var torn := input.(write1 := FailedTorn, write2 := FailedTorn);
      var node := w.nodes[n];
      var (v, _) := StepAt(cfg, node.pc, ViewOf(w, n), n, torn);
      Die(PutBack(w, n, v, node.pc, node.lastEnd, node.runs), n)
    case CrashPublishing(n, sequenceStored) =>
      var node := w.nodes[n];
      var shm := node.shm.(lastRefresh := node.proc.newRefresh);
      if sequenceStored then
        var w' := w.(nodes := w.nodes[n := node.(shm := shm.(sequence := node.proc.newSequence))]);
        Die(Record(w', n, node.proc.newSequence), n)
      else
        Die(w.(nodes := w.nodes[n := node.(shm := shm)]), n)
    case Exit(n) =>
      var v := Uninit(ViewOf(w, n), n, true, false);
      Die(PutBack(w, n, v, Dead, w.nodes[n].lastEnd, w.nodes[n].runs), n)
    case TakeDown(n) =>
      w.(nodes := w.nodes[n := w.nodes[n].(shm := Unlocked(w.nodes[n].shm))])
    case Reboot(n) =>
      Die(w.(nodes := w.nodes[n := w.nodes[n].(shm := Shm(false, 0, 0, 0))]), n)
  }

  // ---------------------------------------------------------------------------
  // Runs
  // ---------------------------------------------------------------------------

  /** Nobody runs, nothing is locked, the heartbeat file does not exist. */
  ghost predicate Init(cfg: Config, w: World) {
    && Shape(cfg, w)
    && w.now >= 0 && w.acquired <= w.now
    && w.holder == None
    && w.disk == Disk(false, map n | n in w.nodes :: Copies(Good(0), Good(0)))
    && w.published == []
    && w.floor == (map n | n in w.nodes :: 0)
    && forall n | n in w.nodes ::
         && w.nodes[n].pc == Dead && w.nodes[n].proc == NewProc(0, true) && w.nodes[n].lastEnd <= w.now
         && w.nodes[n].shm == Shm(false, 0, 0, 0)
  }

  /** `actions`, in this order, lead from `w` to `w'`. */
  ghost predicate Reaches(cfg: Config, w: World, actions: seq<Action>, w': World)
    decreases |actions|
  {
    if actions == [] then w' == w
    else Shape(cfg, w) && Enabled(cfg, w, actions[0]) && Reaches(cfg, Apply(cfg, w, actions[0]), actions[1..], w')
  }
}
