/**
 The locking state machine of a lock provider (exsinglesv/locksm.c, exsinglesv/lp.c),
 with the shared memory operations it calls (libnstd/singlegrp.c).

 One provider process runs on each node of a singleton group.  Ownership of the group
 is the advisory lock on file 1.  The owner keeps a heartbeat record in file 2 and
 publishes the lock to its node's shared memory.

 Every action is written as the steps between which time can pass and other nodes can
 act: the two copies of a ping are separate writes, publishing follows the boot script,
 and storing to shared memory follows the check that allows it.
 `Input` collects everything an action reads from outside the model.
 */
module LockSm {
  import opened Common

  // ---------------------------------------------------------------------------
  // The transition table
  // ---------------------------------------------------------------------------

  datatype Event = EvOk | EvLocked | EvUnlocked | EvErr | EvWait | EvBusy | EvAbort

  /** The value `ndrx_sm_run` hands back for an event that ends the machine. */
  function EventCode(ev: Event): int {
    match ev
    case EvOk => 0
    case EvLocked => 1
    case EvUnlocked => 2
    case EvErr => 3
    case EvWait => 4
    case EvBusy => 5
    case EvAbort => 6
  }

  datatype State =
    | StGetSinglegrp
    | StChkLLock
    | StChkLUnlock
    | StPingLock
    | StPingWait
    | StShmRefresh
    | StAbort
    | StAbortUnlock
    | StChkMmon
    | StDoLock

  datatype Target = Goto(st: State) | Return | Return0 | NoRow

  function Row(st: State, ev: Event): Target {
    match (st, ev)
    case (StGetSinglegrp, EvLocked) => Goto(StChkLLock)
    case (StGetSinglegrp, EvUnlocked) => Goto(StChkLUnlock)
    case (StGetSinglegrp, EvErr) => Goto(StAbort)
    case (StChkLLock, EvLocked) => Goto(StPingLock)
    case (StChkLLock, EvUnlocked) => Goto(StAbortUnlock)
    case (StChkLUnlock, EvLocked) => Goto(StAbort)
    case (StChkLUnlock, EvWait) => Goto(StPingWait)
    case (StChkLUnlock, EvUnlocked) => Goto(StChkMmon)
    case (StPingWait, EvOk) => Goto(StDoLock)
    case (StPingWait, EvErr) => Goto(StAbortUnlock)
    case (StPingLock, EvOk) => Goto(StShmRefresh)
    case (StPingLock, EvErr) => Goto(StAbortUnlock)
    case (StShmRefresh, EvOk) => Return0
    case (StShmRefresh, EvErr) => Goto(StAbortUnlock)
    case (StAbort, EvAbort) => Return
    case (StAbortUnlock, EvAbort) => Return
    case (StChkMmon, EvOk) => Goto(StDoLock)
    case (StChkMmon, EvBusy) => Return0
    case (StDoLock, EvOk) => Return0
    case (StDoLock, EvBusy) => Return0
    case (StDoLock, EvWait) => Return0
    case (StDoLock, EvErr) => Goto(StAbortUnlock)
    case _ => NoRow
  }

  /** Every row leads to a state of smaller rank, so no run of the machine can loop. */
  function Rank(st: State): nat {
    match st
    case StGetSinglegrp => 4
    case StChkLLock => 3
    case StChkLUnlock => 3
    case StPingLock => 2
    case StPingWait => 2
    case StChkMmon => 2
    case StShmRefresh => 1
    case StDoLock => 1
    case StAbort => 0
    case StAbortUnlock => 0
  }

  // ---------------------------------------------------------------------------
  // What a process sees
  // ---------------------------------------------------------------------------

  /** Group configuration; `nodes` lists all nodes of the group. */
  datatype Config = Config(nodes: seq<nat>, sgRefresh: int, chkInterval: int, lockedWait: int, lockInc: int, noRemote: bool)

  /** The process's own variables; `fd` says whether its descriptor of file 1 is open. */
  datatype Proc = Proc(pid: nat, locked1: bool, isLocked: bool, firstBoot: bool, waitCounter: int,
                       newRefresh: int, newSequence: int, fd: bool)

  /** The group entry in one node's shared memory. */
  datatype Shm = Shm(isLocked: bool, lastRefresh: int, sequence: int, pid: nat)

  /** One stored copy of a heartbeat record, as its readers see it. */
  datatype Cell = Torn | Good(sequence: int)

  datatype Copies = Copies(first: Cell, second: Cell)

  datatype Disk = Disk(present: bool, cells: map<nat, Copies>)

  /** Everything one action of a process on one node can read or change. */
  datatype View = View(proc: Proc, shm: Shm, disk: Disk, holder: Option<nat>)

  /** The answer of another node's provider to a lock query. */
  datatype Reply = CallFailed | NoBuffer | Malformed | Answer(locked: bool, sequence: int)

  /** How one 24-byte write ended; a write that fails can leave any of the three behind. */
  datatype WriteOutcome = Written | FailedUntouched | FailedTorn | FailedAfterWrite

  datatype Input = Input(now: int, groupFound: bool, replies: map<nat, Reply>, file1Error: bool,
                         write1: WriteOutcome, write2: WriteOutcome, mmon: bool, scriptOk: bool)

  ghost predicate ValidView(cfg: Config, v: View, me: nat) {
    && me in v.disk.cells
    && forall n | n in cfg.nodes :: n in v.disk.cells
  }

  // ---------------------------------------------------------------------------
  // Heartbeat records
  // ---------------------------------------------------------------------------

  /** A reader takes the first copy that passes its checksum. */
  function Readable(c: Copies): Option<int> {
    if c.first.Good? then Some(c.first.sequence)
    else if c.second.Good? then Some(c.second.sequence)
    else None
  }

  function CellAfter(cell: Cell, sequence: int, w: WriteOutcome): Cell {
    match w
    case Written => Good(sequence)
    case FailedUntouched => cell
    case FailedTorn => Torn
    case FailedAfterWrite => Good(sequence)
  }

  function WriteFirst(d: Disk, me: nat, sequence: int, w: WriteOutcome): Disk
    requires me in d.cells
  {
    var c := d.cells[me];
    Disk(true, d.cells[me := c.(first := CellAfter(c.first, sequence, w))])
  }

  function WriteSecond(d: Disk, me: nat, sequence: int, w: WriteOutcome): Disk
    requires me in d.cells
  {
    var c := d.cells[me];
    Disk(true, d.cells[me := c.(second := CellAfter(c.second, sequence, w))])
  }

  /** The highest readable sequence of `nodes`; `None` when one of them cannot be read. */
  function MaxSeqOf(cells: map<nat, Copies>, nodes: seq<nat>): Option<int>
    requires forall n | n in nodes :: n in cells
  {
    if nodes == [] then Some(0) else
    var k := |nodes| - 1;
    match MaxSeqOf(cells, nodes[..k])
    case None => None
    case Some(m) =>
      match Readable(cells[nodes[k]])
      case None => None
      case Some(s) => Some(Max(s, m))
  }

  /** Without a file the search ends at once with zero. */
  function SgMaxSeq(cfg: Config, d: Disk): Option<int>
    requires forall n | n in cfg.nodes :: n in d.cells
  {
    if d.present then MaxSeqOf(d.cells, cfg.nodes) else Some(0)
  }

  /** A failed search is reported as the sequence -1. */
  function SeqOrFail(m: Option<int>): int {
    match m
    case None => -1
    case Some(s) => s
  }

  lemma {:induction false} MaxSeqOfIsMaximum(cells: map<nat, Copies>, nodes: seq<nat>)
    requires forall n | n in nodes :: n in cells
    ensures MaxSeqOf(cells, nodes).None? <==> exists n :: n in nodes && Readable(cells[n]).None?
    ensures MaxSeqOf(cells, nodes).Some? ==> MaxSeqOf(cells, nodes).value >= 0
    ensures MaxSeqOf(cells, nodes).Some? ==>
              forall n | n in nodes :: Readable(cells[n]).value <= MaxSeqOf(cells, nodes).value
    ensures MaxSeqOf(cells, nodes).Some? && MaxSeqOf(cells, nodes).value > 0 ==>
              exists n :: n in nodes && Readable(cells[n]).value == MaxSeqOf(cells, nodes).value
    decreases |nodes|
  {
    if nodes != [] {
      var k := |nodes| - 1;
      MaxSeqOfIsMaximum(cells, nodes[..k]);
      assert forall n :: n in nodes <==> n in nodes[..k] || n == nodes[k];
    }
  }

  // ---------------------------------------------------------------------------
  // Shared memory
  // ---------------------------------------------------------------------------

  function Abs(x: int): int {
    if x < 0 then -x else x
  }

  /** The stamp is too old, or in the future by as much. */
  predicate Stale(cfg: Config, shm: Shm, now: int) {
    Abs(now - shm.lastRefresh) > cfg.sgRefresh
  }

  /** The lock is set and has not expired: what the rest of the node acts upon. */
  predicate LockedAt(cfg: Config, shm: Shm, now: int) {
    shm.isLocked && !Stale(cfg, shm, now)
  }

  function Unlocked(shm: Shm): Shm {
    shm.(isLocked := false)
  }

  // ---------------------------------------------------------------------------
  // Is the group locked?
  // ---------------------------------------------------------------------------

  datatype LockStatus = StatusFail | StatusTrue | StatusFalse

  datatype Verdict = PeerOk | PeerFail | PeerFences

  /** What one other node's answer, or its heartbeat record, says about our lock. */
  function CheckPeer(cfg: Config, disk: Disk, sequence: int, n: nat, reply: Reply): Verdict
    requires n in disk.cells
  {
    if !cfg.noRemote && reply.NoBuffer? then PeerFail
    else if !cfg.noRemote && reply.Malformed? then PeerFail
    else if !cfg.noRemote && reply.Answer? then
      if reply.locked || reply.sequence >= sequence then PeerFences else PeerOk
    else if !disk.present then PeerFail
    else
      match Readable(disk.cells[n])
      case None => PeerFail
      case Some(s) => if s >= sequence then PeerFences else PeerOk
  }

  function ReplyOf(input: Input, n: nat): Reply {
    if n in input.replies then input.replies[n] else CallFailed
  }

  /** Ask the peers in order; the first that objects ends the check. */
  function CheckPeers(cfg: Config, disk: Disk, sequence: int, me: nat, nodes: seq<nat>, input: Input): Verdict
    requires forall n | n in nodes :: n in disk.cells
  {
    if nodes == [] then PeerOk
    else if nodes[0] == me then CheckPeers(cfg, disk, sequence, me, nodes[1..], input)
    else
      var v := CheckPeer(cfg, disk, sequence, nodes[0], ReplyOf(input, nodes[0]));
      if v == PeerOk then CheckPeers(cfg, disk, sequence, me, nodes[1..], input) else v
  }

  /** The status and the shared memory afterwards: an expired or fenced lock is taken down. */
  function SgIsLocked(cfg: Config, v: View, me: nat, input: Input): (LockStatus, Shm)
    requires ValidView(cfg, v, me)
  {
    if !input.groupFound then (StatusFail, v.shm)
    else if !v.shm.isLocked then (StatusFalse, v.shm)
    else if Stale(cfg, v.shm, input.now) then (StatusFalse, Unlocked(v.shm))
    else
      match CheckPeers(cfg, v.disk, v.shm.sequence, me, cfg.nodes, input)
      case PeerOk => (StatusTrue, v.shm)
      case PeerFail => (StatusFail, v.shm)
      case PeerFences => (StatusFail, Unlocked(v.shm))
  }

  // ---------------------------------------------------------------------------
  // Actions
  // ---------------------------------------------------------------------------

  /** Where a step of an action leads: the action's event, or its next step. */
  datatype Next = Done(ev: Event) | SecondCopy | Publish | Store

  function GetSinglegrp(cfg: Config, v: View, me: nat, input: Input): (View, Next)
    requires ValidView(cfg, v, me)
  {
    var (status, shm) := SgIsLocked(cfg, v, me, input);
    var v' := v.(proc := v.proc.(newRefresh := input.now), shm := shm);
    match status
    case StatusFail => (v', Done(EvErr))
    case StatusTrue => (v', Done(EvLocked))
    case StatusFalse => (v', Done(EvUnlocked))
  }

  function ChkLLock(v: View): (View, Next) {
    if v.proc.isLocked then (v, Done(EvLocked))
    else if v.proc.locked1 then (v, Done(EvWait))
    else (v, Done(EvUnlocked))
  }

  /** The descriptor is open and no other process holds the region. */
  predicate ChkPid(v: View, me: nat, input: Input) {
    v.proc.fd && !input.file1Error && (v.holder == None || v.holder == Some(me))
  }

  function PingFirst(v: View, me: nat, input: Input): (View, Next)
    requires me in v.disk.cells
  {
    if !ChkPid(v, me, input) then (v, Done(EvErr))
    else
      var s := v.proc.newSequence + 1;
      var v' := v.(proc := v.proc.(newSequence := s), disk := WriteFirst(v.disk, me, s, input.write1));
      (v', if input.write1.Written? then SecondCopy else Done(EvErr))
  }

  function PingSecond(v: View, me: nat, input: Input): (View, Next)
    requires me in v.disk.cells
  {
    var v' := v.(disk := WriteSecond(v.disk, me, v.proc.newSequence, input.write2));
    (v', Done(if input.write2.Written? then EvOk else EvErr))
  }

  /** Before a refresh: the lock must be set, ours, and not expired; the stamp is stored only later. */
  function ShmRefresh(cfg: Config, v: View, input: Input): (View, Next) {
    if !v.shm.isLocked || v.shm.pid != v.proc.pid then (v, Done(EvErr))
    else if Stale(cfg, v.shm, input.now) then (v.(shm := Unlocked(v.shm)), Done(EvErr))
    else (v, Store)
  }

  function ChkMmon(v: View, input: Input): (View, Next) {
    (v, Done(if input.mmon then EvBusy else EvOk))
  }

  /** Take file 1 if we do not have it yet, find the next sequence and start the first ping. */
  function DoLockFirst(cfg: Config, v: View, me: nat, input: Input): (View, Next)
    requires ValidView(cfg, v, me)
  {
    if v.proc.locked1 then Decide(cfg, v)
    else if input.file1Error then (v, Done(EvErr))
    else if v.holder != None && v.holder != Some(me) then (v, Done(EvBusy))
    else
      var p := v.proc.(locked1 := true, fd := true);
      match SgMaxSeq(cfg, v.disk)
      case None => (v.(proc := p.(newSequence := -1), holder := Some(me)), Done(EvErr))
      case Some(m) =>
        var s := m + cfg.lockInc;
        var v' := v.(proc := p.(newSequence := s), holder := Some(me), disk := WriteFirst(v.disk, me, s, input.write1));
        (v', if input.write1.Written? then SecondCopy else Done(EvErr))
  }

  function DoLockSecond(cfg: Config, v: View, me: nat, input: Input): (View, Next)
    requires ValidView(cfg, v, me)
  {
    var v' := v.(disk := WriteSecond(v.disk, me, v.proc.newSequence, input.write2));
    if input.write2.Written? then Decide(cfg, v') else (v', Done(EvErr))
  }

  /** Lock at once on first boot, otherwise only after the configured number of runs. */
  function Decide(cfg: Config, v: View): (View, Next)
    requires forall n | n in cfg.nodes :: n in v.disk.cells
  {
    if v.proc.firstBoot then
      (v.(proc := v.proc.(isLocked := true)), Publish)
    else
      var p := v.proc.(waitCounter := v.proc.waitCounter + 1);
      if SeqOrFail(SgMaxSeq(cfg, v.disk)) != p.newSequence then (v.(proc := p), Done(EvErr))
      else if p.waitCounter > cfg.lockedWait then (v.(proc := p.(isLocked := true)), Publish)
      else (v.(proc := p), Done(EvWait))
  }

  /** After the boot script: the lock in shared memory must not be set already. */
  function DoPublish(v: View, input: Input): (View, Next) {
    if !input.scriptOk || v.shm.isLocked then (v, Done(EvErr)) else (v, Store)
  }

  /** Store stamp and sequence; a takeover sets the flag as well, a refresh leaves it as it is now. */
  function StoreLock(st: State, v: View): (View, Next) {
    var shm := if st == StDoLock then Shm(true, v.proc.newRefresh, v.proc.newSequence, v.proc.pid)
               else v.shm.(lastRefresh := v.proc.newRefresh, sequence := v.proc.newSequence);
    (v.(shm := shm), Done(EvOk))
  }

  /** Release file 1 and, when asked to, the shared memory lock. */
  function Uninit(v: View, me: nat, normal: bool, force: bool): View {
    var unlock := if v.proc.locked1 then normal || force else force;
    View(v.proc.(fd := v.proc.fd && !v.proc.locked1, isLocked := false),
         if unlock then Unlocked(v.shm) else v.shm,
         v.disk,
         if v.proc.locked1 && v.proc.fd && v.holder == Some(me) then None else v.holder)
  }

  /** The first step of the action of state `st`. */
  function StepFirst(cfg: Config, st: State, v: View, me: nat, input: Input): (View, Next)
    requires ValidView(cfg, v, me)
  {
    match st
    case StGetSinglegrp => GetSinglegrp(cfg, v, me, input)
    case StChkLLock => ChkLLock(v)
    case StChkLUnlock => ChkLLock(v)
    case StPingLock => PingFirst(v, me, input)
    case StPingWait => PingFirst(v, me, input)
    case StShmRefresh => ShmRefresh(cfg, v, input)
    case StAbort => (Uninit(v, me, false, false), Done(EvAbort))
    case StAbortUnlock => (Uninit(v, me, false, true), Done(EvAbort))
    case StChkMmon => ChkMmon(v, input)
    case StDoLock => DoLockFirst(cfg, v, me, input)
  }

  /** The step after the first copy of a ping, in the states that ping. */
  function StepSecond(cfg: Config, st: State, v: View, me: nat, input: Input): (View, Next)
    requires ValidView(cfg, v, me)
  {
    if st == StDoLock then DoLockSecond(cfg, v, me, input) else PingSecond(v, me, input)
  }

  // ---------------------------------------------------------------------------
  // Whole actions and whole runs, when nobody else acts in between
  // ---------------------------------------------------------------------------

  lemma StepFirstKeepsCells(cfg: Config, st: State, v: View, me: nat, input: Input)
    requires ValidView(cfg, v, me)
    ensures StepFirst(cfg, st, v, me, input).0.disk.cells.Keys == v.disk.cells.Keys
  {
  }

  lemma StepSecondKeepsCells(cfg: Config, st: State, v: View, me: nat, input: Input)
    requires ValidView(cfg, v, me)
    ensures StepSecond(cfg, st, v, me, input).0.disk.cells.Keys == v.disk.cells.Keys
  {
  }

  function Act(cfg: Config, st: State, v: View, me: nat, input: Input): (r: (View, Event))
    requires ValidView(cfg, v, me)
    ensures ValidView(cfg, r.0, me)
  {
    StepFirstKeepsCells(cfg, st, v, me, input);
    var (v1, n1) := StepFirst(cfg, st, v, me, input);
    StepSecondKeepsCells(cfg, st, v1, me, input);
    var (v2, n2) := if n1.SecondCopy? then StepSecond(cfg, st, v1, me, input) else (v1, n1);
    var (v3, n3) := if n2.Publish? then DoPublish(v2, input) else (v2, n2);
    var (v4, n4) := if n3.Store? then StoreLock(st, v3) else (v3, n3);
    (v4, if n4.Done? then n4.ev else EvErr)
  }

  /** How a run of the machine ends: with a code for the caller, or stuck on a missing row. */
  datatype RunEnd = Returned(code: int) | Stuck(st: State, ev: Event)

  lemma RowLowersRank(st: State, ev: Event)
    ensures Row(st, ev).Goto? ==> Rank(Row(st, ev).st) < Rank(st)
  {
  }

  function Run(cfg: Config, st: State, v: View, me: nat, inputs: State -> Input): (r: (View, RunEnd))
    requires ValidView(cfg, v, me)
    ensures ValidView(cfg, r.0, me)
    decreases Rank(st)
  {
    var (v', ev) := Act(cfg, st, v, me, inputs(st));
    RowLowersRank(st, ev);
    match Row(st, ev)
    case Goto(st') => Run(cfg, st', v', me, inputs)
    case Return => (v', Returned(EventCode(ev)))
    case Return0 => (v', Returned(0))
    case NoRow => (v', Stuck(st, ev))
  }
}
