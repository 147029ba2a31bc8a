/**
 The lock provider process as it runs: its variables, updated in place by the actions of
 the locking state machine (exsinglesv/locksm.c, exsinglesv/filelock.c, exsinglesv/lp.c),
 and the loop that drives the machine (libnstd/exsm.c).

 Every method is proved against the functions of `LockSm`, about which the properties of
 whole runs and of the whole cluster are stated.
 */
module LockProvider {
  import opened Common
  import opened LockSm
  import opened LockRuns

  class Provider {
    const cfg: Config
    const me: nat

    // the process's configuration and state machine context
    var pid: nat
    var locked1: bool
    var isLocked: bool
    var firstBoot: bool
    var waitCounter: int
    var newRefresh: int
    var newSequence: int
    var fd: bool

    // what it shares with others
    var shm: Shm
    var present: bool
    var cells: map<nat, Copies>
    var holder: Option<nat>

    constructor (cfg: Config, me: nat, pid: nat, respawn: bool, shm: Shm, disk: Disk, holder: Option<nat>)
      ensures this.cfg == cfg && this.me == me
      ensures Sees() == View(Proc(pid, false, false, !respawn, 0, 0, 0, false), shm, disk, holder)
    {
      this.cfg, this.me, this.pid := cfg, me, pid;
      locked1, isLocked, firstBoot, waitCounter := false, false, !respawn, 0;
      newRefresh, newSequence, fd := 0, 0, false;
      this.shm, present, cells, this.holder := shm, disk.present, disk.cells, holder;
    }

    function Sees(): View
      reads this
    {
      View(Proc(pid, locked1, isLocked, firstBoot, waitCounter, newRefresh, newSequence, fd),
           shm, Disk(present, cells), holder)
    }

    ghost predicate Valid()
      reads this
    {
      ValidView(cfg, Sees(), me)
    }

    /** The highest sequence in the heartbeat file; -1 when a record cannot be read. */
    method SgMaxSeq() returns (r: int)
      requires Valid()
      ensures r == SeqOrFail(LockSm.SgMaxSeq(cfg, Sees().disk))
      ensures LockSm.SgMaxSeq(cfg, Sees().disk) == if r == -1 then None else Some(r)
    {
      MaxSeqOfIsMaximum(cells, []);
      r := 0;
      for i := 0 to |cfg.nodes|
        invariant r >= 0
        invariant LockSm.SgMaxSeq(cfg.(nodes := cfg.nodes[..i]), Sees().disk) == Some(r)
      {
        assert cfg.nodes[..i + 1][..i] == cfg.nodes[..i];
        if !present {
          return;
        }
        var own := Readable(cells[cfg.nodes[i]]);
        if own.None? {
          UnreadableFails(cells, cfg.nodes, cfg.nodes[i]);
          return -1;
        }
        if own.value > r {
          r := own.value;
        }
      }
      assert cfg.nodes[..|cfg.nodes|] == cfg.nodes;
    }

    /** Ask every other node in turn; an expired or fenced lock is taken down on the way. */
    method SgIsLocked(input: Input) returns (status: LockStatus)
      requires Valid()
      modifies this`shm
      ensures (status, shm) == LockSm.SgIsLocked(cfg, old(Sees()), me, input)
    {
      if !input.groupFound {
        return StatusFail;
      }
      if !shm.isLocked {
        return StatusFalse;
      }
      if Stale(cfg, shm, input.now) {
        shm := Unlocked(shm);
        return StatusFalse;
      }
      ghost var all := CheckPeers(cfg, Sees().disk, shm.sequence, me, cfg.nodes, input);
      for i := 0 to |cfg.nodes|
        invariant shm == old(shm)
        invariant all == CheckPeers(cfg, Sees().disk, shm.sequence, me, cfg.nodes[i..], input)
      {
        assert cfg.nodes[i..][0] == cfg.nodes[i] && cfg.nodes[i..][1..] == cfg.nodes[i + 1..];
        if cfg.nodes[i] != me {
          var v := CheckPeer(cfg, Disk(present, cells), shm.sequence, cfg.nodes[i], ReplyOf(input, cfg.nodes[i]));
          if v == PeerFail {
            return StatusFail;
          } else if v == PeerFences {
            shm := Unlocked(shm);
            return StatusFail;
          }
        }
      }
      return StatusTrue;
    }

    method GetSinglegrp(input: Input) returns (ev: Event)
      requires Valid()
      modifies this`newRefresh, this`shm
      ensures (Sees(), ev) == Act(cfg, StGetSinglegrp, old(Sees()), me, input)
    {
      ActGetSinglegrp(cfg, Sees(), me, input);
      newRefresh := input.now;
      ghost var before := Sees();
      var status := SgIsLocked(input);
      StampIsNotRead(cfg, old(Sees()), before, me, input);
      match status
      case StatusFail => return EvErr;
      case StatusTrue => return EvLocked;
      case StatusFalse => return EvUnlocked;
    }

    /**
     The same check after shared memory was found unlocked and after it was found locked: a
     process goes on where the two agree, and gives up where they do not.
     */
    method ChkLLock() returns (ev: Event)
      ensures Row(StChkLUnlock, ev) == Goto(StAbort) <==> isLocked
      ensures Row(StChkLUnlock, ev) == Goto(StPingWait) <==> locked1 && !isLocked
      ensures Row(StChkLUnlock, ev) == Goto(StChkMmon) <==> !locked1 && !isLocked
      ensures Row(StChkLLock, ev) == Goto(StPingLock) <==> isLocked
      ensures Row(StChkLLock, ev) == Goto(StAbortUnlock) <==> !locked1 && !isLocked
      ensures Row(StChkLLock, ev) == NoRow <==> locked1 && !isLocked
    {
      if isLocked {
        return EvLocked;
      } else if locked1 {
        return EvWait;
      } else {
        return EvUnlocked;
      }
    }

    /** Write both copies of this node's record, the second only after the first. */
    method PingDo(input: Input) returns (ok: bool)
      requires me in cells
      modifies this`present, this`cells
      ensures ok <==> input.write1.Written? && input.write2.Written?
      ensures Sees() == old(Sees()).(disk := PingedDisk(old(Sees().disk), me, newSequence, input))
    {
      cells := cells[me := cells[me].(first := CellAfter(cells[me].first, newSequence, input.write1))];
      present := true;
      if !input.write1.Written? {
        return false;
      }
      cells := cells[me := cells[me].(second := CellAfter(cells[me].second, newSequence, input.write2))];
      return input.write2.Written?;
    }

    method PingLock(input: Input) returns (ev: Event)
      requires Valid()
      modifies this`newSequence, this`present, this`cells
      ensures (Sees(), ev) == Act(cfg, StPingLock, old(Sees()), me, input)
      ensures (Sees(), ev) == Act(cfg, StPingWait, old(Sees()), me, input)
    {
      if !fd || input.file1Error || !(holder == None || holder == Some(me)) {
        return EvErr;
      }
      newSequence := newSequence + 1;
      var ok := PingDo(input);
      return if ok then EvOk else EvErr;
    }

    method ShmRefresh(input: Input) returns (ev: Event)
      requires Valid()
      modifies this`shm
      ensures (Sees(), ev) == Act(cfg, StShmRefresh, old(Sees()), me, input)
    {
      if !shm.isLocked || shm.pid != pid {
        return EvErr;
      }
      if Stale(cfg, shm, input.now) {
        shm := Unlocked(shm);
        return EvErr;
      }
      shm := shm.(lastRefresh := newRefresh, sequence := newSequence);
      return EvOk;
    }

    /** Release file 1 and, when asked to, the shared memory lock. */
    method Uninit(normal: bool, force: bool)
      modifies this`fd, this`holder, this`shm, this`isLocked
      ensures Sees() == LockSm.Uninit(old(Sees()), me, normal, force)
    {
      var unlock := false;
      if locked1 {
        if fd && holder == Some(me) {
          holder := None;
        }
        fd := false;
        if normal || force {
          unlock := true;
        }
      } else if force {
        unlock := true;
      }
      if unlock {
        shm := Unlocked(shm);
      }
      isLocked := false;
    }

    /** Take file 1, find the next sequence and make the first ping. */
    method Acquire(input: Input) returns (ev: Event)
      requires Valid() && !locked1
      modifies this`locked1, this`fd, this`holder, this`newSequence, this`present, this`cells
      ensures Valid()
      ensures ev == EvOk ==> ReadyToDecide(cfg, old(Sees()), me, input, Sees())
      ensures ev != EvOk ==> (Sees(), ev) == Act(cfg, StDoLock, old(Sees()), me, input)
    {
      hide LockSm.SgMaxSeq;
      hide Act;
      DoLockFails(cfg, Sees(), me, input);
      if input.file1Error {
        return EvErr;
      }
      if holder != None && holder != Some(me) {
        return EvBusy;
      }
      locked1, fd, holder := true, true, Some(me);
      newSequence := SgMaxSeq();
      if newSequence == -1 {
        return EvErr;
      }
      newSequence := newSequence + cfg.lockInc;
      var ok := PingDo(input);
      return if ok then EvOk else EvErr;
    }

    /** Lock at once on first boot, otherwise after enough runs, and then only if nobody has overtaken us. */
    method DecideNow() returns (next: Next)
      requires Valid()
      modifies this`isLocked, this`waitCounter
      ensures (Sees(), next) == Decide(cfg, old(Sees()))
    {
      if firstBoot {
        isLocked := true;
        return Publish;
      }
      var maxSeq := SgMaxSeq();
      waitCounter := waitCounter + 1;
      if newSequence != maxSeq {
        return Done(EvErr);
      }
      if waitCounter > cfg.lockedWait {
        isLocked := true;
        return Publish;
      }
      return Done(EvWait);
    }

    method DoLock(input: Input) returns (ev: Event)
      requires Valid()
      modifies this
      ensures (Sees(), ev) == Act(cfg, StDoLock, old(Sees()), me, input)
    {
      if !locked1 {
        ev := Acquire(input);
        if ev != EvOk {
          return;
        }
      }
      ghost var v := Sees();
      var next := DecideNow();
      DoLockIsDecide(cfg, old(Sees()), me, input, v);
      if next.Done? {
        return next.ev;
      }
      if !input.scriptOk || shm.isLocked {
        return EvErr;
      }
      shm := Shm(true, newRefresh, newSequence, pid);
      return EvOk;
    }

    /** The action of a state. */
    method Perform(st: State, input: Input) returns (ev: Event)
      requires Valid()
      modifies this
      ensures (Sees(), ev) == Act(cfg, st, old(Sees()), me, input)
    {
      match st
      case StGetSinglegrp => ev := GetSinglegrp(input);
      case StChkLLock => ev := ChkLLock();
      case StChkLUnlock => ev := ChkLLock();
      case StPingLock => ev := PingLock(input);
      case StPingWait => ev := PingLock(input);
      case StShmRefresh => ev := ShmRefresh(input);
      case StAbort => Uninit(false, false); ev := EvAbort;
      case StAbortUnlock => Uninit(false, true); ev := EvAbort;
      case StChkMmon => ev := if input.mmon then EvBusy else EvOk;
      case StDoLock => ev := DoLock(input);
    }

    /** One run of the machine; it returns -1 when an event has no row. */
    method SmRun(inputs: State -> Input) returns (code: int)
      requires Valid()
      modifies this
      ensures Valid()
      ensures var (v, end) := Run(cfg, StGetSinglegrp, old(Sees()), me, inputs);
              && Sees() == v
              && code == if end.Returned? then end.code else -1
    {
      hide Act;
      var st := StGetSinglegrp;
      while true
        invariant Valid()
        invariant Run(cfg, st, Sees(), me, inputs) == Run(cfg, StGetSinglegrp, old(Sees()), me, inputs)
        decreases Rank(st)
      {
        RunStep(cfg, st, Sees(), me, inputs);
        var ev := Perform(st, inputs(st));
        RowLowersRank(st, ev);
        match Row(st, ev)
        case Goto(st') => st := st';
        case Return => return EventCode(ev);
        case Return0 => return 0;
        case NoRow => return -1;
      }
    }
  }

  function PingedDisk(d: Disk, me: nat, s: int, input: Input): Disk
    requires me in d.cells
  {
    var d1 := WriteFirst(d, me, s, input.write1);
    if input.write1.Written? then WriteSecond(d1, me, s, input.write2) else d1
  }

  /** What taking file 1 leaves behind for the decision that follows. */
  ghost predicate ReadyToDecide(cfg: Config, v: View, me: nat, input: Input, v': View)
    requires ValidView(cfg, v, me)
  {
    && ValidView(cfg, v', me)
    && !input.file1Error && (v.holder == None || v.holder == Some(me))
    && input.write1.Written? && input.write2.Written?
    && LockSm.SgMaxSeq(cfg, v.disk).Some?
    && var s := LockSm.SgMaxSeq(cfg, v.disk).value + cfg.lockInc;
       v' == v.(proc := v.proc.(locked1 := true, fd := true, newSequence := s), holder := Some(me),
                disk := PingedDisk(v.disk, me, s, input))
  }

  /** How taking file 1 can fail, and what each failure leaves behind. */
  lemma DoLockFails(cfg: Config, v: View, me: nat, input: Input)
    requires ValidView(cfg, v, me) && !v.proc.locked1
    ensures var busy := v.holder != None && v.holder != Some(me);
            var p, m := v.proc.(locked1 := true, fd := true), LockSm.SgMaxSeq(cfg, v.disk);
            var written := input.write1.Written? && input.write2.Written?;
            && (input.file1Error ==> Act(cfg, StDoLock, v, me, input) == (v, EvErr))
            && (!input.file1Error && busy ==> Act(cfg, StDoLock, v, me, input) == (v, EvBusy))
            && (!input.file1Error && !busy && m.None? ==>
                  Act(cfg, StDoLock, v, me, input) == (v.(proc := p.(newSequence := -1), holder := Some(me)), EvErr))
            && (!input.file1Error && !busy && m.Some? && !written ==>
                  Act(cfg, StDoLock, v, me, input) ==
                  (v.(proc := p.(newSequence := m.value + cfg.lockInc), holder := Some(me),
                      disk := PingedDisk(v.disk, me, m.value + cfg.lockInc, input)), EvErr))
  {
  }

  lemma DoLockIsDecide(cfg: Config, v: View, me: nat, input: Input, v1: View)
    requires ValidView(cfg, v, me) && ValidView(cfg, v1, me)
    requires if v.proc.locked1 then v1 == v
             else ReadyToDecide(cfg, v, me, input, v1)
    ensures var (v2, next) := Decide(cfg, v1);
            var (v3, n3) := if next.Publish? then DoPublish(v2, input) else (v2, next);
            var (v4, n4) := if n3.Store? then StoreLock(StDoLock, v3) else (v3, n3);
            Act(cfg, StDoLock, v, me, input) == (v4, if n4.Done? then n4.ev else EvErr)
  {
    hide LockSm.SgMaxSeq;
  }

  lemma StampIsNotRead(cfg: Config, v: View, v': View, me: nat, input: Input)
    requires ValidView(cfg, v, me)
    requires v' == v.(proc := v.proc.(newRefresh := input.now))
    ensures LockSm.SgIsLocked(cfg, v', me, input) == LockSm.SgIsLocked(cfg, v, me, input)
  {
  }

  lemma UnreadableFails(cells: map<nat, Copies>, nodes: seq<nat>, n: nat)
    requires forall k | k in nodes :: k in cells
    requires n in nodes && Readable(cells[n]).None?
    ensures MaxSeqOf(cells, nodes) == None
  {
  }
}
