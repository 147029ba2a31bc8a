/**
 The client process monitor (cpmsrv/cpmsrv.c, cpmsrv/cltexec.c, cpmsrv/cltconfig.c,
 cpmsrv/cpmshm.c): it forks, watches and kills the configured client processes, and honours
 the locks of the singleton groups they belong to.  Each method does what its function in
 `ClientSpec` says; `trace` is the history of operations, `log` what they did outside.
 */
module ClientMonitor {
  import opened Common
  import opened ClientSpec
  import opened ClientRuns
  import opened ClientHistory

  // ---------------------------------------------------------------------------
  // A walk over the table that drops as it goes
  // ---------------------------------------------------------------------------

  function Dropped(w: World, i: nat): World
    requires i < |w.order|
  {
    w.(clients := w.clients - {w.order[i]}, order := w.order[..i] + w.order[i + 1..])
  }

  /** The clients left when the first `done` have been looked at. */
  function Remaining(w: World, done: nat): map<string, Client>
    requires done <= |w.order|
  {
    map k | k in w.clients && (k in w.order[done..] || Keeps(w.clients[k])) :: w.clients[k]
  }

  ghost predicate OrderSwept(w: World, order: seq<string>, i: nat, done: nat)
    requires ClientSpec.Valid(w)
  {
    && done <= |w.order| && i <= |order|
    && order[..i] == KeptKeys(w.order[..done], w.clients) && order[i..] == w.order[done..]
  }

  /** The first `done` clients of `w` have been looked at, `i` of them kept. */
  ghost predicate SweptTo(w: World, now: World, i: nat, done: nat)
    requires ClientSpec.Valid(w)
  {
    OrderSwept(w, now.order, i, done) && now.booted == w.booted && now.clients == Remaining(w, done)
  }

  lemma SweepBegins(w: World)
    requires ClientSpec.Valid(w)
    ensures SweptTo(w, w, 0, 0)
  {
    assert w.order[..0] == [] && w.order[0..] == w.order;
  }

  lemma OrderGoesOn(w: World, order: seq<string>, i: nat, done: nat)
    requires ClientSpec.Valid(w) && OrderSwept(w, order, i, done) && i < |order|
    ensures done < |w.order| && order[i] == w.order[done] && order[i] in w.clients
    ensures if Keeps(w.clients[order[i]]) then OrderSwept(w, order, i + 1, done + 1)
            else OrderSwept(w, order[..i] + order[i + 1..], i, done + 1)
  {
    var key, rest := order[i], w.order[done..];
    assert order[i..][0] == key;
    assert rest[0] == key && rest[1..] == w.order[done + 1..];
    assert w.order[done] in w.order;
    hide ClientSpec.Valid;
    assert w.order[..done + 1][..done] == w.order[..done];
    assert order[i + 1..] == order[i..][1..];
    if Keeps(w.clients[key]) {
      assert order[..i + 1] == order[..i] + [key];
    } else {
      var order' := order[..i] + order[i + 1..];
      assert order'[..i] == order[..i] && order'[i..] == order[i + 1..];
    }
  }

  lemma RestWithout(w: World, done: nat)
    requires ClientSpec.Valid(w) && done < |w.order|
    ensures w.order[done] in w.clients
    ensures forall k :: k in w.order[done + 1..] <==> k in w.order[done..] && k != w.order[done]
  {
    assert w.order[done] in w.order;
  }

  lemma ClientsGoOn(w: World, done: nat)
    requires ClientSpec.Valid(w) && done < |w.order|
    ensures w.order[done] in w.clients && w.order[done] in Remaining(w, done)
    ensures Remaining(w, done)[w.order[done]] == w.clients[w.order[done]]
    ensures Remaining(w, done + 1) ==
            if Keeps(w.clients[w.order[done]]) then Remaining(w, done) else Remaining(w, done) - {w.order[done]}
  {
    RestWithout(w, done);
    hide ClientSpec.Valid;
    assert w.order[done..][0] == w.order[done];
  }

  lemma SweepGoesOn(w: World, now: World, i: nat, done: nat)
    requires ClientSpec.Valid(w) && SweptTo(w, now, i, done) && i < |now.order|
    ensures now.order[i] in now.clients
    ensures if Keeps(now.clients[now.order[i]]) then SweptTo(w, now, i + 1, done + 1)
            else SweptTo(w, Dropped(now, i), i, done + 1)
  {
    hide ClientSpec.Valid;
    hide OrderSwept;
    hide Remaining;
    hide Keeps;
    OrderFits(w, now.order, i, done);
    OrderGoesOn(w, now.order, i, done);
    ClientsGoOn(w, done);
  }

  lemma OrderFits(w: World, order: seq<string>, i: nat, done: nat)
    requires ClientSpec.Valid(w) && OrderSwept(w, order, i, done)
    ensures done <= |w.order| && i <= |order|
  {
  }

  lemma SweepEnds(w: World, now: World, i: nat, done: nat)
    requires ClientSpec.Valid(w) && SweptTo(w, now, i, done) && i == |now.order|
    ensures now == Sweep(w) && ClientSpec.Valid(now)
  {
    assert now.order[i..] == [];
    assert w.order[..done] == w.order;
    assert now.order[..i] == now.order;
  }

  class Monitor {
    const singleton: set<nat>

    var order: seq<string>
    var clients: map<string, Client>
    var booted: set<nat>
    ghost var log: seq<Event>
    ghost var trace: seq<Op>

    constructor (singleton: set<nat>)
      ensures this.singleton == singleton && Valid() && Now() == EMPTY && log == [] && trace == []
    {
      this.singleton := singleton;
      order, clients, booted, log, trace := [], map[], {}, [], [];
    }

    function Now(): World
      reads this
    {
      World(order, clients, booted)
    }

    ghost predicate Known()
      reads this
    {
      ClientSpec.Valid(Now())
    }

    /** Between operations, the table and the log are what the history makes them. */
    ghost predicate Valid()
      reads this
    {
      Known() && Now() == After(singleton, trace) && log == AllEvents(singleton, trace)
    }

    /** An operation has been done; it becomes part of the history. */
    ghost method Record(op: Op, w: World)
      requires w == After(singleton, trace)
      requires Known() && Now() == Do(singleton, w, op).0
      requires log == AllEvents(singleton, trace) + Do(singleton, w, op).1
      modifies this`trace
      ensures Valid() && trace == old(trace) + [op]
    {
      hide Do;
      OneMoreOp(singleton, trace, op);
      trace := trace + [op];
    }

    // -------------------------------------------------------------------------
    // Exits and kills
    // -------------------------------------------------------------------------

    /** The first client in the order that is recorded with this pid, if any. */
    method GetClientByPid(pid: int) returns (key: Option<string>)
      requires Known()
      ensures key.None? ==> forall k | k in clients :: clients[k].dyn.pid != pid
      ensures key.Some? ==> exists i :: 0 <= i < |order| && order[i] == key.value && order[i] in clients && clients[order[i]].dyn.pid == pid &&
                              forall j | 0 <= j < i :: order[j] in clients && clients[order[j]].dyn.pid != pid
      ensures key == FirstWithPid(order, clients, pid)
    {
      for i := 0 to |order|
        invariant forall j | 0 <= j < i :: clients[order[j]].dyn.pid != pid
      {
        if clients[order[i]].dyn.pid == pid {
          FirstWithPidIff(order, clients, pid, i);
          return Some(order[i]);
        }
      }
      return None;
    }

    /** A child has exited or stopped. */
    method HandleChild(x: Exit)
      requires Known()
      modifies this`clients
      ensures Known() && Now() == ExitStep(old(Now()), x)
    {
      var key := GetClientByPid(x.pid);
      if key.Some? {
        var c := clients[key.value];
        clients := clients[key.value := c.(dyn := c.dyn.(cur := NotRun, exitStatus := x.status))];
      }
    }

    method HandleChildren(xs: seq<Exit>)
      requires Known()
      modifies this`clients
      ensures Known() && Now() == Exits(old(Now()), xs)
    {
      hide ClientSpec.Valid;
      hide SameRequests;
      hide ExitStep;
      for i := 0 to |xs|
        invariant Known() && Now() == Exits(old(Now()), xs[..i])
      {
        HandleChild(xs[i]);
        assert xs[..i + 1][..i] == xs[..i];
      }
      assert xs[..|xs|] == xs;
    }

    /** Kill a client whose group lock is lost, and notice that one that is not our child has gone. */
    method PidTest(key: string, locked: Option<set<nat>>, alive: bool)
      requires Known() && key in clients
      modifies this`clients, this`log
      ensures Known() && Now() == Look(old(Now()), key, alive)
      ensures log == old(log) + if locked.Some? then Test(old(Now()), Groups(singleton, locked.value), key, alive).1 else []
    {
      var c := clients[key];
      if locked.Some? && c.stat.group > 0 && c.stat.group in singleton && c.stat.group !in locked.value && c.dyn.cur == Started {
        log := log + [LockLost(key)];
      }
      if c.dyn.cur == Started && c.dyn.shmRead {
        if !alive {
          var status := if c.dyn.req == NotRun then 0 else -1;
          clients := clients[key := c.(dyn := c.dyn.(cur := NotRun, exitStatus := status))];
        }
      }
    }

    /**
     Interrupt, then terminate, then kill, each only if the client is still recorded as
     started after the wait for the one before.
     */
    method KillClient(key: string, env: KillEnv)
      requires Known() && key in clients
      modifies this`clients, this`log
      ensures Known() && Now() == Kill(old(Now()), key, env).0 && log == old(log) + Kill(old(Now()), key, env).1
    {
      hide ClientSpec.Valid;
      hide SameRequests;
      hide Exits;
      hide Look;
      log := log + [Signalled(key, SigInt)];
      HandleChildren(env.first);
      if clients[key].dyn.cur != Started {
        return;
      }
      log := log + [Signalled(key, SigTerm)];
      HandleChildren(env.second);
      PidTest(key, None, env.alive);
      if clients[key].dyn.cur != Started {
        return;
      }
      log := log + [Signalled(key, SigKill)];
      HandleChildren(env.third);
    }

    // -------------------------------------------------------------------------
    // The timer pass
    // -------------------------------------------------------------------------

    /** Try to start a client; `forked` is the pid of the new process, or -1. */
    method ExecClient(key: string, forked: int)
      requires Known() && key in clients
      modifies this`clients, this`log
      ensures Known() && Now() == Exec(old(Now()), key, forked).0 && log == old(log) + Exec(old(Now()), key, forked).1
    {
      var c := clients[key];
      clients := clients[key := c.(dyn := c.dyn.(wasStarted := true, shmRead := false))];
      log := log + [Attempt(key)];
      if forked != -1 {
        c := clients[key];
        clients := clients[key := c.(dyn := c.dyn.(pid := forked, cur := Started))];
        log := log + [Fork(key, forked)];
      }
    }

    /** The part of a turn that may start the client or kill it for its memory use. */
    method StartOrCheckClient(key: string, locked: set<nat>, v: Visit)
      requires Known() && key in clients
      modifies this`clients, this`log
      ensures var r := StartOrCheck(old(Now()), Groups(singleton, locked), key, v);
              Known() && Now() == r.0 && log == old(log) + r.1
    {
      hide Exec;
      hide Kill;
      var c := clients[key];
      if (c.dyn.cur == NotRun || c.dyn.cur == Starting || c.dyn.cur == Waiting) && c.dyn.req == Started {
        if c.stat.group > 0 && c.stat.group in singleton && c.stat.group !in locked {
          if c.dyn.cur != Waiting {
            clients := clients[key := c.(dyn := c.dyn.(cur := Waiting))];
          }
        } else {
          ExecClient(key, v.forked);
        }
      } else if c.dyn.cur == Started && (c.stat.rssMax != -1 || c.stat.vszMax != -1) {
        if OverLimit(c.stat, v.usage) {
          KillClient(key, v.kill);
        }
      }
    }

    /** One client's turn in the timer pass. */
    method VisitClient(key: string, locked: set<nat>, v: Visit)
      requires Known() && key in clients
      modifies this`clients, this`log
      ensures var r := Turn(old(Now()), Groups(singleton, locked), key, v);
              Known() && Now() == r.0 && log == old(log) + r.1
    {
      hide ClientSpec.Valid;
      hide SameRequests;
      hide Exits;
      hide Look;
      hide StartOrCheck;
      HandleChildren(v.before);
      StartOrCheckClient(key, locked, v);
      HandleChildren(v.after);
      PidTest(key, Some(locked), v.alive);
    }

    /** Mark the locked groups, numbered 1 to `groups`, as having their clients booted. */
    method MarkBooted(groups: nat, locked: set<nat>)
      modifies this`booted, this`log
      ensures booted == Marks(old(booted), locked, groups).0 && log == old(log) + Marks(old(booted), locked, groups).1
    {
      for g := 1 to groups + 1
        invariant booted == Marks(old(booted), locked, g - 1).0 && log == old(log) + Marks(old(booted), locked, g - 1).1
      {
        if g in locked && g !in booted {
          booted := booted + {g};
          log := log + [Marked(g)];
        }
      }
    }

    /** The periodic check, over the lock snapshot `locked`. */
    method TimerPass(groups: nat, locked: set<nat>, visits: seq<Visit>)
      requires Valid()
      modifies this
      ensures Valid() && trace == old(trace) + [Passing(groups, locked, visits)]
      ensures Now() == Pass(old(Now()), Groups(singleton, locked), groups, visits).0 && log == old(log) + Pass(old(Now()), Groups(singleton, locked), groups, visits).1
    {
      hide ClientSpec.Valid;
      hide SameRequests;
      hide Turn;
      hide Marks;
      hide After;
      hide AllEvents;
      ghost var w, g := Now(), Groups(singleton, locked);
      for i := 0 to |order|
        invariant Known() && order == w.order && trace == old(trace)
        invariant Now() == Turns(w, g, visits, i).0 && log == old(log) + Turns(w, g, visits, i).1
      {
        KnownKey(Now(), i);
        VisitClient(order[i], locked, if i < |visits| then visits[i] else QUIET);
      }
      ghost var w1, l1 := Now(), log;
      MarkBooted(groups, locked);
      assert Now() == w1.(booted := booted);
      PassParts(w, g, groups, visits);
      Record(Passing(groups, locked, visits), w);
    }

    /** The other thread reports an exit while no operation is running. */
    method ReportExit(x: Exit)
      requires Valid()
      modifies this
      ensures Valid() && trace == old(trace) + [Exiting(x)]
      ensures Now() == ExitStep(old(Now()), x) && log == old(log)
    {
      ghost var w := Now();
      HandleChild(x);
      Record(Exiting(x), w);
    }

    // -------------------------------------------------------------------------
    // Commands
    // -------------------------------------------------------------------------

    /** Set a client's request, and what it is doing if it is to run. */
    method SetRequest(key: string, run: bool)
      requires Known() && key in clients
      modifies this`clients
      ensures Known() && Now() == Ask(old(Now()), key, run)
    {
      var c := clients[key];
      if run {
        clients := clients[key := c.(dyn := c.dyn.(req := Started, cur := Starting))];
      } else {
        clients := clients[key := c.(dyn := c.dyn.(req := NotRun))];
      }
    }

    method StopNow(key: string, env: KillEnv) returns (found: bool)
      requires Known()
      modifies this`clients, this`log
      ensures Known() && Now() == Stop(old(Now()), key, env).0 && log == old(log) + Stop(old(Now()), key, env).1
      ensures found <==> key in old(clients)
    {
      hide ClientSpec.Valid;
      hide SameRequests;
      hide Kill;
      hide Ask;
      if key !in clients {
        return false;
      }
      var running := clients[key].dyn.cur == Started;
      SetRequest(key, false);
      if running {
        KillClient(key, env);
      }
      return true;
    }

    method BootNow(key: string) returns (found: bool)
      requires Known()
      modifies this`clients
      ensures Known() && Now() == Boot(old(Now()), key)
      ensures found <==> key in old(clients)
    {
      if key !in clients {
        return false;
      }
      if clients[key].dyn.cur != Started {
        SetRequest(key, true);
      }
      return true;
    }

    /** Ask a client to stop, and kill it if it is recorded as started. */
    method StopClient(key: string, env: KillEnv) returns (found: bool)
      requires Valid()
      modifies this
      ensures Valid() && trace == old(trace) + [Stopping(key, env)]
      ensures Now() == Stop(old(Now()), key, env).0 && log == old(log) + Stop(old(Now()), key, env).1
      ensures found <==> key in old(clients)
    {
      hide ClientSpec.Valid;
      hide SameRequests;
      hide Stop;
      hide After;
      hide AllEvents;
      ghost var w := Now();
      found := StopNow(key, env);
      Record(Stopping(key, env), w);
    }

    /** Ask a client to run.  The request is lost while the client is still recorded as started. */
    method BootClient(key: string) returns (found: bool)
      requires Valid()
      modifies this
      ensures Valid() && trace == old(trace) + [Booting(key)]
      ensures Now() == Boot(old(Now()), key) && log == old(log)
      ensures found <==> key in old(clients)
    {
      hide ClientSpec.Valid;
      hide SameRequests;
      hide Boot;
      hide After;
      hide AllEvents;
      ghost var w := Now();
      found := BootNow(key);
      assert log == old(log) + [];
      Record(Booting(key), w);
    }

    /** Restart a client that is asked to run: stop it, then boot it. */
    method RestartClient(key: string, env: KillEnv) returns (done: bool)
      requires Valid()
      modifies this
      ensures Valid() && trace == old(trace) + [Restarting(key, env)]
      ensures Now() == Restart(old(Now()), key, env).0 && log == old(log) + Restart(old(Now()), key, env).1
      ensures done <==> key in old(clients) && old(clients)[key].dyn.req == Started
    {
      hide ClientSpec.Valid;
      hide SameRequests;
      hide Stop;
      hide Boot;
      hide After;
      hide AllEvents;
      ghost var w := Now();
      done := key in clients && clients[key].dyn.req == Started;
      if done {
        var found := StopNow(key, env);
        found := BootNow(key);
      } else {
        assert log == old(log) + [];
      }
      Record(Restarting(key, env), w);
    }

    /** Ask every client to run that is configured to start with the monitor. */
    method StartAllClients()
      requires Valid()
      modifies this
      ensures Valid() && trace == old(trace) + [StartingAll]
      ensures Now() == StartAll(old(Now())) && log == old(log)
    {
      hide ClientSpec.Valid;
      hide SameRequests;
      hide Ask;
      hide After;
      hide AllEvents;
      ghost var w := Now();
      for i := 0 to |order|
        invariant Known() && order == w.order && trace == old(trace) && log == old(log)
        invariant Now() == StartFirst(w, i)
      {
        KnownKey(Now(), i);
        if clients[order[i]].stat.autoStart {
          SetRequest(order[i], true);
        }
      }
      assert log == old(log) + [];
      Record(StartingAll, w);
    }

    /** Take over the processes that shared memory says are running. */
    method SyncFromShm(found: map<string, int>)
      requires Valid()
      modifies this
      ensures Valid() && trace == old(trace) + [Attaching(found)]
      ensures Now() == Attach(old(Now()), found) && log == old(log)
    {
      hide ClientSpec.Valid;
      hide SameRequests;
      hide After;
      hide AllEvents;
      ghost var w := Now();
      for i := 0 to |order|
        invariant Known() && order == w.order && trace == old(trace) && log == old(log)
        invariant Now() == AttachFirst(w, found, i)
      {
        KnownKey(Now(), i);
        AttachOne(order[i], found);
      }
      assert log == old(log) + [];
      Record(Attaching(found), w);
    }

    method AttachOne(key: string, found: map<string, int>)
      requires Known() && key in clients
      modifies this`clients
      ensures Known() && order == old(order)
      ensures Now() == if key in found then Put(old(Now()), key, old(clients)[key].dyn.(cur := Started, pid := found[key], shmRead := true))
                       else old(Now())
    {
      if key in found {
        var c := clients[key];
        clients := clients[key := c.(dyn := c.dyn.(cur := Started, pid := found[key], shmRead := true))];
      }
    }

    // -------------------------------------------------------------------------
    // Configuration
    // -------------------------------------------------------------------------

    /** One entry of the configuration: a new client, or new settings for a known one. */
    method RefreshClient(key: string, stat: Stat)
      requires Known()
      modifies this`order, this`clients
      ensures Known() && Now() == Refresh(old(Now()), key, stat)
    {
      if key !in clients {
        clients := clients[key := Client(stat, FRESH, true)];
        order := order + [key];
      } else {
        clients := clients[key := clients[key].(stat := stat, refreshed := true)];
      }
    }

    method Unrefresh()
      requires Known()
      modifies this`clients
      ensures Known() && Now() == Unrefreshed(old(Now()))
    {
      ghost var was := clients;
      for i := 0 to |order|
        invariant clients.Keys == was.Keys && forall k :: k in order <==> k in clients
        invariant forall k | k in clients :: clients[k] == was[k] || clients[k] == was[k].(refreshed := false)
        invariant forall j | 0 <= j < i :: !clients[order[j]].refreshed
      {
        clients := clients[order[i] := clients[order[i]].(refreshed := false)];
      }
      assert clients == Unrefreshed(old(Now())).clients;
    }

    /** Drop the clients that are no longer configured and not running, in one walk over the table. */
    method SweepClients()
      requires Known()
      modifies this`order, this`clients
      ensures Known() && Now() == Sweep(old(Now()))
    {
      hide ClientSpec.Valid;
      hide SweptTo;
      hide Sweep;
      ghost var w := Now();
      ghost var done: nat := 0;
      var i := 0;
      SweepBegins(w);
      while i < |order|
        invariant i <= |order| && SweptTo(w, Now(), i, done)
        decreases |order| - i
      {
        SweepGoesOn(w, Now(), i, done);
        var key := order[i];
        if !clients[key].refreshed && clients[key].dyn.cur == NotRun {
          DropAt(i);
        } else {
          i := i + 1;
        }
        done := done + 1;
      }
      SweepEnds(w, Now(), i, done);
    }

    method DropAt(i: nat)
      requires i < |order|
      modifies this`order, this`clients
      ensures Now() == Dropped(old(Now()), i)
    {
      clients := clients - {order[i]};
      order := order[..i] + order[i + 1..];
    }

    /** Load a changed configuration; `entries` are those read, `complete` whether reading got to the end. */
    method LoadConfig(entries: seq<(string, Stat)>, complete: bool) returns (ok: bool)
      requires Valid()
      modifies this
      ensures Valid() && trace == old(trace) + [Reloading(entries, complete)] && ok == complete
      ensures Now() == Reload(old(Now()), entries, complete) && log == old(log)
    {
      hide ClientSpec.Valid;
      hide Refresh;
      hide Unrefreshed;
      hide Sweep;
      hide After;
      hide AllEvents;
      ghost var w := Now();
      Unrefresh();
      for i := 0 to |entries|
        invariant Known() && trace == old(trace) && log == old(log)
        invariant Now() == Refreshes(Unrefreshed(w), entries[..i])
      {
        RefreshClient(entries[i].0, entries[i].1);
        assert entries[..i + 1][..i] == entries[..i];
      }
      assert entries[..|entries|] == entries;
      if complete {
        SweepClients();
      }
      assert log == old(log) + [];
      Record(Reloading(entries, complete), w);
      return complete;
    }
  }

  /** Every client a monitor has ever forked was wanted at that moment of its history. */
  lemma ForksWereWanted(m: Monitor, key: string, pid: int) returns (i: nat)
    requires m.Valid() && Fork(key, pid) in m.log
    ensures i < |m.trace| && m.trace[i].Passing? && Fork(key, pid) in EventsAt(m.singleton, m.trace, i)
    ensures Wanted(m.singleton, m.trace[..i], key)
  {
    hide ClientSpec.Valid;
    hide Wanted;
    i := EventHasOp(m.singleton, m.trace, Fork(key, pid));
    ForkedOnlyIfWanted(m.singleton, m.trace, i, key, pid);
  }
}
