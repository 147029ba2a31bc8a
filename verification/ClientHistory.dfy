/**
 Histories of the client monitor: any sequence of commands, timer passes, exits and
 reloads, from its start.  Every client's request is the latest effective one, only wanted
 clients are forked, and no reload drops or alters a client that is doing anything.
 */
module ClientHistory {
  import opened Common
  import opened ClientSpec
  import opened ClientRuns

  datatype Op =
    | Booting(key: string)
    | Stopping(key: string, env: KillEnv)
    | Restarting(key: string, env: KillEnv)
    | Passing(groups: nat, locked: set<nat>, visits: seq<Visit>)
    | Exiting(x: Exit)
    | Reloading(entries: seq<(string, Stat)>, complete: bool)
    | StartingAll
    | Attaching(found: map<string, int>)

  function Do(singleton: set<nat>, w: World, op: Op): (r: (World, seq<Event>))
    requires Valid(w)
    ensures Valid(r.0)
  {
    match op
    case Booting(key) => (Boot(w, key), [])
    case Stopping(key, env) => Stop(w, key, env)
    case Restarting(key, env) => Restart(w, key, env)
    case Passing(groups, locked, visits) => Pass(w, Groups(singleton, locked), groups, visits)
    case Exiting(x) => (ExitStep(w, x), [])
    case Reloading(entries, complete) => (Reload(w, entries, complete), [])
    case StartingAll => (StartAll(w), [])
    case Attaching(found) => (Attach(w, found), [])
  }

  /** The client table after a history; it starts empty. */
  function After(singleton: set<nat>, ops: seq<Op>): (w: World)
    ensures Valid(w)
    decreases |ops|
  {
    if ops == [] then EMPTY else Do(singleton, After(singleton, ops[..|ops| - 1]), ops[|ops| - 1]).0
  }

  /** What operation `i` of a history does to the surroundings. */
  function EventsAt(singleton: set<nat>, ops: seq<Op>, i: nat): seq<Event>
    requires i < |ops|
  {
    Do(singleton, After(singleton, ops[..i]), ops[i]).1
  }

  /** Everything a history does to the surroundings, in order. */
  function AllEvents(singleton: set<nat>, ops: seq<Op>): seq<Event>
    decreases |ops|
  {
    if ops == [] then [] else AllEvents(singleton, ops[..|ops| - 1]) + EventsAt(singleton, ops, |ops| - 1)
  }

  lemma OneMoreOp(singleton: set<nat>, ops: seq<Op>, op: Op)
    ensures After(singleton, ops + [op]) == Do(singleton, After(singleton, ops), op).0
    ensures AllEvents(singleton, ops + [op]) == AllEvents(singleton, ops) + Do(singleton, After(singleton, ops), op).1
  {
    hide Valid;
    hide Do;
    assert (ops + [op])[..|ops|] == ops && (ops + [op])[|ops|] == op;
  }

  /** Whatever a history does is done by one of its operations. */
  lemma {:induction false} EventHasOp(singleton: set<nat>, ops: seq<Op>, e: Event) returns (i: nat)
    requires e in AllEvents(singleton, ops)
    ensures i < |ops| && e in EventsAt(singleton, ops, i)
    decreases |ops|
  {
    hide Valid;
    hide Do;
    var n := |ops| - 1;
    if e in AllEvents(singleton, ops[..n]) {
      i := EventHasOp(singleton, ops[..n], e);
      assert ops[..n][..i] == ops[..i];
    } else {
      i := n;
    }
  }

  // ---------------------------------------------------------------------------
  // The latest effective request
  // ---------------------------------------------------------------------------

  /** Whether the client is wanted after an operation, when it was `wanted` before. */
  ghost predicate WantedBy(w: World, op: Op, key: string, wanted: bool)
    requires Valid(w)
  {
    match op
    case Booting(k) => wanted || (k == key && key in w.clients && w.clients[key].dyn.cur != Started)
    case Stopping(k, _) => wanted && !(k == key && key in w.clients)
    case Restarting(k, env) => wanted && !(k == key && key in w.clients && Survives(w, key, env))
    case StartingAll => wanted || (key in w.clients && w.clients[key].stat.autoStart)
    case Reloading(entries, complete) => wanted && key in w.clients && !Drops(w, entries, complete, key)
    case Passing(_, _, _) => wanted
    case Exiting(_) => wanted
    case Attaching(_) => wanted
  }

  /** The reload is complete, does not list the client, and the client is not doing anything. */
  predicate Drops(w: World, entries: seq<(string, Stat)>, complete: bool, key: string)
    requires key in w.clients
  {
    complete && !Configured(entries, key) && w.clients[key].dyn.cur == NotRun
  }

  predicate Configured(entries: seq<(string, Stat)>, key: string) {
    exists i :: 0 <= i < |entries| && entries[i].0 == key
  }

  /**
   The latest effective request for the client is to run.  A boot has no effect on a client
   recorded as started, a restart none on one that is not wanted; a restarted client that
   survives the stop is not wanted any more.
   */
  ghost predicate Wanted(singleton: set<nat>, ops: seq<Op>, key: string)
    decreases |ops|
  {
    if ops == [] then false
    else
      var n := |ops| - 1;
      WantedBy(After(singleton, ops[..n]), ops[n], key, Wanted(singleton, ops[..n], key))
  }

  // ---------------------------------------------------------------------------
  // Reloads
  // ---------------------------------------------------------------------------

  /** The settings for the key: those of its last entry. */
  function Settings(entries: seq<(string, Stat)>, key: string): Stat
    requires Configured(entries, key)
  {
    var n := |entries| - 1;
    if entries[n].0 == key then entries[n].1
    else
      assert Configured(entries[..n], key) by {
        var i :| 0 <= i < |entries| && entries[i].0 == key;
        assert entries[..n][i].0 == key;
      }
      Settings(entries[..n], key)
  }

  lemma OneMoreEntry(entries: seq<(string, Stat)>, key: string)
    requires entries != []
    ensures var n := |entries| - 1;
            Configured(entries, key) <==> Configured(entries[..n], key) || key == entries[n].0
  {
    var n := |entries| - 1;
    if Configured(entries[..n], key) {
      var i :| 0 <= i < n && entries[..n][i].0 == key;
      assert entries[i].0 == key;
    }
    if Configured(entries, key) && key != entries[n].0 {
      var i :| 0 <= i < |entries| && entries[i].0 == key;
      assert entries[..n][i].0 == key;
    }
  }

  /** What reading the entries leaves of client `key`. */
  lemma {:induction false} RefreshesIff(w: World, entries: seq<(string, Stat)>, key: string)
    requires Valid(w) && forall k | k in w.clients :: !w.clients[k].refreshed
    ensures var w' := Refreshes(w, entries);
            && w.order <= w'.order
            && (key in w'.clients <==> key in w.clients || Configured(entries, key))
            && (key in w'.clients ==>
                  w'.clients[key] == Client(if Configured(entries, key) then Settings(entries, key) else w.clients[key].stat,
                                            if key in w.clients then w.clients[key].dyn else FRESH,
                                            Configured(entries, key)))
    decreases |entries|
  {
    hide Valid;
    if entries != [] {
      var n := |entries| - 1;
      RefreshesIff(w, entries[..n], key);
      OneMoreEntry(entries, key);
    }
  }

  lemma UnrefreshedFacts(w: World)
    requires Valid(w)
    ensures Unrefreshed(w).clients.Keys == w.clients.Keys
    ensures forall k | k in w.clients :: Unrefreshed(w).clients[k] == w.clients[k].(refreshed := false)
  {
    hide Valid;
  }

  lemma SweepIff(w: World, key: string)
    requires Valid(w)
    ensures key in Sweep(w).clients <==> key in w.clients && Keeps(w.clients[key])
    ensures key in Sweep(w).clients ==> Sweep(w).clients[key] == w.clients[key]
  {
    hide Valid;
  }

  /**
   Who is there after a reload: the configured clients and those that are doing something,
   or everybody if the configuration was not complete.  Nobody's runtime state changes; the
   settings are the last ones listed.
   */
  lemma ReloadIff(w: World, entries: seq<(string, Stat)>, complete: bool, key: string)
    requires Valid(w)
    ensures var w' := Reload(w, entries, complete);
            && (key in w'.clients <==> Configured(entries, key) || (key in w.clients && !Drops(w, entries, complete, key)))
            && (key in w'.clients ==>
                  && w'.clients[key].dyn == (if key in w.clients then w.clients[key].dyn else FRESH)
                  && w'.clients[key].stat == (if Configured(entries, key) then Settings(entries, key) else w.clients[key].stat))
  {
    hide Valid;
    hide Sweep;
    hide Refreshes;
    hide Unrefreshed;
    UnrefreshedFacts(w);
    RefreshesIff(Unrefreshed(w), entries, key);
    SweepIff(Refreshes(Unrefreshed(w), entries), key);
  }

  // ---------------------------------------------------------------------------
  // Each operation and the requests
  // ---------------------------------------------------------------------------

  predicate AsksToRun(w: World, key: string) {
    key in w.clients && w.clients[key].dyn.req == Started
  }

  lemma {:induction false} StartFirstIff(w: World, n: nat, key: string)
    requires Valid(w) && n <= |w.order| && key in w.clients
    ensures StartFirst(w, n).clients[key] ==
            if key in w.order[..n] && w.clients[key].stat.autoStart
            then w.clients[key].(dyn := w.clients[key].dyn.(req := Started, cur := Starting)) else w.clients[key]
    decreases n
  {
    hide Valid;
    if n > 0 {
      var k := w.order[n - 1];
      StartFirstIff(w, n - 1, key);
      KnownKey(w, n - 1);
      assert w.order[..n] == w.order[..n - 1] + [k];
    }
  }

  /** Starting asks exactly the clients to run that are configured for it. */
  lemma StartAllIff(w: World, key: string)
    requires Valid(w) && key in w.clients
    ensures StartAll(w).clients[key] ==
            if w.clients[key].stat.autoStart then w.clients[key].(dyn := w.clients[key].dyn.(req := Started, cur := Starting))
            else w.clients[key]
  {
    hide StartFirst;
    StartFirstIff(w, |w.order|, key);
    assert w.order[..|w.order|] == w.order;
  }

  lemma {:induction false} AttachFirstIff(w: World, found: map<string, int>, n: nat, key: string)
    requires Valid(w) && n <= |w.order| && key in w.clients
    ensures AttachFirst(w, found, n).clients[key] ==
            if key in w.order[..n] && key in found
            then w.clients[key].(dyn := w.clients[key].dyn.(cur := Started, pid := found[key], shmRead := true)) else w.clients[key]
    decreases n
  {
    hide Valid;
    hide SameRequests;
    if n > 0 {
      var k := w.order[n - 1];
      AttachFirstIff(w, found, n - 1, key);
      KnownKey(w, n - 1);
      assert w.order[..n] == w.order[..n - 1] + [k];
    }
  }

  /** Exactly the clients found running in shared memory are recorded as started, with their pids, as not our children. */
  lemma AttachIff(w: World, found: map<string, int>, key: string)
    requires Valid(w) && key in w.clients
    ensures var d, d' := w.clients[key].dyn, Attach(w, found).clients[key].dyn;
            if key in found then d' == Dyn(Started, d.req, found[key], true, d.wasStarted, d.exitStatus) else d' == d
  {
    hide AttachFirst;
    hide SameRequests;
    AttachFirstIff(w, found, |w.order|, key);
    assert w.order[..|w.order|] == w.order;
  }

  /** A stop or a restart of one client leaves the other requests alone. */
  lemma OtherRequests(w: World, key: string, env: KillEnv, k: string)
    requires Valid(w) && k in w.clients && k != key
    ensures Stop(w, key, env).0.clients[k].dyn.req == w.clients[k].dyn.req
    ensures Restart(w, key, env).0.clients[k].dyn.req == w.clients[k].dyn.req
  {
    hide Valid;
    hide SameRequests;
    hide Kill;
    if key in w.clients {
      var w1 := Ask(w, key, false);
      RequestFacts(w1, Kill(w1, key, env).0, k);
    }
  }

  /** Every operation moves a client's request as it moves the latest effective one. */
  lemma DoKeepsRequest(singleton: set<nat>, w: World, op: Op, key: string)
    requires Valid(w)
    ensures AsksToRun(Do(singleton, w, op).0, key) <==> WantedBy(w, op, key, AsksToRun(w, key))
  {
    hide Valid;
    hide SameRequests;
    hide Stop;
    hide Restart;
    hide StartAll;
    hide Attach;
    hide Reload;
    hide Pass;
    hide ExitStep;
    hide Survives;
    if key in w.clients {
      match op
      case Booting(k) =>
      case Stopping(k, env) =>
        if k == key {
          StopIff(w, key, env);
        } else {
          OtherRequests(w, k, env, key);
        }
      case Restarting(k, env) =>
        if k != key {
          OtherRequests(w, k, env, key);
        } else if w.clients[key].dyn.req == Started {
          RestartIff(w, key, env);
        } else {
          IdleRestart(w, key, env);
        }
      case Passing(groups, locked, visits) =>
        PassKeepsRequests(w, Groups(singleton, locked), groups, visits, key);
      case Exiting(x) =>
        RequestFacts(w, ExitStep(w, x), key);
      case Reloading(entries, complete) =>
        ReloadIff(w, entries, complete, key);
      case StartingAll =>
        StartAllIff(w, key);
      case Attaching(found) =>
        RequestFacts(w, Attach(w, found), key);
    } else if op.Reloading? {
      ReloadIff(w, op.entries, op.complete, key);
    }
  }

  lemma IdleRestart(w: World, key: string, env: KillEnv)
    requires Valid(w) && key in w.clients && w.clients[key].dyn.req != Started
    ensures Restart(w, key, env).0 == w
  {
    hide Valid;
  }

  lemma PassKeepsRequests(w: World, g: Groups, groups: nat, visits: seq<Visit>, key: string)
    requires Valid(w) && key in w.clients
    ensures Pass(w, g, groups, visits).0.clients[key].dyn.req == w.clients[key].dyn.req
  {
    hide Valid;
    hide SameRequests;
    hide Turns;
    RequestFacts(w, Turns(w, g, visits, |w.order|).0, key);
  }

  // ---------------------------------------------------------------------------
  // Every history
  // ---------------------------------------------------------------------------

  /** After every history, a client is asked to run if and only if its latest effective request was to run. */
  lemma {:induction false} RequestIsLatest(singleton: set<nat>, ops: seq<Op>, key: string)
    ensures AsksToRun(After(singleton, ops), key) <==> Wanted(singleton, ops, key)
    decreases |ops|
  {
    hide Valid;
    hide Do;
    hide WantedBy;
    if ops != [] {
      var n := |ops| - 1;
      RequestIsLatest(singleton, ops[..n], key);
      DoKeepsRequest(singleton, After(singleton, ops[..n]), ops[n], key);
    }
  }

  /**
   In every history a client is forked only in a timer pass, only if its latest effective
   request before that pass was to run, and only if its group is not one this node does not
   hold.
   */
  lemma ForkedOnlyIfWanted(singleton: set<nat>, ops: seq<Op>, i: nat, key: string, pid: int)
    requires i < |ops| && Fork(key, pid) in EventsAt(singleton, ops, i)
    ensures ops[i].Passing?
    ensures Wanted(singleton, ops[..i], key)
    ensures key in After(singleton, ops[..i]).clients
    ensures !Barred(Groups(singleton, ops[i].locked), After(singleton, ops[..i]).clients[key].stat)
  {
    hide Valid;
    hide Kill;
    hide Pass;
    var w := After(singleton, ops[..i]);
    OnlyPassesFork(singleton, w, ops[i], key, pid);
    PassIsSafe(w, Groups(singleton, ops[i].locked), ops[i].groups, ops[i].visits, Fork(key, pid));
    RequestIsLatest(singleton, ops[..i], key);
  }

  lemma OnlyPassesFork(singleton: set<nat>, w: World, op: Op, key: string, pid: int)
    requires Valid(w) && Fork(key, pid) in Do(singleton, w, op).1
    ensures op.Passing?
  {
    hide Valid;
    hide SameRequests;
    hide Kill;
    hide Pass;
    if (op.Stopping? || op.Restarting?) && op.key in w.clients {
      KillEvents(Ask(w, op.key, false), op.key, op.env);
    }
  }

  /** In every history, no reload drops or alters a client that is doing anything. */
  lemma BusyClientsStay(singleton: set<nat>, ops: seq<Op>, i: nat, key: string)
    requires i < |ops| && ops[i].Reloading?
    requires key in After(singleton, ops[..i]).clients && After(singleton, ops[..i]).clients[key].dyn.cur != NotRun
    ensures key in After(singleton, ops[..i + 1]).clients
    ensures After(singleton, ops[..i + 1]).clients[key].dyn == After(singleton, ops[..i]).clients[key].dyn
  {
    hide Valid;
    hide Reload;
    assert ops[..i + 1][..i] == ops[..i];
    ReloadIff(After(singleton, ops[..i]), ops[i].entries, ops[i].complete, key);
  }

  // ---------------------------------------------------------------------------
  // A restart that is lost
  // ---------------------------------------------------------------------------

  /** The table with this one client. */
  function Only(key: string, stat: Stat, d: Dyn): World {
    World([key], map[key := Client(stat, d, true)], {})
  }

  lemma LoadsOnly(key: string, stat: Stat)
    ensures Valid(EMPTY) && Reload(EMPTY, [(key, stat)], true) == Only(key, stat, FRESH)
  {
    var entries := [(key, stat)];
    assert entries[..0] == [];
    assert Refreshes(Unrefreshed(EMPTY), entries[..0]) == EMPTY;
    var w := Only(key, stat, FRESH);
    assert Refreshes(Unrefreshed(EMPTY), entries) == w;
    assert w.order[..0] == [];
    assert KeptKeys(w.order, w.clients) == [key];
    assert Sweep(w) == w;
  }

  lemma StartsOnly(key: string, stat: Stat)
    requires stat.autoStart
    ensures Valid(Only(key, stat, FRESH))
    ensures StartAll(Only(key, stat, FRESH)) == Only(key, stat, FRESH.(req := Started, cur := Starting))
  {
    var w := Only(key, stat, FRESH);
    assert StartFirst(w, 0) == w;
    assert w.order[0] == key;
    assert StartFirst(w, 1) == Ask(w, key, true);
  }

  lemma ForksOnly(key: string, stat: Stat, pid: int, g: Groups)
    requires stat.group == 0 && pid != -1
    ensures var d := FRESH.(req := Started, cur := Starting);
            && Valid(Only(key, stat, d))
            && Pass(Only(key, stat, d), g, 0, [QUIET.(forked := pid)]).0 ==
               Only(key, stat, d.(cur := Started, pid := pid, wasStarted := true))
  {
    var d := FRESH.(req := Started, cur := Starting);
    var w, v := Only(key, stat, d), QUIET.(forked := pid);
    assert Exits(w, []) == w;
    var w1 := Exec(w, key, pid).0;
    assert w1 == Only(key, stat, d.(cur := Started, pid := pid, wasStarted := true));
    assert Exits(w1, []) == w1;
    assert Turn(w, g, key, v).0 == w1;
    assert Turns(w, g, [v], 0).0 == w;
    assert w.order[0] == key && VisitAt([v], 0) == v;
    assert Turns(w, g, [v], 1).0 == w1;
  }

  /** The configuration is loaded, its one client started and restarted, and no exit is reported in time. */
  function LostRestart(key: string, stat: Stat, pid: int): seq<Op> {
    [Reloading([(key, stat)], true), StartingAll, Passing(0, {}, [QUIET.(forked := pid)]),
     Restarting(key, KillEnv([], [], [], true))]
  }

  /** A restart can leave the client running and asked to stop: the request to run again is lost. */
  lemma RestartCanBeLost(singleton: set<nat>, key: string, stat: Stat, pid: int)
    requires stat.autoStart && stat.group == 0 && pid != -1
    ensures var ops := LostRestart(key, stat, pid);
            && key in After(singleton, ops).clients
            && After(singleton, ops).clients[key].dyn.cur == Started
            && After(singleton, ops).clients[key].dyn.req == NotRun
            && Wanted(singleton, ops[..3], key) && !Wanted(singleton, ops, key)
  {
    hide Valid;
    hide Reload;
    hide StartAll;
    hide Pass;
    hide Restart;
    hide Stop;
    hide Wanted;
    var ops := LostRestart(key, stat, pid);
    var env := KillEnv([], [], [], true);
    LoadsOnly(key, stat);
    StartsOnly(key, stat);
    ForksOnly(key, stat, pid, Groups(singleton, {}));
    assert ops[..1][..0] == [] && ops[..2][..1] == ops[..1] && ops[..3][..2] == ops[..2];
    assert After(singleton, []) == EMPTY;
    assert After(singleton, ops[..1]) == Only(key, stat, FRESH);
    assert After(singleton, ops[..2]) == Only(key, stat, FRESH.(req := Started, cur := Starting));
    var w := After(singleton, ops[..3]);
    assert w == Only(key, stat, FRESH.(req := Started, cur := Started, pid := pid, wasStarted := true));
    NoHit(w, key);
    RestartIff(w, key, env);
    RequestIsLatest(singleton, ops[..3], key);
    RequestIsLatest(singleton, ops, key);
  }
}
