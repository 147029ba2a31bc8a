/**
 What the client monitor's operations mean for its clients: who an exit is put down to, who
 survives a kill or a restart, and what a timer pass does to each client.
 */
module ClientRuns {
  import opened Common
  import opened ClientSpec

  lemma ValidFacts(w: World)
    requires Valid(w)
    ensures forall k :: k in w.order <==> k in w.clients
    ensures Distinct(w.order)
  {
  }

  lemma KnownKey(w: World, i: nat)
    requires Valid(w) && i < |w.order|
    ensures w.order[i] in w.clients
  {
    assert w.order[i] in w.order;
  }

  lemma OtherKey(w: World, i: nat, j: nat)
    requires Valid(w) && i < |w.order| && j < |w.order|
    ensures w.order[i] == w.order[j] <==> i == j
  {
  }

  lemma PlaceOf(w: World, k: string) returns (i: nat)
    requires Valid(w) && k in w.clients
    ensures i < |w.order| && w.order[i] == k
  {
    i :| 0 <= i < |w.order| && w.order[i] == k;
  }

  lemma RequestFacts(w: World, w': World, k: string)
    requires SameRequests(w, w') && k in w.clients
    ensures k in w'.clients
    ensures w'.clients[k].stat == w.clients[k].stat && w'.clients[k].refreshed == w.clients[k].refreshed
    ensures w'.clients[k].dyn.req == w.clients[k].dyn.req
  {
  }

  // ---------------------------------------------------------------------------
  // Exits
  // ---------------------------------------------------------------------------

  lemma {:induction false} FirstWithPidIff(order: seq<string>, clients: map<string, Client>, pid: int, i: nat)
    requires (forall k | k in order :: k in clients) && Distinct(order) && i < |order|
    ensures order[i] in clients
    ensures FirstWithPid(order, clients, pid) == Some(order[i]) <==>
            clients[order[i]].dyn.pid == pid && forall j | 0 <= j < i :: clients[order[j]].dyn.pid != pid
    decreases |order|
  {
    assert order[0] in order && order[i] in order;
    if i > 0 && clients[order[0]].dyn.pid != pid {
      assert order[1..][i - 1] == order[i];
      FirstWithPidIff(order[1..], clients, pid, i - 1);
      assert forall j | 1 <= j < i :: order[1..][j - 1] == order[j];
    }
  }

  /** The client an exit with this pid is put down to. */
  function Culprit(w: World, pid: int): (key: Option<string>)
    requires Valid(w)
    ensures key.Some? ==> key.value in w.clients
  {
    FirstWithPid(w.order, w.clients, pid)
  }

  ghost predicate SamePids(w: World, w': World) {
    SameKeys(w, w') && forall k | k in w.clients :: w'.clients[k].dyn.pid == w.clients[k].dyn.pid
  }

  lemma {:induction false} SamePidsSameFirst(order: seq<string>, c: map<string, Client>, c': map<string, Client>, pid: int)
    requires forall k | k in order :: k in c && k in c' && c'[k].dyn.pid == c[k].dyn.pid
    ensures FirstWithPid(order, c', pid) == FirstWithPid(order, c, pid)
    decreases |order|
  {
    if order != [] {
      assert order[0] in order;
      SamePidsSameFirst(order[1..], c, c', pid);
    }
  }

  lemma SameCulprit(w: World, w': World, pid: int)
    requires Valid(w) && Valid(w') && SamePids(w, w')
    ensures Culprit(w', pid) == Culprit(w, pid)
  {
    SamePidsSameFirst(w.order, w.clients, w'.clients, pid);
  }

  /** Some reported exit is put down to this client: it is the first recorded with that pid. */
  ghost predicate Hit(w: World, xs: seq<Exit>, key: string)
    requires Valid(w)
  {
    exists i :: 0 <= i < |xs| && Culprit(w, xs[i].pid) == Some(key)
  }

  lemma HitFirst(w: World, w': World, xs: seq<Exit>, key: string)
    requires Valid(w) && Valid(w') && SamePids(w, w')
    ensures Hit(w', xs, key) <==> Hit(w, xs, key)
  {
    hide Valid;
    hide SamePids;
    hide Culprit;
    forall i | 0 <= i < |xs|
      ensures Culprit(w', xs[i].pid) == Culprit(w, xs[i].pid)
    {
      SameCulprit(w, w', xs[i].pid);
    }
  }

  lemma HitMore(w: World, xs: seq<Exit>, key: string)
    requires Valid(w) && xs != []
    ensures Hit(w, xs, key) <==> Hit(w, xs[..|xs| - 1], key) || Culprit(w, xs[|xs| - 1].pid) == Some(key)
  {
    hide Valid;
    hide Culprit;
    var n := |xs| - 1;
    if Hit(w, xs[..n], key) {
      var i :| 0 <= i < n && Culprit(w, xs[..n][i].pid) == Some(key);
      assert xs[i] == xs[..n][i];
    }
    if Hit(w, xs, key) {
      var i :| 0 <= i < |xs| && Culprit(w, xs[i].pid) == Some(key);
      if i < n {
        assert xs[..n][i] == xs[i];
      }
    }
  }

  lemma NoHit(w: World, key: string)
    requires Valid(w)
    ensures !Hit(w, [], key)
  {
  }

  lemma ExitStepMarksFirst(w: World, x: Exit, key: string)
    requires Valid(w) && key in w.clients
    ensures SamePids(w, ExitStep(w, x))
    ensures ExitStep(w, x).clients[key].dyn ==
            if Culprit(w, x.pid) == Some(key) then w.clients[key].dyn.(cur := NotRun, exitStatus := x.status)
            else w.clients[key].dyn
  {
    ValidFacts(w);
    hide Valid;
    hide SameRequests;
  }

  lemma {:induction false} ExitsKeepPids(w: World, xs: seq<Exit>)
    requires Valid(w)
    ensures SamePids(w, Exits(w, xs))
    decreases |xs|
  {
    hide Valid;
    hide SameRequests;
    hide ExitStep;
    if xs != [] {
      var n := |xs| - 1;
      var w1 := Exits(w, xs[..n]);
      ExitsKeepPids(w, xs[..n]);
      forall k | k in w.clients
        ensures ExitStep(w1, xs[n]).clients[k].dyn.pid == w.clients[k].dyn.pid
      {
        ExitStepMarksFirst(w1, xs[n], k);
      }
    }
  }

  /** A client stops if and only if an exit is put down to it; nothing else about it changes but the exit status. */
  lemma {:induction false} ExitsMarkFirst(w: World, xs: seq<Exit>, key: string)
    requires Valid(w) && key in w.clients
    ensures var d, d' := w.clients[key].dyn, Exits(w, xs).clients[key].dyn;
            d' == if Hit(w, xs, key) then d.(cur := NotRun, exitStatus := d'.exitStatus) else d
    decreases |xs|
  {
    hide Valid;
    hide SameRequests;
    hide SamePids;
    hide ExitStep;
    hide Hit;
    if xs == [] {
      NoHit(w, key);
    } else {
      var n := |xs| - 1;
      var w1 := Exits(w, xs[..n]);
      ExitsMarkFirst(w, xs[..n], key);
      ExitsKeepPids(w, xs[..n]);
      SameCulprit(w, w1, xs[n].pid);
      ExitStepMarksFirst(w1, xs[n], key);
      HitMore(w, xs, key);
    }
  }

  /** The last exit put down to a client gives it its exit status. */
  lemma LastExitStatus(w: World, xs: seq<Exit>, x: Exit, key: string)
    requires Valid(w) && key in w.clients && Culprit(w, x.pid) == Some(key)
    ensures Exits(w, xs + [x]).clients[key].dyn == w.clients[key].dyn.(cur := NotRun, exitStatus := x.status)
  {
    hide Valid;
    hide SameRequests;
    hide SamePids;
    hide ExitStep;
    hide Culprit;
    hide Hit;
    var w1 := Exits(w, xs);
    assert (xs + [x])[..|xs|] == xs && (xs + [x])[|xs|] == x;
    ExitsMarkFirst(w, xs, key);
    ExitsKeepPids(w, xs);
    SameCulprit(w, w1, x.pid);
    ExitStepMarksFirst(w1, x, key);
  }

  /** What one stage of waiting does to a client, in terms of the state before the first one. */
  lemma StageMarks(w0: World, w: World, xs: seq<Exit>, key: string)
    requires Valid(w0) && Valid(w) && SamePids(w0, w) && key in w.clients
    ensures SamePids(w0, Exits(w, xs))
    ensures Exits(w, xs).clients[key].dyn.cur == if Hit(w0, xs, key) then NotRun else w.clients[key].dyn.cur
    ensures Exits(w, xs).clients[key].dyn.shmRead == w.clients[key].dyn.shmRead
  {
    hide Valid;
    hide SameRequests;
    hide Exits;
    hide Hit;
    ExitsMarkFirst(w, xs, key);
    ExitsKeepPids(w, xs);
    HitFirst(w0, w, xs, key);
  }

  lemma LookKeepsPids(w0: World, w: World, key: string, alive: bool)
    requires Valid(w) && key in w.clients && SamePids(w0, w)
    ensures SamePids(w0, Look(w, key, alive))
  {
    hide Valid;
    hide SameRequests;
  }

  // ---------------------------------------------------------------------------
  // Kill, stop, restart
  // ---------------------------------------------------------------------------

  /** The client is started, no exit of the whole kill is put down to it, and it is not seen to have gone. */
  ghost predicate Survives(w: World, key: string, env: KillEnv)
    requires Valid(w) && key in w.clients
  {
    var d := w.clients[key].dyn;
    && d.cur == Started
    && !Hit(w, env.first, key) && !Hit(w, env.second, key) && !Hit(w, env.third, key)
    && (d.shmRead ==> env.alive)
  }

  /**
   A started client is still recorded as started after a kill if and only if it survives it;
   then it got all three signals.
   */
  lemma KillIff(w: World, key: string, env: KillEnv)
    requires Valid(w) && key in w.clients && w.clients[key].dyn.cur == Started
    ensures var (w', e) := Kill(w, key, env);
            && w'.clients[key].dyn.cur == (if Survives(w, key, env) then Started else NotRun)
            && [Signalled(key, SigInt)] <= e <= [Signalled(key, SigInt), Signalled(key, SigTerm), Signalled(key, SigKill)]
            && (Survives(w, key, env) ==> |e| == 3)
  {
    hide Valid;
    hide SameRequests;
    hide SamePids;
    hide Exits;
    hide Hit;
    OwnPids(w);
    StageMarks(w, w, env.first, key);
    var w1 := Exits(w, env.first);
    StageMarks(w, w1, env.second, key);
    var w2 := Look(Exits(w1, env.second), key, env.alive);
    LookKeepsPids(w, Exits(w1, env.second), key, env.alive);
    StageMarks(w, w2, env.third, key);
  }

  lemma OwnPids(w: World)
    ensures SamePids(w, w)
  {
  }

  /** A request to stop makes no difference to what a kill does. */
  lemma SurvivesAsked(w: World, key: string, env: KillEnv)
    requires Valid(w) && key in w.clients
    ensures Survives(Ask(w, key, false), key, env) <==> Survives(w, key, env)
  {
    hide Valid;
    hide SameRequests;
    hide Hit;
    var w1 := Ask(w, key, false);
    HitFirst(w, w1, env.first, key);
    HitFirst(w, w1, env.second, key);
    HitFirst(w, w1, env.third, key);
  }

  /** A stopped client is asked to stop, and gone unless it survives the kill. */
  lemma StopIff(w: World, key: string, env: KillEnv)
    requires Valid(w) && key in w.clients
    ensures var d := Stop(w, key, env).0.clients[key].dyn;
            && d.req == NotRun
            && (d.cur == Started <==> Survives(w, key, env))
            && (w.clients[key].dyn.cur != Started ==> d == w.clients[key].dyn.(req := NotRun))
  {
    hide Valid;
    hide SameRequests;
    hide Kill;
    hide Hit;
    if w.clients[key].dyn.cur == Started {
      var w1 := Ask(w, key, false);
      KillIff(w1, key, env);
      SurvivesAsked(w, key, env);
      RequestFacts(w1, Kill(w1, key, env).0, key);
    }
  }

  /**
   A restart of a client that is asked to run leaves it asked to run if and only if it does
   not survive the stop: it was not started, an exit is put down to it while the monitor
   waits, or it is not our child and has gone.
   */
  lemma RestartIff(w: World, key: string, env: KillEnv)
    requires Valid(w) && key in w.clients && w.clients[key].dyn.req == Started
    ensures var d := Restart(w, key, env).0.clients[key].dyn;
            && d.req == (if Survives(w, key, env) then NotRun else Started)
            && d.cur == (if Survives(w, key, env) then Started else Starting)
  {
    hide Valid;
    hide SameRequests;
    hide Stop;
    hide Survives;
    StopIff(w, key, env);
  }

  // ---------------------------------------------------------------------------
  // One turn of the timer pass
  // ---------------------------------------------------------------------------

  predicate About(e: Event, key: string) {
    !e.Marked? && e.key == key
  }

  /** When the client's turn comes. */
  function AtTurn(w: World, v: Visit): (w': World)
    requires Valid(w)
    ensures Valid(w') && SameKeys(w, w') && SameRequests(w, w')
  {
    Exits(w, v.before)
  }

  /** When the client's process is tested. */
  function AtTest(w: World, g: Groups, key: string, v: Visit): (w': World)
    requires Valid(w) && key in w.clients
    ensures Valid(w') && SameKeys(w, w') && SameRequests(w, w')
  {
    BeforeTest(w, g, key, v).0
  }

  /** The client is to be started at its turn. */
  predicate Due(g: Groups, c: Client) {
    c.dyn.req == Started && c.dyn.cur != Started && !Barred(g, c.stat)
  }

  /** A started client whose memory use is known and above a limit it has. */
  predicate UsesTooMuch(c: Client, u: Usage) {
    && c.dyn.cur == Started && u.Usage?
    && ((c.stat.rssMax != -1 && c.stat.rssMax < u.rss) || (c.stat.vszMax != -1 && c.stat.vszMax < u.vsz))
  }

  lemma KillEvents(w: World, key: string, env: KillEnv)
    requires Valid(w) && key in w.clients
    ensures forall e | e in Kill(w, key, env).1 :: e.Signalled? && e.key == key
    ensures Signalled(key, SigInt) in Kill(w, key, env).1
  {
    hide Valid;
    hide SameRequests;
    hide Exits;
    hide Look;
  }

  lemma StartOrCheckIff(w: World, g: Groups, key: string, v: Visit)
    requires Valid(w) && key in w.clients
    ensures var e, due := StartOrCheck(w, g, key, v).1, Due(g, w.clients[key]);
            && (Attempt(key) in e <==> due)
            && (forall pid :: Fork(key, pid) in e <==> due && pid == v.forked && v.forked != -1)
            && LockLost(key) !in e
            && (Signalled(key, SigInt) in e <==> UsesTooMuch(w.clients[key], v.usage))
            && (forall x | x in e :: About(x, key))
  {
    hide Valid;
    hide SameRequests;
    hide Kill;
    KillEvents(w, key, v.kill);
  }

  /** What the first part of a turn leaves of its client. */
  lemma StartOrCheckLeaves(w: World, g: Groups, key: string, v: Visit)
    requires Valid(w) && key in w.clients
    ensures var c, d' := w.clients[key], StartOrCheck(w, g, key, v).0.clients[key].dyn;
            if UsesTooMuch(c, v.usage) then d'.cur == if Survives(w, key, v.kill) then Started else NotRun
            else if c.dyn.req == Started && c.dyn.cur != Started then
              if Barred(g, c.stat) then d' == c.dyn.(cur := Waiting)
              else if v.forked == -1 then d' == c.dyn.(wasStarted := true, shmRead := false)
              else d' == Dyn(Started, Started, v.forked, false, true, c.dyn.exitStatus)
            else d' == c.dyn
  {
    hide Valid;
    hide SameRequests;
    hide Kill;
    hide Survives;
    if w.clients[key].dyn.cur == Started {
      KillIff(w, key, v.kill);
    }
  }

  /**
   At its turn a client gets an attempt to start if and only if it is due, is forked if and
   only if the attempt succeeds, and is killed for its group's lock if and only if it is
   barred and started when its process is tested.
   */
  lemma TurnIff(w: World, g: Groups, key: string, v: Visit)
    requires Valid(w) && key in w.clients
    ensures var e, due := Turn(w, g, key, v).1, Due(g, AtTurn(w, v).clients[key]);
            && (Attempt(key) in e <==> due)
            && (forall pid :: Fork(key, pid) in e <==> due && pid == v.forked && v.forked != -1)
            && (LockLost(key) in e <==> Barred(g, w.clients[key].stat) && AtTest(w, g, key, v).clients[key].dyn.cur == Started)
            && (Signalled(key, SigInt) in e <==> UsesTooMuch(AtTurn(w, v).clients[key], v.usage))
            && (forall x | x in e :: About(x, key))
  {
    hide Valid;
    hide SameRequests;
    hide Exits;
    hide Look;
    hide StartOrCheck;
    StartOrCheckIff(Exits(w, v.before), g, key, v);
    RequestFacts(w, AtTest(w, g, key, v), key);
  }

  /**
   A client is recorded as started after a turn, its own or another's, if and only if it was
   so after the part that may start it, no exit reported since is put down to it and, at its
   own turn and when it is not our child, its process is there.
   */
  lemma StartedAfterTurnIff(w: World, g: Groups, key: string, v: Visit, k: string)
    requires Valid(w) && key in w.clients && k in w.clients
    ensures var w1 := StartOrCheck(AtTurn(w, v), g, key, v).0;
            var d, d' := w1.clients[k].dyn, Turn(w, g, key, v).0.clients[k].dyn;
            && (d'.cur == Started <==> d.cur == Started && !Hit(w1, v.after, k) && (k == key && d.shmRead ==> v.alive))
            && d'.pid == d.pid && d'.shmRead == d.shmRead && d'.wasStarted == d.wasStarted
  {
    hide Valid;
    hide SameRequests;
    hide Exits;
    hide StartOrCheck;
    hide Hit;
    var w1 := StartOrCheck(AtTurn(w, v), g, key, v).0;
    ExitsMarkFirst(w1, v.after, k);
    GoneStatus(Exits(w1, v.after), key, v.alive, k);
  }

  /**
   When a client that is not our child is seen to have gone it is recorded as stopped, in
   order if it was asked to stop and with an error if it was not; nobody else is touched.
   */
  lemma GoneStatus(w: World, key: string, alive: bool, k: string)
    requires Valid(w) && key in w.clients && k in w.clients
    ensures var d, d' := w.clients[k].dyn, Look(w, key, alive).clients[k].dyn;
            && (k == key && d.cur == Started && d.shmRead && !alive ==>
                  d'.cur == NotRun && d'.exitStatus == (if d.req == NotRun then 0 else -1) && d'.req == d.req && d'.pid == d.pid)
            && (k != key || d.cur != Started || !d.shmRead || alive ==> d' == d)
  {
    hide Valid;
    hide SameRequests;
  }

  /** A pass marks exactly the groups that are held and not marked yet. */
  lemma PassMarks(w: World, g: Groups, groups: nat, visits: seq<Visit>)
    requires Valid(w)
    ensures var (w', e) := Pass(w, g, groups, visits);
            && (forall x: nat :: x in w'.booted <==> x in w.booted || (x in g.locked && 1 <= x <= groups))
            && (forall x: nat :: Marked(x) in e <==> x in g.locked && x !in w.booted && 1 <= x <= groups)
  {
    hide Valid;
    hide SameRequests;
    hide Turns;
    hide Marks;
    PassParts(w, g, groups, visits);
    MarksIff(w.booted, g.locked, groups);
    TurnsMarkNothing(w, g, visits, |w.order|);
  }

  // ---------------------------------------------------------------------------
  // A whole pass
  // ---------------------------------------------------------------------------

  /** The state in which client `i` of the order has its turn. */
  function Before(w: World, g: Groups, visits: seq<Visit>, i: nat): (w': World)
    requires Valid(w) && i <= |w.order|
    ensures Valid(w') && SameKeys(w, w') && SameRequests(w, w')
  {
    Turns(w, g, visits, i).0
  }

  function TurnEvents(w: World, g: Groups, visits: seq<Visit>, i: nat): seq<Event>
    requires Valid(w) && i < |w.order|
  {
    KnownKey(w, i);
    Turn(Before(w, g, visits, i), g, w.order[i], VisitAt(visits, i)).1
  }

  lemma TurnAbout(w: World, g: Groups, visits: seq<Visit>, i: nat)
    requires Valid(w) && i < |w.order|
    ensures forall e | e in TurnEvents(w, g, visits, i) :: About(e, w.order[i])
  {
    hide Valid;
    hide SameRequests;
    hide Turn;
    hide Turns;
    KnownKey(w, i);
    TurnIff(Before(w, g, visits, i), g, w.order[i], VisitAt(visits, i));
  }

  lemma MoreTurns(w: World, g: Groups, visits: seq<Visit>, n: nat)
    requires Valid(w) && n < |w.order|
    ensures Turns(w, g, visits, n + 1).1 == Turns(w, g, visits, n).1 + TurnEvents(w, g, visits, n)
  {
    hide Valid;
    hide SameRequests;
    hide Turn;
  }

  /** What the first `n` turns do to client `i` is what its own turn does. */
  lemma {:induction false} EventIsOfTurn(w: World, g: Groups, visits: seq<Visit>, n: nat, i: nat, e: Event)
    requires Valid(w) && n <= |w.order| && i < |w.order| && About(e, w.order[i])
    ensures e in Turns(w, g, visits, n).1 <==> i < n && e in TurnEvents(w, g, visits, i)
    decreases n
  {
    hide Valid;
    hide SameRequests;
    hide Turn;
    hide TurnEvents;
    if n > 0 {
      EventIsOfTurn(w, g, visits, n - 1, i, e);
      MoreTurns(w, g, visits, n - 1);
      TurnAbout(w, g, visits, n - 1);
      OtherKey(w, i, n - 1);
    }
  }

  lemma {:induction false} TurnsMarkNothing(w: World, g: Groups, visits: seq<Visit>, n: nat)
    requires Valid(w) && n <= |w.order|
    ensures forall e | e in Turns(w, g, visits, n).1 :: !e.Marked? && e.key in w.clients
    decreases n
  {
    hide Valid;
    hide SameRequests;
    hide Turn;
    hide TurnEvents;
    if n > 0 {
      TurnsMarkNothing(w, g, visits, n - 1);
      MoreTurns(w, g, visits, n - 1);
      TurnAbout(w, g, visits, n - 1);
      KnownKey(w, n - 1);
    }
  }

  lemma {:induction false} MarksIff(booted: set<nat>, locked: set<nat>, n: nat)
    ensures var (b, e) := Marks(booted, locked, n);
            && (forall x: nat :: x in b <==> x in booted || (x in locked && 1 <= x <= n))
            && (forall x | x in e :: x.Marked?)
            && (forall x: nat :: Marked(x) in e <==> x in locked && x !in booted && 1 <= x <= n)
  {
    if n > 0 {
      MarksIff(booted, locked, n - 1);
    }
  }

  /** A pass is its turns followed by its marks. */
  lemma PassParts(w: World, g: Groups, groups: nat, visits: seq<Visit>)
    requires Valid(w)
    ensures Pass(w, g, groups, visits).1 ==
            Turns(w, g, visits, |w.order|).1 + Marks(w.booted, g.locked, groups).1
    ensures Pass(w, g, groups, visits).0 == Turns(w, g, visits, |w.order|).0.(booted := Marks(w.booted, g.locked, groups).0)
  {
    hide Turns;
    hide Marks;
  }

  /**
   A pass, client by client: client `i` gets an attempt, is forked, and is killed for its
   group's lock exactly if that is so at its own turn.
   */
  lemma PassIff(w: World, g: Groups, groups: nat, visits: seq<Visit>, i: nat)
    requires Valid(w) && i < |w.order|
    ensures w.order[i] in w.clients
    ensures var e, k, v, turn := Pass(w, g, groups, visits).1, w.order[i], VisitAt(visits, i), Before(w, g, visits, i);
            var due := Due(g, AtTurn(turn, v).clients[k]);
            && (Attempt(k) in e <==> due)
            && (forall pid :: Fork(k, pid) in e <==> due && pid == v.forked && v.forked != -1)
            && (LockLost(k) in e <==> Barred(g, w.clients[k].stat) && AtTest(turn, g, k, v).clients[k].dyn.cur == Started)
            && (Signalled(k, SigInt) in e <==> UsesTooMuch(AtTurn(turn, v).clients[k], v.usage))
  {
    hide Valid;
    hide SameRequests;
    hide UsesTooMuch;
    hide Turn;
    hide Turns;
    hide AtTest;
    hide AtTurn;
    hide Pass;
    hide Marks;
    KnownKey(w, i);
    var k, turn := w.order[i], Before(w, g, visits, i);
    RequestFacts(w, turn, k);
    TurnIff(turn, g, k, VisitAt(visits, i));
    PassParts(w, g, groups, visits);
    MarksIff(w.booted, g.locked, groups);
    forall e | About(e, k)
      ensures e in Pass(w, g, groups, visits).1 <==> e in TurnEvents(w, g, visits, i)
    {
      EventIsOfTurn(w, g, visits, |w.order|, i, e);
    }
    assert About(Attempt(k), k) && About(LockLost(k), k) && About(Signalled(k, SigInt), k);
    assert forall pid :: About(Fork(k, pid), k);
  }

  /** Who is started in a pass is asked to run and not barred; who is killed for its lock is barred. */
  lemma PassIsSafe(w: World, g: Groups, groups: nat, visits: seq<Visit>, e: Event)
    requires Valid(w) && e in Pass(w, g, groups, visits).1 && !e.Marked?
    ensures e.key in w.clients
    ensures e.Attempt? || e.Fork? ==> w.clients[e.key].dyn.req == Started && !Barred(g, w.clients[e.key].stat)
    ensures e.LockLost? ==> Barred(g, w.clients[e.key].stat)
  {
    hide Valid;
    hide SameRequests;
    hide Turn;
    hide Turns;
    hide AtTest;
    hide AtTurn;
    hide Pass;
    hide Marks;
    PassParts(w, g, groups, visits);
    MarksIff(w.booted, g.locked, groups);
    TurnsMarkNothing(w, g, visits, |w.order|);
    var i := PlaceOf(w, e.key);
    PassIff(w, g, groups, visits, i);
    var turn, v := Before(w, g, visits, i), VisitAt(visits, i);
    RequestFacts(w, turn, e.key);
    RequestFacts(turn, AtTurn(turn, v), e.key);
  }

  /** Nothing but its own turn starts a client. */
  lemma {:induction false} NotStartedBefore(w: World, g: Groups, visits: seq<Visit>, n: nat, i: nat)
    requires Valid(w) && n <= i < |w.order|
    ensures w.order[i] in w.clients
    ensures Turns(w, g, visits, n).0.clients[w.order[i]].dyn.cur in {w.clients[w.order[i]].dyn.cur, NotRun}
    decreases n
  {
    hide Valid;
    hide SameRequests;
    hide Turn;
    KnownKey(w, i);
    if n > 0 {
      KnownKey(w, n - 1);
      OtherKey(w, n - 1, i);
      NotStartedBefore(w, g, visits, n - 1, i);
      OthersOnlyStop(Before(w, g, visits, n - 1), g, w.order[n - 1], VisitAt(visits, n - 1), w.order[i]);
    }
  }

  lemma OthersOnlyStop(w: World, g: Groups, key: string, v: Visit, k: string)
    requires Valid(w) && key in w.clients && k in w.clients && k != key
    ensures Turn(w, g, key, v).0.clients[k].dyn.cur in {w.clients[k].dyn.cur, NotRun}
  {
    hide Valid;
    hide SameRequests;
    hide Exits;
    hide Hit;
    hide StartOrCheck;
    var w1 := Exits(w, v.before);
    ExitsMarkFirst(w, v.before, k);
    StartOnlyStops(w1, g, key, v, k);
    ExitsMarkFirst(StartOrCheck(w1, g, key, v).0, v.after, k);
  }

  lemma StartOnlyStops(w: World, g: Groups, key: string, v: Visit, k: string)
    requires Valid(w) && key in w.clients && k in w.clients && k != key
    ensures StartOrCheck(w, g, key, v).0.clients[k].dyn.cur in {w.clients[k].dyn.cur, NotRun}
  {
    hide Valid;
    hide SameRequests;
    hide Kill;
    KillOnlyStops(w, key, v.kill, k);
  }

  lemma KillOnlyStops(w: World, key: string, env: KillEnv, k: string)
    requires Valid(w) && key in w.clients && k in w.clients
    ensures Kill(w, key, env).0.clients[k].dyn.cur in {w.clients[k].dyn.cur, NotRun}
  {
    hide Valid;
    hide SameRequests;
    hide Exits;
    hide Hit;
    ExitsMarkFirst(w, env.first, k);
    var w1 := Exits(w, env.first);
    ExitsMarkFirst(w1, env.second, k);
    var w2 := Look(Exits(w1, env.second), key, env.alive);
    ExitsMarkFirst(w2, env.third, k);
  }

  /** A client that is asked to run, not barred and not started when a pass begins gets its attempt in it. */
  lemma AttemptedIfDue(w: World, g: Groups, visits: seq<Visit>, k: string)
    requires Valid(w) && k in w.clients && Due(g, w.clients[k])
    ensures Attempt(k) in Turns(w, g, visits, |w.order|).1
  {
    hide Valid;
    hide SameRequests;
    hide Turn;
    hide Turns;
    hide Exits;
    hide Hit;
    var i := PlaceOf(w, k);
    var turn, v := Before(w, g, visits, i), VisitAt(visits, i);
    NotStartedBefore(w, g, visits, i, i);
    RequestFacts(w, turn, k);
    ExitsMarkFirst(turn, v.before, k);
    RequestFacts(turn, AtTurn(turn, v), k);
    TurnIff(turn, g, k, v);
    EventIsOfTurn(w, g, visits, |w.order|, i, Attempt(k));
  }

  /**
   A group is marked as booted only after every client in it that was asked to run and not
   started when the pass began has got its attempt.
   */
  lemma MarkedAfterAttempts(w: World, g: Groups, groups: nat, visits: seq<Visit>, i: nat, k: string)
    requires Valid(w) && i < |Pass(w, g, groups, visits).1| && Pass(w, g, groups, visits).1[i].Marked?
    requires k in w.clients && w.clients[k].stat.group == Pass(w, g, groups, visits).1[i].group
    requires w.clients[k].dyn.req == Started && w.clients[k].dyn.cur != Started
    ensures Attempt(k) in Pass(w, g, groups, visits).1[..i]
  {
    hide Valid;
    hide Turns;
    hide Pass;
    hide Marks;
    hide SameRequests;
    var e, e1 := Pass(w, g, groups, visits).1, Turns(w, g, visits, |w.order|).1;
    PassParts(w, g, groups, visits);
    MarksIff(w.booted, g.locked, groups);
    TurnsMarkNothing(w, g, visits, |w.order|);
    assert e[i] == Marks(w.booted, g.locked, groups).1[i - |e1|];
    AttemptedIfDue(w, g, visits, k);
    assert e1 <= e[..i];
  }
}
