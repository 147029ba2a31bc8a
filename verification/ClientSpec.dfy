/**
 What the client process monitor does (cpmsrv/cpmsrv.c, cpmsrv/cltexec.c,
 cpmsrv/cltconfig.c, cpmsrv/cpmshm.c), as functions from one state of its client table to
 the next.  `ClientMonitor` is the object that does it step by step.

 The exits of child processes are reported by another thread; the lists of exits in the
 inputs say what it reports meanwhile.
 */
module ClientSpec {
  import opened Common

  datatype RunState = NotRun | Starting | Started | Waiting

  /** What the configuration says; -1 for no memory limit, group 0 for none. */
  datatype Stat = Stat(group: nat, autoStart: bool, rssMax: int, vszMax: int)

  datatype Dyn = Dyn(cur: RunState, req: RunState, pid: int, shmRead: bool, wasStarted: bool, exitStatus: int)

  datatype Client = Client(stat: Stat, dyn: Dyn, refreshed: bool)

  const FRESH := Dyn(NotRun, NotRun, 0, false, false, 0)

  /** The clients, in the order of iteration, and the groups whose clients are marked as booted. */
  datatype World = World(order: seq<string>, clients: map<string, Client>, booted: set<nat>)

  const EMPTY := World([], map[], {})

  datatype Signal = SigInt | SigTerm | SigKill

  /** What the monitor does to its surroundings. */
  datatype Event =
    | Attempt(key: string)
    | Fork(key: string, pid: int)
    | Signalled(key: string, sig: Signal)
    | LockLost(key: string)
    | Marked(group: nat)

  predicate Distinct(order: seq<string>) {
    forall i, j | 0 <= i < j < |order| :: order[i] != order[j]
  }

  ghost predicate Valid(w: World) {
    (forall k :: k in w.order <==> k in w.clients) && Distinct(w.order)
  }

  predicate SameKeys(w: World, w': World) {
    w'.order == w.order && w'.clients.Keys == w.clients.Keys
  }

  /** Same clients, same settings and requests. */
  ghost predicate SameRequests(w: World, w': World) {
    && SameKeys(w, w') && w'.booted == w.booted
    && forall k | k in w.clients ::
         && w'.clients[k].stat == w.clients[k].stat && w'.clients[k].refreshed == w.clients[k].refreshed
         && w'.clients[k].dyn.req == w.clients[k].dyn.req
  }

  function Put(w: World, key: string, d: Dyn): (w': World)
    requires key in w.clients
    ensures SameKeys(w, w') && (d.req == w.clients[key].dyn.req ==> SameRequests(w, w'))
  {
    w.(clients := w.clients[key := w.clients[key].(dyn := d)])
  }

  // ---------------------------------------------------------------------------
  // Exits and kills
  // ---------------------------------------------------------------------------

  datatype Exit = Exit(pid: int, status: int)

  /** The first client recorded with this pid. */
  function FirstWithPid(order: seq<string>, clients: map<string, Client>, pid: int): (key: Option<string>)
    requires forall k | k in order :: k in clients
    ensures key.Some? ==> key.value in order && clients[key.value].dyn.pid == pid
    ensures key.None? ==> forall k | k in order :: clients[k].dyn.pid != pid
  {
    if order == [] then None
    else if clients[order[0]].dyn.pid == pid then Some(order[0])
    else FirstWithPid(order[1..], clients, pid)
  }

  /** A child has exited or stopped. */
  function ExitStep(w: World, x: Exit): (w': World)
    requires Valid(w)
    ensures Valid(w') && SameKeys(w, w') && SameRequests(w, w')
  {
    match FirstWithPid(w.order, w.clients, x.pid)
    case None => w
    case Some(k) => Put(w, k, w.clients[k].dyn.(cur := NotRun, exitStatus := x.status))
  }

  function Exits(w: World, xs: seq<Exit>): (w': World)
    requires Valid(w)
    ensures Valid(w') && SameKeys(w, w') && SameRequests(w, w')
    decreases |xs|
  {
    if xs == [] then w else ExitStep(Exits(w, xs[..|xs| - 1]), xs[|xs| - 1])
  }

  /** Notice that a client that is not our child has gone; an error unless it was asked to stop. */
  function Look(w: World, key: string, alive: bool): (w': World)
    requires Valid(w) && key in w.clients
    ensures Valid(w') && SameKeys(w, w') && SameRequests(w, w')
  {
    var d := w.clients[key].dyn;
    if d.cur == Started && d.shmRead && !alive then
      Put(w, key, d.(cur := NotRun, exitStatus := if d.req == NotRun then 0 else -1))
    else w
  }

  /** What happens during a three-stage kill: the exits reported in each stage, and whether the process is still there. */
  datatype KillEnv = KillEnv(first: seq<Exit>, second: seq<Exit>, third: seq<Exit>, alive: bool)

  /** Interrupt, terminate, kill; each after the first only if the client is still recorded as started. */
  function Kill(w: World, key: string, env: KillEnv): (r: (World, seq<Event>))
    requires Valid(w) && key in w.clients
    ensures Valid(r.0) && SameKeys(w, r.0) && SameRequests(w, r.0)
  {
    var w1, e1 := Exits(w, env.first), [Signalled(key, SigInt)];
    if w1.clients[key].dyn.cur != Started then (w1, e1)
    else
      var w2, e2 := Look(Exits(w1, env.second), key, env.alive), e1 + [Signalled(key, SigTerm)];
      if w2.clients[key].dyn.cur != Started then (w2, e2)
      else (Exits(w2, env.third), e2 + [Signalled(key, SigKill)])
  }

  // ---------------------------------------------------------------------------
  // The timer pass
  // ---------------------------------------------------------------------------

  /** Memory use in bytes, when it can be read. */
  datatype Usage = Unknown | Usage(rss: int, vsz: int)

  /** What the surroundings do at one client's turn; `forked` is the pid a fork returns, or -1. */
  datatype Visit = Visit(before: seq<Exit>, forked: int, usage: Usage, kill: KillEnv, after: seq<Exit>, alive: bool)

  const QUIET := Visit([], -1, Unknown, KillEnv([], [], [], true), [], true)

  function VisitAt(visits: seq<Visit>, i: nat): Visit {
    if i < |visits| then visits[i] else QUIET
  }

  predicate OverLimit(s: Stat, u: Usage) {
    u.Usage? && ((s.rssMax != -1 && u.rss > s.rssMax) || (s.vszMax != -1 && u.vsz > s.vszMax))
  }

  /** The singleton groups, and those of them this node holds by the snapshot of the pass. */
  datatype Groups = Groups(singleton: set<nat>, locked: set<nat>)

  /** The client's group is a singleton that this node does not hold. */
  predicate Barred(g: Groups, s: Stat) {
    s.group > 0 && s.group in g.singleton && s.group !in g.locked
  }

  /** Try to start a client. */
  function Exec(w: World, key: string, forked: int): (r: (World, seq<Event>))
    requires Valid(w) && key in w.clients
    ensures Valid(r.0) && SameKeys(w, r.0) && SameRequests(w, r.0)
  {
    var d := w.clients[key].dyn.(wasStarted := true, shmRead := false);
    if forked == -1 then (Put(w, key, d), [Attempt(key)])
    else (Put(w, key, d.(pid := forked, cur := Started)), [Attempt(key), Fork(key, forked)])
  }

  /** The part of a turn that may start the client or kill it for its memory use. */
  function StartOrCheck(w: World, g: Groups, key: string, v: Visit): (r: (World, seq<Event>))
    requires Valid(w) && key in w.clients
    ensures Valid(r.0) && SameKeys(w, r.0) && SameRequests(w, r.0)
  {
    var c := w.clients[key];
    if c.dyn.cur == Started then
      if OverLimit(c.stat, v.usage) then Kill(w, key, v.kill) else (w, [])
    else if c.dyn.req != Started then (w, [])
    else if Barred(g, c.stat) then (Put(w, key, c.dyn.(cur := Waiting)), [])
    else Exec(w, key, v.forked)
  }

  /** One client's turn, up to the test of its process. */
  function BeforeTest(w: World, g: Groups, key: string, v: Visit): (r: (World, seq<Event>))
    requires Valid(w) && key in w.clients
    ensures Valid(r.0) && SameKeys(w, r.0) && SameRequests(w, r.0)
  {
    var (w1, e1) := StartOrCheck(Exits(w, v.before), g, key, v);
    (Exits(w1, v.after), e1)
  }

  /** The test of the process: killed if its group's lock is lost. */
  function Test(w: World, g: Groups, key: string, alive: bool): (r: (World, seq<Event>))
    requires Valid(w) && key in w.clients
    ensures Valid(r.0) && SameKeys(w, r.0) && SameRequests(w, r.0)
  {
    var c := w.clients[key];
    (Look(w, key, alive), if Barred(g, c.stat) && c.dyn.cur == Started then [LockLost(key)] else [])
  }

  function Turn(w: World, g: Groups, key: string, v: Visit): (r: (World, seq<Event>))
    requires Valid(w) && key in w.clients
    ensures Valid(r.0) && SameKeys(w, r.0) && SameRequests(w, r.0)
  {
    var (w1, e1) := BeforeTest(w, g, key, v);
    var (w2, e2) := Test(w1, g, key, v.alive);
    (w2, e1 + e2)
  }

  /** The turns of the first `n` clients. */
  function Turns(w: World, g: Groups, visits: seq<Visit>, n: nat): (r: (World, seq<Event>))
    requires Valid(w) && n <= |w.order|
    ensures Valid(r.0) && SameKeys(w, r.0) && SameRequests(w, r.0)
    decreases n
  {
    if n == 0 then (w, [])
    else
      var (w1, e1) := Turns(w, g, visits, n - 1);
      assert w.order[n - 1] in w.order;
      var (w2, e2) := Turn(w1, g, w.order[n - 1], VisitAt(visits, n - 1));
      (w2, e1 + e2)
  }

  /** The locked groups, numbered 1 to `n`, are marked as having their clients booted. */
  function Marks(booted: set<nat>, locked: set<nat>, n: nat): (set<nat>, seq<Event>) {
    if n == 0 then (booted, [])
    else
      var (b, e) := Marks(booted, locked, n - 1);
      if n in locked && n !in b then (b + {n}, e + [Marked(n)]) else (b, e)
  }

  function Pass(w: World, g: Groups, groups: nat, visits: seq<Visit>): (r: (World, seq<Event>))
    requires Valid(w)
    ensures Valid(r.0) && SameKeys(w, r.0)
  {
    var (w1, e1) := Turns(w, g, visits, |w.order|);
    var (b, e2) := Marks(w1.booted, g.locked, groups);
    (w1.(booted := b), e1 + e2)
  }

  // ---------------------------------------------------------------------------
  // Commands
  // ---------------------------------------------------------------------------

  function Ask(w: World, key: string, run: bool): (w': World)
    requires Valid(w) && key in w.clients
    ensures Valid(w') && SameKeys(w, w')
  {
    var d := w.clients[key].dyn;
    Put(w, key, if run then d.(req := Started, cur := Starting) else d.(req := NotRun))
  }

  /** Ask a client to stop, and kill it if it is recorded as started. */
  function Stop(w: World, key: string, env: KillEnv): (r: (World, seq<Event>))
    requires Valid(w)
    ensures Valid(r.0) && SameKeys(w, r.0)
  {
    if key !in w.clients then (w, [])
    else if w.clients[key].dyn.cur == Started then Kill(Ask(w, key, false), key, env)
    else (Ask(w, key, false), [])
  }

  /** Ask a client to run; lost while the client is still recorded as started. */
  function Boot(w: World, key: string): (w': World)
    requires Valid(w)
    ensures Valid(w') && SameKeys(w, w')
  {
    if key in w.clients && w.clients[key].dyn.cur != Started then Ask(w, key, true) else w
  }

  /** Stop and boot a client that is asked to run. */
  function Restart(w: World, key: string, env: KillEnv): (r: (World, seq<Event>))
    requires Valid(w)
    ensures Valid(r.0) && SameKeys(w, r.0)
  {
    if key in w.clients && w.clients[key].dyn.req == Started then
      var (w1, e) := Stop(w, key, env);
      (Boot(w1, key), e)
    else (w, [])
  }

  /** Ask the first `n` clients to run, if they are configured to start with the monitor. */
  function StartFirst(w: World, n: nat): (w': World)
    requires Valid(w) && n <= |w.order|
    ensures Valid(w') && SameKeys(w, w')
    decreases n
  {
    if n == 0 then w
    else
      var w1 := StartFirst(w, n - 1);
      assert w.order[n - 1] in w1.order;
      if w1.clients[w.order[n - 1]].stat.autoStart then Ask(w1, w.order[n - 1], true) else w1
  }

  function StartAll(w: World): (w': World)
    requires Valid(w)
    ensures Valid(w') && SameKeys(w, w')
  {
    StartFirst(w, |w.order|)
  }

  /** Take over the processes of the first `n` clients found running in shared memory. */
  function AttachFirst(w: World, found: map<string, int>, n: nat): (w': World)
    requires Valid(w) && n <= |w.order|
    ensures Valid(w') && SameKeys(w, w') && SameRequests(w, w')
    decreases n
  {
    if n == 0 then w
    else
      var w1, k := AttachFirst(w, found, n - 1), w.order[n - 1];
      assert k in w1.order;
      if k in found then Put(w1, k, w1.clients[k].dyn.(cur := Started, pid := found[k], shmRead := true)) else w1
  }

  function Attach(w: World, found: map<string, int>): (w': World)
    requires Valid(w)
    ensures Valid(w') && SameKeys(w, w') && SameRequests(w, w')
  {
    AttachFirst(w, found, |w.order|)
  }

  // ---------------------------------------------------------------------------
  // Configuration
  // ---------------------------------------------------------------------------

  /** One entry: a new client, or new settings for a known one. */
  function Refresh(w: World, key: string, stat: Stat): (w': World)
    requires Valid(w)
    ensures Valid(w')
  {
    if key in w.clients then w.(clients := w.clients[key := w.clients[key].(stat := stat, refreshed := true)])
    else w.(clients := w.clients[key := Client(stat, FRESH, true)], order := w.order + [key])
  }

  function Refreshes(w: World, entries: seq<(string, Stat)>): (w': World)
    requires Valid(w)
    ensures Valid(w')
    decreases |entries|
  {
    if entries == [] then w
    else
      var n := |entries| - 1;
      Refresh(Refreshes(w, entries[..n]), entries[n].0, entries[n].1)
  }

  function Unrefreshed(w: World): (w': World)
    requires Valid(w)
    ensures Valid(w')
  {
    w.(clients := map k | k in w.clients :: w.clients[k].(refreshed := false))
  }

  /** The client is configured or doing something. */
  predicate Keeps(c: Client) {
    c.refreshed || c.dyn.cur != NotRun
  }

  function KeptKeys(order: seq<string>, clients: map<string, Client>): (kept: seq<string>)
    requires forall k | k in order :: k in clients
    ensures forall k :: k in kept <==> k in order && Keeps(clients[k])
    ensures Distinct(order) ==> Distinct(kept)
    decreases |order|
  {
    if order == [] then []
    else
      var n := |order| - 1;
      KeptKeys(order[..n], clients) + (if Keeps(clients[order[n]]) then [order[n]] else [])
  }

  /** Drop the clients that are no longer configured and not running. */
  function Sweep(w: World): (w': World)
    requires Valid(w)
    ensures Valid(w')
  {
    w.(order := KeptKeys(w.order, w.clients), clients := map k | k in w.clients && Keeps(w.clients[k]) :: w.clients[k])
  }

  /** Load a changed configuration; `complete` says whether reading got to the end. */
  function Reload(w: World, entries: seq<(string, Stat)>, complete: bool): (w': World)
    requires Valid(w)
    ensures Valid(w')
  {
    var w1 := Refreshes(Unrefreshed(w), entries);
    if complete then Sweep(w1) else w1
  }
}
