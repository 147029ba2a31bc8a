/**
 The bridge's temporary queues (bridge/tempq.c): messages whose destination queue was
 full wait here, one list per destination, and a single runner thread retries them.

 Adding a message and visiting the head of a list are the atomic steps between which
 other threads can act.  This module defines the steps and what every interleaving of
 them keeps; `TempQueueRunner` has the routines that make them.
 */
module TempQueue {
  import opened Common

  datatype FullAction = Block | Drop | Ignore

  datatype Config = Config(qsize: int, qsizesvc: int, qfull: FullAction, qfullsvc: FullAction,
                           qretries: int, qttl: int, qminsleep: int, qmaxsleep: int)

  /** What the bridge's start-up leaves in the settings. */
  predicate ConfigOk(cfg: Config) {
    && 1 <= cfg.qsizesvc <= cfg.qsize
    && cfg.qminsleep >= 1 && cfg.qmaxsleep >= 1
    && cfg.qfull != Ignore && cfg.qfullsvc != Block
    && (cfg.qfull == Drop ==> cfg.qfullsvc == Drop)
  }

  /** A service call; `canExpire` for a call or a connect whose caller did not ask for no time-out. */
  datatype Pack = ToNdrxd | ToReplyQ | ToSvc(canExpire: bool, clttout: int)

  datatype Msg = Msg(ptr: nat, pack: Pack, tries: int, nextTry: int, added: int, updated: int)

  datatype Queue = Queue(ptr: nat, qstr: string, nrmsg: int, msgs: seq<Msg>)

  datatype Fate = Sent | Expired | Discarded

  /** How a message left, and the clock when the runner asked how long it had waited. */
  datatype Departure = Departure(ptr: nat, fate: Fate, at: int)

  /** What was accepted, and when. */
  datatype Entry = Entry(pack: Pack, at: int)

  /**
   One send of a message: the clock when the runner asked whether it was due, what the send
   came to, how old the call was, the clock when the message was put off after it, and
   whether it was reached right after another message of its queue had left.
   */
  datatype Sending = Sending(asked: int, result: SendResult, callAge: int, putOff: int, follows: bool)

  /**
   What has happened so far: the messages accepted for each destination and those that have
   left it, both in order, and for each message what it is and all its sends.
   */
  datatype History = History(accepted: map<string, seq<nat>>, entries: map<nat, Entry>, gone: map<string, seq<Departure>>,
                             sends: map<nat, seq<Sending>>)

  /**
   `hash` lists the temporary queues in the order of iteration; `next` numbers allocations;
   `freed` is the queue the runner is at, if it has just taken a message of it away.
   */
  datatype State = State(hash: seq<Queue>, count: int, next: nat, hist: History, freed: Option<string>)

  function Get<T>(m: map<string, seq<T>>, d: string): seq<T> {
    if d in m then m[d] else []
  }

  const INIT := State([], 0, 0, History(map[], map[], map[], map[]), None)

  // ---------------------------------------------------------------------------
  // Adding
  // ---------------------------------------------------------------------------

  /** Where the queue for `d` is, or the end of the hash. */
  function Find(hash: seq<Queue>, d: string): (i: nat)
    ensures i <= |hash|
    ensures i < |hash| ==> hash[i].qstr == d
    ensures forall j | 0 <= j < i :: hash[j].qstr != d
  {
    if hash == [] then 0
    else if hash[0].qstr == d then 0
    else 1 + Find(hash[1..], d)
  }

  /** The hash with an entry for `d`, which is new and empty if there was none. */
  function WithQueue(s: State, d: string): (seq<Queue>, nat) {
    if Find(s.hash, d) < |s.hash| then (s.hash, s.next)
    else (s.hash + [Queue(s.next, d, 0, [])], s.next + 1)
  }

  predicate Drops(cfg: Config, s: State, nrmsg: int) {
    || (cfg.qfull == Drop && s.count + 1 > cfg.qsize)
    || (cfg.qfullsvc == Drop && nrmsg + 1 > cfg.qsizesvc)
  }

  function NewMsg(cfg: Config, ptr: nat, pack: Pack, now: int): Msg {
    Msg(ptr, pack, 1, cfg.qminsleep, now, now)
  }

  /** The new state, and whether the message was taken; its first, direct send counts as an attempt. */
  function Add(cfg: Config, s: State, d: string, pack: Pack, now: int): (State, bool) {
    var i := Find(s.hash, d);
    var (hash, next) := WithQueue(s, d);
    if Drops(cfg, s, hash[i].nrmsg) then (s.(hash := hash, next := next), false)
    else
      var q := hash[i];
      var m := NewMsg(cfg, next, pack, now);
      (State(hash[i := q.(nrmsg := q.nrmsg + 1, msgs := q.msgs + [m])], s.count + 1, next + 1,
             Accept(s.hist, d, next, Entry(pack, now)), s.freed),
       true)
  }

  /** The history when message `ptr` is accepted for `d`: its first, direct send found the destination full. */
  function Accept(h: History, d: string, ptr: nat, x: Entry): History {
    h.(accepted := h.accepted[d := Get(h.accepted, d) + [ptr]], entries := h.entries[ptr := x],
       sends := h.sends[ptr := [Sending(x.at, SendAgain, 0, x.at, false)]])
  }

  // ---------------------------------------------------------------------------
  // Visiting the head of a queue
  // ---------------------------------------------------------------------------

  datatype SendResult = SendOk | SendAgain | SendBroken

  /**
   What the runner meets at one visit: the clock when it asks whether the message is due,
   the clock when it asks how long the message has waited, the send's result, the age of
   the call in seconds, and the clock when the message is put off.
   */
  datatype Env = Env(now: int, later: int, send: SendResult, callAge: int, resetAt: int)

  predicate Due(m: Msg, e: Env, wasOk: bool) {
    e.now - m.updated >= m.nextTry || wasOk
  }

  predicate MaySend(cfg: Config, m: Msg, e: Env) {
    m.tries + 1 <= cfg.qretries && e.later - m.added <= cfg.qttl
  }

  predicate CallExpired(m: Msg, e: Env) {
    m.pack.ToSvc? && m.pack.canExpire && m.pack.clttout > 0 && e.callAge >= m.pack.clttout
  }

  /** Twice the wait, within the limits. */
  function Longer(cfg: Config, t: int): int {
    if t * 2 > cfg.qmaxsleep then cfg.qmaxsleep
    else if t * 2 < cfg.qminsleep then cfg.qminsleep
    else t * 2
  }

  datatype VisitEnd = NotDue | Kept | Gone(fate: Fate)

  function VisitResult(cfg: Config, m: Msg, e: Env, wasOk: bool): VisitEnd {
    if !Due(m, e, wasOk) then NotDue
    else if !MaySend(cfg, m, e) then Gone(Discarded)
    else
      match e.send
      case SendOk => Gone(Sent)
      case SendBroken => Gone(Discarded)
      case SendAgain => if CallExpired(m, e) then Gone(Expired) else Kept
  }

  function Tried(h: History, ptr: nat, x: Sending): History {
    h.(sends := h.sends[ptr := (if ptr in h.sends then h.sends[ptr] else []) + [x]])
  }

  function SendingAt(e: Env, wasOk: bool): Sending {
    Sending(e.now, e.send, e.callAge, e.resetAt, wasOk)
  }

  /** Take the head of queue `i` away; a queue that becomes empty goes with it. */
  function RemoveHead(s: State, i: nat, fate: Fate, at: int): State
    requires i < |s.hash| && s.hash[i].msgs != []
  {
    var q := s.hash[i];
    var q' := q.(nrmsg := q.nrmsg - 1, msgs := q.msgs[1..]);
    State(if q'.nrmsg == 0 then s.hash[..i] + s.hash[i + 1..] else s.hash[i := q'], s.count - 1, s.next,
          s.hist.(gone := s.hist.gone[q.qstr := Get(s.hist.gone, q.qstr) + [Departure(q.msgs[0].ptr, fate, at)]]),
          Some(q.qstr))
  }

  /** Put the head of queue `i` off. */
  function PutOff(cfg: Config, s: State, i: nat, at: int): State
    requires i < |s.hash| && s.hash[i].msgs != []
  {
    var q := s.hash[i];
    var m := q.msgs[0];
    var m' := m.(tries := m.tries + 1, nextTry := Longer(cfg, m.nextTry), updated := at);
    s.(hash := s.hash[i := q.(msgs := [m'] + q.msgs[1..])], freed := None)
  }

  function Visit(cfg: Config, s: State, i: nat, e: Env, wasOk: bool): State
    requires i < |s.hash| && s.hash[i].msgs != []
  {
    var m := s.hash[i].msgs[0];
    var s' := if Due(m, e, wasOk) && MaySend(cfg, m, e) then s.(hist := Tried(s.hist, m.ptr, SendingAt(e, wasOk))) else s;
    match VisitResult(cfg, m, e, wasOk)
    case NotDue => s.(freed := None)
    case Kept => PutOff(cfg, s', i, e.resetAt)
    case Gone(fate) => RemoveHead(s', i, fate, e.later)
  }

  // ---------------------------------------------------------------------------
  // Any interleaving of adders and the runner
  // ---------------------------------------------------------------------------

  /** A message arrives; the runner comes to another queue; it visits the head of a queue. */
  datatype Step =
    | AddStep(d: string, pack: Pack, now: int)
    | TurnStep
    | VisitStep(i: nat, e: Env, wasOk: bool)

  /** The runner goes on to a message without a look at its wait exactly when the message before it in the queue has just left. */
  predicate Enabled(s: State, step: Step) {
    step.VisitStep? ==>
      && step.i < |s.hash| && s.hash[step.i].msgs != []
      && (step.wasOk <==> s.freed == Some(s.hash[step.i].qstr))
  }

  function Apply(cfg: Config, s: State, step: Step): State
    requires Enabled(s, step)
  {
    match step
    case AddStep(d, pack, now) => Add(cfg, s, d, pack, now).0
    case TurnStep => s.(freed := None)
    case VisitStep(i, e, wasOk) => Visit(cfg, s, i, e, wasOk)
  }

  ghost predicate Reaches(cfg: Config, s: State, steps: seq<Step>, s': State)
    decreases |steps|
  {
    if steps == [] then s' == s
    else Enabled(s, steps[0]) && Reaches(cfg, Apply(cfg, s, steps[0]), steps[1..], s')
  }

  // ---------------------------------------------------------------------------
  // The invariant
  // ---------------------------------------------------------------------------

  function Limit(cfg: Config): int {
    if cfg.qretries > 1 then cfg.qretries else 1
  }

  function Pow2(k: nat): (p: int)
    ensures p >= 1
  {
    if k == 0 then 1 else 2 * Pow2(k - 1)
  }

  /** The wait after `k` failed late attempts. */
  function Backoff(cfg: Config, k: nat): int {
    if k == 0 then cfg.qminsleep
    else if cfg.qminsleep * Pow2(k) > cfg.qmaxsleep then cfg.qmaxsleep
    else cfg.qminsleep * Pow2(k)
  }

  lemma {:induction false} BackoffStep(cfg: Config, k: nat)
    requires ConfigOk(cfg)
    ensures Longer(cfg, Backoff(cfg, k)) == Backoff(cfg, k + 1)
  {
  }

  /** A call that may time out and is at least as old as its time-out. */
  predicate TimedOut(pack: Pack, age: int) {
    match pack
    case ToSvc(canExpire, clttout) => canExpire && 0 < clttout <= age
    case _ => false
  }

  /** All sends found the destination full, and no late one found the call timed out. */
  predicate AllAgain(pack: Pack, sends: seq<Sending>) {
    forall i | 0 <= i < |sends| :: sends[i].result == SendAgain && (i > 0 ==> !TimedOut(pack, sends[i].callAge))
  }

  /** Each late send was made after the whole wait since the message was put off, or right after another message left. */
  predicate Spaced(cfg: Config, sends: seq<Sending>) {
    forall i | 1 <= i < |sends| :: sends[i].follows || sends[i].asked >= sends[i - 1].putOff + Backoff(cfg, i - 1)
  }

  predicate MsgOk(cfg: Config, h: History, m: Msg) {
    && 1 <= m.tries <= Limit(cfg)
    && m.nextTry == Backoff(cfg, m.tries - 1)
    && m.ptr in h.entries && h.entries[m.ptr] == Entry(m.pack, m.added)
    && m.ptr in h.sends && |h.sends[m.ptr]| == m.tries && AllAgain(m.pack, h.sends[m.ptr])
    && m.updated == h.sends[m.ptr][m.tries - 1].putOff
  }

  ghost predicate QueueOk(cfg: Config, h: History, q: Queue) {
    && q.nrmsg == |q.msgs|
    && (cfg.qfullsvc == Drop ==> q.nrmsg <= cfg.qsizesvc)
    && forall m | m in q.msgs :: MsgOk(cfg, h, m)
  }

  function Total(hash: seq<Queue>): int {
    if hash == [] then 0 else |hash[0].msgs| + Total(hash[1..])
  }

  function Ids(ms: seq<Msg>): (r: seq<nat>)
    ensures |r| == |ms| && forall k | 0 <= k < |r| :: r[k] == ms[k].ptr
  {
    seq(|ms|, k requires 0 <= k < |ms| => ms[k].ptr)
  }

  /** The messages waiting for destination `d`, in order. */
  function Waiting(hash: seq<Queue>, d: string): seq<nat> {
    if Find(hash, d) < |hash| then Ids(hash[Find(hash, d)].msgs) else []
  }

  function Left(gone: seq<Departure>): (r: seq<nat>)
    ensures |r| == |gone| && forall k | 0 <= k < |r| :: r[k] == gone[k].ptr
  {
    seq(|gone|, k requires 0 <= k < |gone| => gone[k].ptr)
  }

  /** Every message accepted for `d` has left, in order, or still waits, in order. */
  ghost predicate Conserved(s: State, d: string) {
    Get(s.hist.accepted, d) == Left(Get(s.hist.gone, d)) + Waiting(s.hash, d)
  }

  ghost predicate Distinct(hash: seq<Queue>) {
    forall i, j | 0 <= i < j < |hash| :: hash[i].qstr != hash[j].qstr && hash[i].ptr != hash[j].ptr
  }

  /** Accepted messages are numbered below `next`, each once. */
  ghost predicate Numbered(accepted: map<string, seq<nat>>, next: nat) {
    && (forall d, k | d in accepted && 0 <= k < |accepted[d]| :: accepted[d][k] < next)
    && forall d, k, d', k' | d in accepted && 0 <= k < |accepted[d]| && d' in accepted && 0 <= k' < |accepted[d']| ::
         accepted[d][k] == accepted[d'][k'] ==> d == d' && k == k'
  }

  ghost predicate AttemptsOk(cfg: Config, h: History, next: nat) {
    && (forall p | p in h.sends :: p < next && 1 <= |h.sends[p]| <= Limit(cfg) && Spaced(cfg, h.sends[p]))
    && forall d, k | d in h.accepted && 0 <= k < |h.accepted[d]| :: h.accepted[d][k] in h.sends
  }

  /**
   What the sends of a message that has left came to.  All but the last found the
   destination full and the call not timed out; it was given up without an error only after
   its last try or its time to live, and sent, or found broken or timed out, only before.
   */
  predicate EndsAs(cfg: Config, x: Departure, m: Entry, sends: seq<Sending>) {
    && sends != []
    && AllAgain(m.pack, sends[..|sends| - 1])
    && var n := |sends| - 1;
       var last, inTime := sends[n], |sends| <= cfg.qretries && x.at - m.at <= cfg.qttl;
       var timedOut := n > 0 && TimedOut(m.pack, last.callAge);
       match x.fate
       case Sent => last.result == SendOk && inTime
       case Expired => last.result == SendAgain && inTime && timedOut
       case Discarded =>
         || (last.result == SendBroken && inTime)
         || (last.result == SendAgain && !timedOut && (|sends| + 1 > cfg.qretries || x.at - m.at > cfg.qttl))
  }

  predicate FateOk(cfg: Config, h: History, x: Departure) {
    x.ptr in h.sends && x.ptr in h.entries && EndsAs(cfg, x, h.entries[x.ptr], h.sends[x.ptr])
  }

  ghost predicate FatesOk(cfg: Config, h: History) {
    forall d, k | d in h.gone && 0 <= k < |h.gone[d]| :: FateOk(cfg, h, h.gone[d][k])
  }

  ghost predicate Inv(cfg: Config, s: State) {
    && Distinct(s.hash)
    && (forall i | 0 <= i < |s.hash| :: s.hash[i].ptr < s.next && QueueOk(cfg, s.hist, s.hash[i]))
    && s.count == Total(s.hash)
    && (cfg.qfull == Drop ==> s.count <= cfg.qsize)
    && (forall d :: Conserved(s, d))
    && Numbered(s.hist.accepted, s.next)
    && AttemptsOk(cfg, s.hist, s.next)
    && FatesOk(cfg, s.hist)
  }
}
