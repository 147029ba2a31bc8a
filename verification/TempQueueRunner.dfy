/**
 The routines of the bridge's temporary queues (bridge/tempq.c): adding a message, and the
 runner thread's pass over all queues.

 The runner gives up the lock whenever it handles a message.  What other threads do in
 such a window, what the clock and the sends say, comes from `env`, one `Window` for each
 message handled.  The runner keeps pointers across the windows: the queue and the message
 it is at, and the next of each.
 */
module TempQueueRunner {
  import opened Common
  import opened TempQueue
  import opened TempQueueInv
  import opened TempQueueRuns

  /** What another thread does: add a message, or submit the job it owes after adding one. */
  datatype Op = AddOp(d: string, pack: Pack, now: int) | JobOp

  datatype Window = Window(e: Env, before: seq<Op>, after: seq<Op>)

  /** Other threads do nothing from window `k` on. */
  ghost predicate QuietFrom(env: nat -> Window, k: nat) {
    forall j: nat | j >= k :: env(j).before == [] && env(j).after == []
  }

  // ---------------------------------------------------------------------------
  // Pointers
  // ---------------------------------------------------------------------------

  ghost predicate Alive(hash: seq<Queue>, p: nat) {
    exists i :: 0 <= i < |hash| && hash[i].ptr == p
  }

  function IndexOf(hash: seq<Queue>, p: nat): (i: nat)
    requires Alive(hash, p)
    ensures i < |hash| && hash[i].ptr == p
  {
    if hash[0].ptr == p then 0
    else
      assert Alive(hash[1..], p) by {
        var i :| 0 <= i < |hash| && hash[i].ptr == p;
        assert hash[1..][i - 1].ptr == p;
      }
      1 + IndexOf(hash[1..], p)
  }

  /** The next queue in the order of iteration. */
  function NextQueue(hash: seq<Queue>, i: nat): Option<nat>
    requires i < |hash|
  {
    if i + 1 < |hash| then Some(hash[i + 1].ptr) else None
  }

  function NextMsg(ms: seq<Msg>, j: nat): Option<nat> {
    if j + 1 < |ms| then Some(ms[j + 1].ptr) else None
  }

  /** Adding messages moves no queue and no message: everything new is at the ends. */
  ghost predicate Grown(h: seq<Queue>, h': seq<Queue>) {
    && |h| <= |h'|
    && forall i | 0 <= i < |h| :: h'[i].ptr == h[i].ptr && h'[i].qstr == h[i].qstr && h[i].msgs <= h'[i].msgs
  }

  lemma AddGrows(cfg: Config, s: State, d: string, pack: Pack, now: int)
    ensures Grown(s.hash, Add(cfg, s, d, pack, now).0.hash)
    ensures Add(cfg, s, d, pack, now).0.count == s.count + if Add(cfg, s, d, pack, now).1 then 1 else 0
  {
  }

  /** The queue with one more message at its end. */
  function Appended(cfg: Config, q: Queue, ptr: nat, pack: Pack, now: int): Queue {
    q.(nrmsg := q.nrmsg + 1, msgs := q.msgs + [Msg(ptr, pack, 1, cfg.qminsleep, now, now)])
  }

  lemma AddInPieces(cfg: Config, s: State, d: string, pack: Pack, now: int, i: nat, hash: seq<Queue>, next: nat)
    requires (hash, next) == WithQueue(s, d) && i == Find(s.hash, d) && i < |hash|
    ensures Add(cfg, s, d, pack, now) ==
            if Drops(cfg, s, hash[i].nrmsg) then (State(hash, s.count, next, s.hist, s.freed), false)
            else (State(hash[i := Appended(cfg, hash[i], next, pack, now)], s.count + 1, next + 1,
                        Accept(s.hist, d, next, Entry(pack, now)), s.freed), true)
  {
  }

  /** A queue keeps its place while others only add. */
  lemma GrownIndex(h: seq<Queue>, h': seq<Queue>, p: nat)
    requires Distinct(h') && Grown(h, h') && Alive(h, p)
    ensures Alive(h', p) && IndexOf(h', p) == IndexOf(h, p)
  {
  }

  /** Removing a head leaves all other queues, and the queue itself if it has a next message. */
  lemma RemoveLeaves(s: State, i: nat, fate: Fate, at: int, p: nat)
    requires Distinct(s.hash) && i < |s.hash| && s.hash[i].nrmsg == |s.hash[i].msgs| > 0
    requires Alive(s.hash, p)
    ensures p != s.hash[i].ptr || |s.hash[i].msgs| > 1 ==> Alive(RemoveHead(s, i, fate, at).hash, p)
    ensures p == s.hash[i].ptr && |s.hash[i].msgs| == 1 ==> !Alive(RemoveHead(s, i, fate, at).hash, p)
  {
    var h := RemoveHead(s, i, fate, at).hash;
    var k := IndexOf(s.hash, p);
    if |s.hash[i].msgs| > 1 {
      assert h[k].ptr == p;
    } else if k != i {
      assert h[if k < i then k else k - 1].ptr == p;
    }
  }

  /** What a visit to the head of queue `i` does to the queues and to the queue's own messages. */
  lemma VisitLeaves(cfg: Config, s: State, i: nat, e: Env, wasOk: bool)
    requires Distinct(s.hash) && i < |s.hash| && s.hash[i].nrmsg == |s.hash[i].msgs| > 0
    ensures var h, q := Visit(cfg, s, i, e, wasOk).hash, s.hash[i];
            var gone := VisitResult(cfg, q.msgs[0], e, wasOk).Gone?;
            && (gone ==> Visit(cfg, s, i, e, wasOk).freed == Some(q.qstr))
            && (forall p | Alive(s.hash, p) && p != q.ptr :: Alive(h, p))
            && (gone && |q.msgs| == 1 ==> h == s.hash[..i] + s.hash[i + 1..])
            && (!gone || |q.msgs| > 1 ==>
                  && |h| == |s.hash| && h == s.hash[i := h[i]] && h[i].ptr == q.ptr && h[i].qstr == q.qstr
                  && Ids(h[i].msgs) == Ids(q.msgs)[(if gone then 1 else 0)..])
  {
    hide Longer;
    var s1 := s.(hist := Tried(s.hist, s.hash[i].msgs[0].ptr, SendingAt(e, wasOk)));
    var fate := VisitResult(cfg, s.hash[i].msgs[0], e, wasOk);
    var h := Visit(cfg, s, i, e, wasOk).hash;
    forall p | Alive(s.hash, p) && p != s.hash[i].ptr
      ensures Alive(h, p)
    {
      var k := IndexOf(s.hash, p);
      if fate.Gone? {
        RemoveLeaves(s, i, fate.fate, e.later, p);
        RemoveLeaves(s1, i, fate.fate, e.later, p);
      } else {
        assert h[k].ptr == p;
      }
    }
  }

  lemma HashFacts(cfg: Config, s: State)
    requires Inv(cfg, s)
    ensures Distinct(s.hash)
    ensures forall i | 0 <= i < |s.hash| :: s.hash[i].nrmsg == |s.hash[i].msgs|
  {
  }

  /** The message after the one handled is the queue's head when the lock is held again. */
  lemma NextStaysGood(h0: seq<Queue>, h1: seq<Queue>, h2: seq<Queue>, h3: seq<Queue>, i: nat, drop: nat)
    requires Distinct(h3) && Grown(h0, h1) && Grown(h2, h3)
    requires i < |h0| && i < |h2| && drop < |h0[i].msgs| && h2[i].ptr == h0[i].ptr
    requires Ids(h2[i].msgs) == Ids(h1[i].msgs)[drop..]
    ensures Alive(h3, h0[i].ptr) && IndexOf(h3, h0[i].ptr) == i
    ensures h3[i].msgs != [] && h3[i].msgs[0].ptr == h0[i].msgs[drop].ptr
  {
  }

  // ---------------------------------------------------------------------------
  // Sleeping
  // ---------------------------------------------------------------------------

  /** How a visit to message `m` shortens the sleep that follows the pass. */
  function SleepAfter(cfg: Config, m: Msg, e: Env, wasOk: bool, sleep: int): int {
    match VisitResult(cfg, m, e, wasOk)
    case NotDue => Min(sleep, m.nextTry - (e.now - m.updated))
    case Kept => Min(sleep, Longer(cfg, m.nextTry))
    case Gone(_) => sleep
  }

  /** What handling queue `i` alone leaves: the queue is gone, or the sleep is shortened to the wait of its head. */
  ghost predicate QuietEnd(h: seq<Queue>, i: nat, h': seq<Queue>, sleep: int, sleep': int, seen: int) {
    && i < |h|
    && (|| (h' == h[..i] + h[i + 1..] && sleep' == sleep)
        || (|h'| == |h| && h' == h[i := h'[i]] && h'[i].ptr == h[i].ptr && sleep' == Shortened(h'[i], sleep, seen)))
  }

  /** The clock at the end of a visit that leaves the message where it is. */
  function SeenAt(end: VisitEnd, e: Env): int {
    if end == Kept then e.resetAt else e.now
  }

  /** How long the head of `q`, seen at `t`, has still to wait. */
  function TimeLeft(q: Queue, t: int): int
    requires q.msgs != []
  {
    q.msgs[0].nextTry - (t - q.msgs[0].updated)
  }

  function Shortened(q: Queue, sleep: int, t: int): int {
    if q.msgs == [] then sleep else Min(sleep, TimeLeft(q, t))
  }

  /** A visit that leaves its message in place shortens the sleep to what the message has still to wait, and no other does. */
  lemma VisitSleep(cfg: Config, s: State, i: nat, e: Env, wasOk: bool, sleep: int)
    requires ConfigOk(cfg) && i < |s.hash| && s.hash[i].msgs != [] && sleep > 0
    ensures var m := s.hash[i].msgs[0];
            var end, sleep' := VisitResult(cfg, m, e, wasOk), SleepAfter(cfg, m, e, wasOk, sleep);
            && 0 < sleep' <= sleep
            && (end.Gone? ==> sleep' == sleep)
            && (!end.Gone? ==> |Visit(cfg, s, i, e, wasOk).hash| == |s.hash| &&
                               sleep' == Shortened(Visit(cfg, s, i, e, wasOk).hash[i], sleep, SeenAt(end, e)))
  {
  }

  /** `h'` is `h` but for the contents of queue `i`. */
  ghost predicate SameBut(h: seq<Queue>, i: nat, h': seq<Queue>) {
    i < |h| && |h'| == |h| && h' == h[i := h'[i]] && h'[i].ptr == h[i].ptr
  }

  /** A turn of the inner loop in which nobody else acts. */
  lemma QuietTurn(cfg: Config, h: seq<Queue>, s: State, i: nat, e: Env, wasOk: bool, sleep: int)
    requires ConfigOk(cfg) && Distinct(s.hash) && SameBut(h, i, s.hash) && sleep > 0
    requires s.hash[i].nrmsg == |s.hash[i].msgs| > 0
    ensures var m, h' := s.hash[i].msgs[0], Visit(cfg, s, i, e, wasOk).hash;
            var end, sleep' := VisitResult(cfg, m, e, wasOk), SleepAfter(cfg, m, e, wasOk, sleep);
            if end.Gone? && |s.hash[i].msgs| > 1 then SameBut(h, i, h') && |h'[i].msgs| == |s.hash[i].msgs| - 1
            else QuietEnd(h, i, h', sleep, sleep', SeenAt(end, e))
  {
  }

  lemma SameIndex(h: seq<Queue>, i: nat, h': seq<Queue>)
    requires Distinct(h') && SameBut(h, i, h')
    ensures Alive(h', h[i].ptr) && IndexOf(h', h[i].ptr) == i
  {
  }

  lemma NothingHandled(h: seq<Queue>, i: nat, sleep: int, seen: int)
    requires i < |h|
    ensures SameBut(h, i, h)
    ensures h[i].msgs == [] ==> QuietEnd(h, i, h, sleep, sleep, seen)
  {
  }

  /**
   The sleep is the least time that the head of a queue before place `i` has still to wait, or
   `top` if that is less or there is none.
   */
  ghost predicate AllServed(h: seq<Queue>, i: nat, top: int, sleep: int, seen: map<nat, int>) {
    && i <= |h|
    && (forall j | 0 <= j < i && h[j].msgs != [] :: h[j].ptr in seen && sleep <= TimeLeft(h[j], seen[h[j].ptr]))
    && (sleep == top || exists j | 0 <= j < i && h[j].msgs != [] && h[j].ptr in seen :: sleep == TimeLeft(h[j], seen[h[j].ptr]))
    && sleep <= top
  }

  function PtrAt(h: seq<Queue>, i: nat): Option<nat> {
    if i < |h| then Some(h[i].ptr) else None
  }

  /** After queue `i` the pass goes on with the next one, which has moved down if queue `i` is gone. */
  lemma QuietMove(h: seq<Queue>, i: nat, h': seq<Queue>, sleep: int, sleep': int, t: int)
    requires QuietEnd(h, i, h', sleep, sleep', t)
    ensures var i' := if |h'| < |h| then i else i + 1;
            i' <= |h'| && NextQueue(h, i) == PtrAt(h', i') && |h'| - i' == |h| - i - 1
  {
  }

  lemma QuietServes(h: seq<Queue>, i: nat, h': seq<Queue>, top: int, sleep: int, sleep': int, seen: map<nat, int>, t: int)
    requires Distinct(h) && AllServed(h, i, top, sleep, seen) && QuietEnd(h, i, h', sleep, sleep', t)
    ensures AllServed(h', if |h'| < |h| then i else i + 1, top, sleep', seen[h[i].ptr := t])
  {
    var seen' := seen[h[i].ptr := t];
    if sleep' == sleep && sleep != top {
      var j :| 0 <= j < i && h[j].msgs != [] && h[j].ptr in seen && sleep == TimeLeft(h[j], seen[h[j].ptr]);
      assert h'[j] == h[j] && h[j].ptr != h[i].ptr && seen'[h[j].ptr] == seen[h[j].ptr];
    } else if sleep' != sleep {
      assert h'[i].ptr in seen' && sleep' == TimeLeft(h'[i], seen'[h'[i].ptr]);
    }
  }

  lemma EmptyIsServed(h: seq<Queue>, i: nat, top: int, sleep: int, seen: map<nat, int>)
    requires AllServed(h, i, top, sleep, seen) && i < |h| && h[i].msgs == []
    ensures AllServed(h, i + 1, top, sleep, seen)
  {
  }

  lemma NoneServed(h: seq<Queue>, top: int, seen: map<nat, int>)
    ensures AllServed(h, 0, top, top, seen)
  {
  }

  lemma PlaceOf(h: seq<Queue>, i: nat)
    requires Distinct(h) && i < |h|
    ensures Alive(h, h[i].ptr) && IndexOf(h, h[i].ptr) == i
  {
  }

  /** Times the runner has read before window `k`. */
  ghost predicate ReadBefore(env: nat -> Window, k: nat, t: int) {
    exists j: nat | j < k :: t == env(j).e.now || t == env(j).e.resetAt
  }

  lemma ReadEarlier(env: nat -> Window, k: nat, k': nat, t: int)
    requires k <= k'
    ensures forall u :: ReadBefore(env, k, u) ==> ReadBefore(env, k', u)
    ensures (exists j | k <= j < k' :: t == env(j).e.now || t == env(j).e.resetAt) ==> ReadBefore(env, k', t)
  {
  }

  // ---------------------------------------------------------------------------
  // The routines
  // ---------------------------------------------------------------------------

  class Bridge {
    const cfg: Config

    var hash: seq<Queue>
    var count: int
    var next: nat
    ghost var hist: History
    /** The destination whose queue the runner's last visit took a message from. */
    ghost var freed: Option<string>
    /** The steps made so far by all threads, in the order in which they took effect. */
    ghost var trace: seq<Step>

    /** Incoming traffic is stopped; the runner then holds the global bridge lock. */
    var stopped: bool
    var globalLocked: bool
    /** A runner job waits in the thread pool. */
    var pending: bool
    /** Threads that have added a message and not submitted a job for it yet. */
    var owed: nat

    constructor (cfg: Config)
      requires ConfigOk(cfg)
      ensures this.cfg == cfg && Valid() && AtRest() && Now() == INIT && trace == []
    {
      this.cfg := cfg;
      hash, count, next, hist, freed, trace := [], 0, 0, INIT.hist, None, [];
      stopped, globalLocked, pending, owed := false, false, false, 0;
      new;
      InitInv(cfg);
    }

    ghost function Now(): State
      reads this
    {
      State(hash, count, next, hist, freed)
    }

    ghost predicate Valid()
      reads this
    {
      && ConfigOk(cfg)
      && Reaches(cfg, INIT, trace, Now())
      && Inv(cfg, Now())
      && globalLocked == stopped
      && (cfg.qfull == Drop ==> !stopped)
    }

    /** Between passes: traffic is stopped only while the queues are full, and waiting messages have a run coming. */
    ghost predicate AtRest()
      reads this
    {
      && (stopped ==> count >= cfg.qsize)
      && (count > 0 ==> pending || owed > 0)
    }

    /** Enqueue a message for delayed sending, or refuse it. */
    method AddToQ(d: string, pack: Pack, now: int) returns (taken: bool)
      requires Valid()
      modifies this`hash, this`count, this`next, this`hist, this`trace, this`owed
      ensures Valid() && trace == old(trace) + [AddStep(d, pack, now)]
      ensures (Now(), taken) == Add(cfg, old(Now()), d, pack, now)
      ensures owed == old(owed) + if taken then 1 else 0
    {
      hide Inv;
      hide Add;
      hide Accept;
      hide Find;
      hide WithQueue;
      hide Appended;
      hide Reaches;
      ghost var s := Now();
      AddKeepsInv(cfg, s, d, pack, now);
      RunThenStep(cfg, INIT, trace, s, AddStep(d, pack, now));
      trace := trace + [AddStep(d, pack, now)];
      var i := GetQstrHash(d);
      AddInPieces(cfg, s, d, pack, now, i, hash, next);
      if cfg.qfull == Drop && count + 1 > cfg.qsize {
        return false;
      }
      if cfg.qfullsvc == Drop && hash[i].nrmsg + 1 > cfg.qsizesvc {
        return false;
      }
      count := count + 1;
      hash := hash[i := Appended(cfg, hash[i], next, pack, now)];
      hist := Accept(hist, d, next, Entry(pack, now));
      next := next + 1;
      owed := owed + 1;
      return true;
    }

    /** Find the queue of a destination, or make a new one. */
    method GetQstrHash(d: string) returns (i: nat)
      modifies this`hash, this`next
      ensures (hash, next) == WithQueue(old(Now()), d)
      ensures i == Find(old(hash), d) && i < |hash| && hash[i].qstr == d
    {
      i := FindQueue(d);
      if i == |hash| {
        hash := hash + [Queue(next, d, 0, [])];
        next := next + 1;
      }
    }

    method FindQueue(d: string) returns (i: nat)
      ensures i == Find(hash, d)
    {
      i := 0;
      while i < |hash| && hash[i].qstr != d
        invariant i <= |hash|
        invariant forall j | 0 <= j < i :: hash[j].qstr != d
      {
        i := i + 1;
      }
      FindUnique(hash, d, i);
    }

    /** Ask for a run, unless one is waiting already. */
    method SubmitJob()
      modifies this`pending, this`owed
      ensures pending && owed == if old(owed) > 0 then old(owed) - 1 else 0
    {
      if !pending {
        pending := true;
      }
      if owed > 0 {
        owed := owed - 1;
      }
    }

    /** What other threads do while the lock is free. */
    method Others(ops: seq<Op>)
      requires Valid()
      modifies this`hash, this`count, this`next, this`hist, this`trace, this`owed, this`pending
      ensures Valid() && old(trace) <= trace && Grown(old(hash), hash) && count >= old(count)
      ensures old(pending) ==> pending
      ensures ops == [] ==> Now() == old(Now())
      ensures old(count > 0 ==> pending || owed > 0) ==> (count > 0 ==> pending || owed > 0)
    {
      hide Inv;
      hide Add;
      hide Reaches;
      for i := 0 to |ops|
        invariant Valid() && old(trace) <= trace && Grown(old(hash), hash) && count >= old(count)
        invariant old(pending) ==> pending
        invariant ops == [] ==> Now() == old(Now())
        invariant old(count > 0 ==> pending || owed > 0) ==> (count > 0 ==> pending || owed > 0)
      {
        match ops[i] {
          case AddOp(d, pack, now) =>
            AddGrows(cfg, Now(), d, pack, now);
            var taken := AddToQ(d, pack, now);
          case JobOp =>
            SubmitJob();
        }
      }
    }

    /** Take the head of queue `i` out; a queue without messages is freed. */
    method RemoveMsg(i: nat, ghost fate: Fate, ghost at: int)
      requires i < |hash| && hash[i].msgs != []
      modifies this`hash, this`count, this`hist, this`freed
      ensures Now() == RemoveHead(old(Now()), i, fate, at)
    {
      hist, freed := RemoveHead(Now(), i, fate, at).hist, Some(hash[i].qstr);
      var q := hash[i].(nrmsg := hash[i].nrmsg - 1, msgs := hash[i].msgs[1..]);
      count := count - 1;
      hash := hash[i := q];
      if q.nrmsg == 0 {
        assert hash[..i] + hash[i + 1..] == old(hash)[..i] + old(hash)[i + 1..];
        hash := hash[..i] + hash[i + 1..];
      }
    }

    /** Handle the message at the head of queue `i`. */
    method HandleHead(i: nat, wasOk: bool, e: Env, sleep: int) returns (end: VisitEnd, sleep': int)
      requires i < |hash| && hash[i].msgs != []
      modifies this`hash, this`count, this`hist, this`freed
      ensures Now() == Visit(cfg, old(Now()), i, e, wasOk)
      ensures end == VisitResult(cfg, old(hash)[i].msgs[0], e, wasOk)
      ensures sleep' == SleepAfter(cfg, old(hash)[i].msgs[0], e, wasOk, sleep)
    {
      hide RemoveHead;
      hide Tried;
      var m := hash[i].msgs[0];
      sleep' := sleep;
      if e.now - m.updated < m.nextTry && !wasOk {
        var left := m.nextTry - (e.now - m.updated);
        if left < sleep' {
          sleep' := left;
        }
        freed := None;
        return NotDue, sleep';
      }
      var tries := m.tries + 1;
      if tries <= cfg.qretries && e.later - m.added <= cfg.qttl {
        hist := Tried(hist, m.ptr, SendingAt(e, wasOk));
        match e.send {
          case SendOk =>
            RemoveMsg(i, Sent, e.later);
            return Gone(Sent), sleep';
          case SendBroken =>
            RemoveMsg(i, Discarded, e.later);
            return Gone(Discarded), sleep';
          case SendAgain =>
            if m.pack.ToSvc? && m.pack.canExpire && m.pack.clttout > 0 && e.callAge >= m.pack.clttout {
              RemoveMsg(i, Expired, e.later);
              return Gone(Expired), sleep';
            }
        }
      } else {
        RemoveMsg(i, Discarded, e.later);
        return Gone(Discarded), sleep';
      }
      var wait := m.nextTry * 2;
      if wait > cfg.qmaxsleep {
        wait := cfg.qmaxsleep;
      } else if wait < cfg.qminsleep {
        wait := cfg.qminsleep;
      }
      if wait < sleep' {
        sleep' := wait;
      }
      var m' := m.(tries := tries, nextTry := wait, updated := e.resetAt);
      hash := hash[i := hash[i].(msgs := [m'] + hash[i].msgs[1..])];
      freed := None;
      end := Kept;
    }

    /**
     One turn of the inner loop: the lock is given up, the message handled, the lock taken
     again.  The saved pointer to the next message stays good.
     */
    method VisitHead(q: nat, elt: Option<nat>, wasOk: bool, w: Window, sleep: int)
      returns (end: VisitEnd, sleep': int)
      requires Valid() && Alive(hash, q) && hash[IndexOf(hash, q)].msgs != []
      requires elt == NextMsg(hash[IndexOf(hash, q)].msgs, 0)
      requires wasOk <==> freed == Some(hash[IndexOf(hash, q)].qstr)
      modifies this`hash, this`count, this`next, this`hist, this`freed, this`trace, this`owed, this`pending
      ensures Valid() && old(trace) <= trace
      ensures forall p | Alive(old(hash), p) && p != q :: Alive(hash, p)
      ensures var m := old(hash[IndexOf(hash, q)].msgs[0]);
              end == VisitResult(cfg, m, w.e, wasOk) && sleep' == SleepAfter(cfg, m, w.e, wasOk, sleep)
      ensures !end.Gone? ==> Alive(hash, q) && hash[IndexOf(hash, q)].msgs != []
      ensures end.Gone? && elt.Some? ==>
                Alive(hash, q) && hash[IndexOf(hash, q)].msgs != [] && hash[IndexOf(hash, q)].msgs[0].ptr == elt.value
      ensures end.Gone? && elt.Some? ==> freed == Some(hash[IndexOf(hash, q)].qstr)
      ensures old(pending) ==> pending
      ensures w.before == [] && w.after == [] ==> Now() == Visit(cfg, old(Now()), old(IndexOf(hash, q)), w.e, wasOk)
    {
      hide Inv;
      hide Reaches;
      hide Visit;
      hide VisitResult;
      hide SleepAfter;
      hide IndexOf;
      hide Ids;
      hide Distinct;
      ghost var s0, i0 := Now(), IndexOf(hash, q);
      Others(w.before);
      ghost var s1 := Now();
      HashFacts(cfg, s1);
      GrownIndex(s0.hash, hash, q);
      var i := IndexOf(hash, q);
      VisitLeaves(cfg, s1, i, w.e, wasOk);
      VisitKeepsInv(cfg, s1, i, w.e, wasOk);
      RunThenStep(cfg, INIT, trace, s1, VisitStep(i, w.e, wasOk));
      end, sleep' := HandleHead(i, wasOk, w.e, sleep);
      ghost var s2 := Now();
      trace := trace + [VisitStep(i, w.e, wasOk)];
      Others(w.after);
      HashFacts(cfg, Now());
      if !end.Gone? || elt.Some? {
        NextStaysGood(s0.hash, s1.hash, s2.hash, hash, i, if end.Gone? then 1 else 0);
      }
      forall p | Alive(s0.hash, p) && p != q
        ensures Alive(hash, p)
      {
        GrownIndex(s0.hash, s1.hash, p);
        GrownIndex(s2.hash, hash, p);
      }
    }

    /** The runner comes to another queue. */
    ghost method ComeToQueue()
      requires Valid()
      modifies this`freed, this`trace
      ensures Valid() && Now() == old(Now()).(freed := None) && trace == old(trace) + [TurnStep]
    {
      hide Inv;
      RunThenStep(cfg, INIT, trace, Now(), TurnStep);
      FreedIsIgnored(cfg, Now());
      freed := None;
      trace := trace + [TurnStep];
    }

    /**
     The inner loop: handle the messages of one queue until one has to wait.  `seen` is
     the clock when that one was looked at, in one of the windows of the loop.
     */
    method ProcessQueue(q: nat, env: nat -> Window, k0: nat, ghost horizon: nat, sleep0: int)
      returns (k: nat, sleep: int, ghost seen: int)
      requires Valid() && Alive(hash, q) && sleep0 > 0 && QuietFrom(env, horizon)
      modifies this`hash, this`count, this`next, this`hist, this`freed, this`trace, this`owed, this`pending
      ensures Valid() && old(trace) <= trace
      ensures forall p | Alive(old(hash), p) && p != q :: Alive(hash, p)
      ensures 0 < sleep <= sleep0 && k >= k0
      ensures old(hash[IndexOf(hash, q)].msgs) == [] ==> k == k0 && Now() == old(Now()).(freed := None) && sleep == sleep0
      ensures old(hash[IndexOf(hash, q)].msgs) != [] ==> k > k0
      ensures old(pending) ==> pending
      ensures QuietFrom(env, k0) ==> QuietEnd(old(hash), old(IndexOf(hash, q)), hash, sleep0, sleep, seen)
      ensures QuietFrom(env, k0) && k > k0 ==> exists j | k0 <= j < k :: seen == env(j).e.now || seen == env(j).e.resetAt
    {
      hide Inv;
      hide Reaches;
      hide Visit;
      hide VisitResult;
      hide SleepAfter;
      hide Ids;
      hide IndexOf;
      hide Distinct;
      hide SameBut;
      hide QuietEnd;
      ComeToQueue();
      ghost var start, i := Now(), IndexOf(hash, q);
      var wasOk := false;
      var msgs := hash[IndexOf(hash, q)].msgs;
      var el := if msgs == [] then None else Some(msgs[0].ptr);
      k, sleep, seen := k0, sleep0, env(k0).e.now;
      NothingHandled(start.hash, i, sleep, seen);
      while el.Some?
        invariant Valid() && old(trace) <= trace
        invariant forall p | Alive(start.hash, p) && p != q :: Alive(hash, p)
        invariant 0 < sleep <= sleep0 && k >= k0
        invariant el.Some? ==> Alive(hash, q) && hash[IndexOf(hash, q)].msgs != [] && hash[IndexOf(hash, q)].msgs[0].ptr == el.value
        invariant el.Some? ==> (wasOk <==> freed == Some(hash[IndexOf(hash, q)].qstr))
        invariant k == k0 ==> Now() == start
        invariant msgs == [] ==> el.None? && k == k0 && sleep == sleep0
        invariant el.None? && k == k0 ==> msgs == []
        invariant old(pending) ==> pending
        invariant QuietFrom(env, k0) && el.Some? ==> SameBut(start.hash, i, hash) && IndexOf(hash, q) == i && sleep == sleep0
        invariant QuietFrom(env, k0) && el.None? ==> QuietEnd(start.hash, i, hash, sleep0, sleep, seen)
        invariant QuietFrom(env, k0) && k > k0 ==> exists j | k0 <= j < k :: seen == env(j).e.now || seen == env(j).e.resetAt
        decreases if k < horizon then horizon - k else 0, if el.Some? then |hash[IndexOf(hash, q)].msgs| else 0
      {
        ghost var s, at := Now(), IndexOf(hash, q);
        HashFacts(cfg, s);
        var elt := NextMsg(hash[IndexOf(hash, q)].msgs, 0);
        VisitSleep(cfg, s, at, env(k).e, wasOk, sleep);
        NothingHandled(hash, at, sleep, seen);
        QuietTurn(cfg, hash, s, at, env(k).e, wasOk, sleep);
        if QuietFrom(env, k0) {
          QuietTurn(cfg, start.hash, s, at, env(k).e, wasOk, sleep);
        }
        var end;
        end, sleep := VisitHead(q, elt, wasOk, env(k), sleep);
        seen := SeenAt(end, env(k).e);
        HashFacts(cfg, Now());
        if end.Gone? && elt.Some? && env(k).before == [] && env(k).after == [] {
          SameIndex(s.hash, at, hash);
        }
        k := k + 1;
        if !end.Gone? {
          break;
        }
        wasOk := true;
        el := elt;
      }
    }

    /** The pass over all queues.  A queue pointer saved before a window is still good after it. */
    method Pass(env: nat -> Window, ghost horizon: nat)
      returns (sleep: int, ghost seen: map<nat, int>, ghost k: nat)
      requires Valid() && QuietFrom(env, horizon)
      modifies this`hash, this`count, this`next, this`hist, this`freed, this`trace, this`owed, this`pending
      ensures Valid() && old(trace) <= trace
      ensures 0 < sleep <= cfg.qmaxsleep + 1
      ensures QuietFrom(env, 0) ==>
                AllServed(hash, |hash|, cfg.qmaxsleep + 1, sleep, seen) && forall p | p in seen :: ReadBefore(env, k, seen[p])
    {
      hide SameBut;
      hide TimeLeft;
      hide AtRest;
      hide ReadBefore;
      hide Inv;
      hide Reaches;
      hide IndexOf;
      hide Distinct;
      hide QuietEnd;
      hide AllServed;
      ghost var start := Now();
      HashFacts(cfg, start);
      sleep, seen := cfg.qmaxsleep + 1, map[];
      var at: nat := 0;
      var qhash := PtrAt(hash, 0);
      ghost var place: nat := 0;
      if |hash| > 0 {
        PlaceOf(hash, 0);
      }
      NoneServed(hash, sleep, seen);
      while qhash.Some?
        invariant Valid() && old(trace) <= trace
        invariant qhash.Some? ==> Alive(hash, qhash.value) && place == IndexOf(hash, qhash.value)
        invariant 0 < sleep <= cfg.qmaxsleep + 1
        invariant QuietFrom(env, 0) ==> AllServed(hash, place, cfg.qmaxsleep + 1, sleep, seen) && (qhash.None? ==> place == |hash|)
        invariant QuietFrom(env, 0) ==> forall p | p in seen :: ReadBefore(env, at, seen[p])
        decreases if at < horizon then horizon - at else 0, if qhash.Some? then |hash| - place else 0
      {
        ghost var s, q, k0, sleep0, i := Now(), qhash.value, at, sleep, place;
        HashFacts(cfg, s);
        var qtmp := NextQueue(hash, IndexOf(hash, qhash.value));
        ghost var t;
        at, sleep, t := ProcessQueue(qhash.value, env, at, horizon, sleep);
        qhash := qtmp;
        HashFacts(cfg, Now());
        NothingHandled(s.hash, i, sleep, t);
        if at == k0 || QuietFrom(env, k0) {
          QuietMove(s.hash, i, hash, sleep0, sleep, t);
          place := if |hash| < |s.hash| then i else i + 1;
          if place < |hash| {
            PlaceOf(hash, place);
          }
        } else {
          place := if qhash.Some? then IndexOf(hash, qhash.value) else |hash|;
        }
        if QuietFrom(env, 0) {
          ReadEarlier(env, k0, at, t);
          if at == k0 {
            EmptyIsServed(hash, i, cfg.qmaxsleep + 1, sleep, seen);
          } else {
            QuietServes(s.hash, i, hash, cfg.qmaxsleep + 1, sleep0, sleep, seen, t);
            seen := seen[q := t];
          }
        }
      }
      k := at;
    }

    /**
     The runner job: one pass, then the check of the total, then a sleep and a new job if
     messages are waiting.  `last` and `during` are what other threads do before the total
     is read again and during the sleep; `atCheck` is the total at the check, `left` the
     least time that the pass found a head to have still to wait.
     */
    method RunQ(env: nat -> Window, ghost horizon: nat, last: seq<Op>, during: seq<Op>)
      returns (wait: Option<int>, ghost atCheck: int, ghost left: int, ghost seen: map<nat, int>, ghost k: nat)
      requires Valid() && AtRest() && pending && QuietFrom(env, horizon)
      modifies this
      ensures Valid() && AtRest() && old(trace) <= trace
      ensures atCheck <= count
      ensures atCheck > cfg.qsize ==> stopped
      ensures atCheck < cfg.qsize ==> !stopped
      ensures atCheck == cfg.qsize ==> stopped == old(stopped)
      ensures count > 0 ==> pending
      ensures 0 < left <= cfg.qmaxsleep + 1
      ensures wait.Some? ==> wait.value == if left <= cfg.qmaxsleep then left else cfg.qminsleep
      ensures QuietFrom(env, 0) && last == [] && during == [] ==> (wait.Some? <==> count > 0)
      ensures QuietFrom(env, 0) && last == [] && during == [] ==>
                AllServed(hash, |hash|, cfg.qmaxsleep + 1, left, seen) && forall p | p in seen :: ReadBefore(env, k, seen[p])
    {
      hide Inv;
      hide Reaches;
      pending := false;
      var sleep;
      sleep, seen, k := Pass(env, horizon);
      left := sleep;
      atCheck := count;
      TotalInBounds(cfg, Now());
      if count > cfg.qsize && !stopped {
        globalLocked := true;
        stopped := true;
      } else if count < cfg.qsize && stopped {
        globalLocked := false;
        stopped := false;
      }
      Others(last);
      wait := None;
      if count > 0 {
        if sleep > 0 {
          if sleep > cfg.qmaxsleep {
            sleep := cfg.qminsleep;
          }
          wait := Some(sleep);
          Others(during);
        }
        pending := true;
      }
    }

    /**
     A call from the network: it is sent to its service's queue at once, and queued only if
     that is full.  An unknown service, a broken queue and a refused message are failures,
     answered with an error.
     */
    method Deliver(queue: Option<string>, pack: Pack, now: int, first: SendResult) returns (taken: bool, failed: bool)
      requires Valid()
      modifies this`hash, this`count, this`next, this`hist, this`trace, this`owed
      ensures Valid() && old(trace) <= trace
      ensures taken ==> queue.Some? && first == SendAgain
      ensures queue.Some? && first == SendAgain ==> (Now(), taken) == Add(cfg, old(Now()), queue.value, pack, now)
      ensures queue.None? || first != SendAgain ==> Now() == old(Now()) && !taken
      ensures failed <==> queue.None? || first == SendBroken || (first == SendAgain && !taken)
      ensures old(AtRest()) ==> AtRest()
    {
      hide Reaches;
      hide Inv;
      taken, failed := false, queue.None? || first == SendBroken;
      if queue.Some? && first == SendAgain {
        AddGrows(cfg, Now(), queue.value, pack, now);
        taken := AddToQ(queue.value, pack, now);
        failed := !taken;
      }
    }
  }

  /** Whenever the lock is free, whatever the threads have done, what holds of every run holds of the bridge. */
  lemma BridgeHistory(b: Bridge, d: string)
    requires b.Valid()
    ensures b.count == Total(b.hash) && forall i | 0 <= i < |b.hash| :: b.hash[i].nrmsg == |b.hash[i].msgs|
    ensures Get(b.hist.accepted, d) == Left(Get(b.hist.gone, d)) + Waiting(b.hash, d)
    ensures forall k | 0 <= k < |Get(b.hist.accepted, d)| ::
              Get(b.hist.accepted, d)[k] in b.hist.sends && |b.hist.sends[Get(b.hist.accepted, d)[k]]| <= Limit(b.cfg)
  {
    Accounting(b.cfg, b.trace, b.Now());
    OrderAndConservation(b.cfg, b.trace, b.Now(), d);
    forall k | 0 <= k < |Get(b.hist.accepted, d)|
      ensures Get(b.hist.accepted, d)[k] in b.hist.sends && |b.hist.sends[Get(b.hist.accepted, d)[k]]| <= Limit(b.cfg)
    {
      RetryBound(b.cfg, b.trace, b.Now(), d, k);
    }
  }

  lemma TotalInBounds(cfg: Config, s: State)
    requires Inv(cfg, s)
    ensures s.count >= 0 && (cfg.qfull == Drop ==> s.count <= cfg.qsize)
  {
    if |s.hash| > 0 {
      TotalCovers(s.hash, 0);
    }
  }
}
