/**
 The clock correction of a bridge (bridge/clock.c): each of two linked nodes estimates the
 offset between its own monotonic clock and the other's, and corrects the time stamps of
 calls it sends over.

 The network may lose, delay, reorder and duplicate messages: once sent, a message can be
 delivered any number of times, at any later moment, or never.  A bridge may restart at any
 moment and then forgets everything.  Both clocks advance at the same rate and differ by a
 fixed offset.
 */
module ClockSync {
  import opened Common
  import opened Stopwatch

  datatype Side = A | B

  function Peer(s: Side): Side {
    if s == A then B else A
  }

  datatype Mode = Req | Rsp | Async

  /** `sender` put it on the net; `orig`, `stamp` and `number` are those of the request it answers or makes. */
  datatype Msg = Msg(mode: Mode, sender: Side, orig: Side, stamp: int, number: int, time: Stopwatch)

  /** The correction in use: milliseconds, the measured round trip, and the kind of message it came from. */
  datatype Correction = Correction(diff: int, roundtrip: int, mode: Mode)

  /** The last request made by this node, and the correction in use. */
  datatype Clock = Clock(number: int, sent: Stopwatch, stamp: int, correction: Option<Correction>)

  /** `offset(s)` is what node `s`'s clock shows at moment zero, in nanoseconds. */
  datatype Config = Config(maxRoundtrip: int, offsetA: int, offsetB: int) {
    function Offset(s: Side): int {
      if s == A then offsetA else offsetB
    }
  }

  // ---------------------------------------------------------------------------
  // The routines
  // ---------------------------------------------------------------------------

  /** A new request or unasked time message; `now` is the clock, `wall` the calendar time. */
  function Sending(c: Clock, me: Side, mode: Mode, now: Stopwatch, wall: int): (Clock, Msg) {
    (c.(number := c.number + 1, sent := now, stamp := wall), Msg(mode, me, me, wall, c.number + 1, now))
  }

  function Replying(me: Side, m: Msg, now: Stopwatch): Msg {
    Msg(Rsp, me, m.orig, m.stamp, m.number, now)
  }

  /** The response is to our last request, and came in time. */
  predicate Accepts(cfg: Config, c: Clock, me: Side, m: Msg, now: Stopwatch)
    requires Normal(now) && Normal(c.sent)
  {
    m.mode == Async ||
    (m.mode == Rsp && m.number == c.number && Diff(now, c.sent) <= cfg.maxRoundtrip && m.orig == me && m.stamp == c.stamp)
  }

  function Receiving(cfg: Config, c: Clock, me: Side, m: Msg, now: Stopwatch): Clock
    requires Normal(now) && Normal(c.sent) && Normal(m.time)
  {
    if Accepts(cfg, c, me, m, now) then
      c.(correction := Some(Correction(Diff(now, m.time), if m.mode == Rsp then Diff(now, c.sent) else 0, m.mode)))
    else c
  }

  /** The correction of a call's time stamp on its way out, or in. */
  function Adjusted(c: Clock, timer: Stopwatch, out: bool): Stopwatch {
    var diff := if c.correction.Some? then c.correction.value.diff else 0;
    if out then Minus(timer, diff) else Plus(timer, diff)
  }

  class BridgeClock {
    const cfg: Config
    const me: Side

    var number: int
    var sent: Stopwatch
    var stamp: int
    var timediff: int
    var roundtrip: int
    var source: Option<Mode>

    constructor (cfg: Config, me: Side)
      ensures this.cfg == cfg && this.me == me
      ensures Valid() && Now() == BLANK
    {
      this.cfg, this.me := cfg, me;
      number, sent, stamp := 0, Stopwatch(0, 0), 0;
      timediff, roundtrip, source := 0, 0, None;
    }

    function Now(): Clock
      reads this
    {
      Clock(number, sent, stamp, if source.None? then None else Some(Correction(timediff, roundtrip, source.value)))
    }

    ghost predicate Valid()
      reads this
    {
      Normal(sent) && (source.None? ==> timediff == 0)
    }

    /** Send our time: answer `rcv`, or make a new request or unasked message. */
    method SendClock(mode: Mode, rcv: Option<Msg>, now: Stopwatch, wall: int) returns (m: Msg)
      requires Valid() && Normal(now) && (mode == Rsp <==> rcv.Some?)
      modifies this`number, this`sent, this`stamp
      ensures Valid()
      ensures mode == Rsp ==> Now() == old(Now()) && m == Replying(me, rcv.value, now)
      ensures mode != Rsp ==> (Now(), m) == Sending(old(Now()), me, mode, now, wall)
    {
      if mode == Rsp {
        return Msg(Rsp, me, rcv.value.orig, rcv.value.stamp, rcv.value.number, now);
      }
      stamp := wall;
      sent := now;
      number := number + 1;
      m := Msg(mode, me, me, wall, number, now);
    }

    /** A time message has come: answer a request, otherwise take the offset if it can be trusted. */
    method CalcClockDiff(m: Msg, now: Stopwatch) returns (reply: Option<Msg>)
      requires Valid() && Normal(now) && Normal(m.time)
      modifies this
      ensures Valid()
      ensures m.mode == Req ==> Now() == old(Now()) && reply == Some(Replying(me, m, now))
      ensures m.mode != Req ==> Now() == Receiving(cfg, old(Now()), me, m, now) && reply == None
    {
      if m.mode == Req {
        var r := SendClock(Rsp, Some(m), now, 0);
        return Some(r);
      }
      var load, trip := false, 0;
      if m.mode == Async {
        load := true;
      } else {
        trip := Diff(now, sent);
        if m.number == number && trip <= cfg.maxRoundtrip && m.orig == me && m.stamp == stamp {
          load := true;
        }
      }
      if load {
        timediff := Diff(now, m.time);
        roundtrip := trip;
        source := Some(m.mode);
      }
      reply := None;
    }

    method ClockAdj(timer: Stopwatch, out: bool) returns (r: Stopwatch)
      requires Valid()
      ensures r == Adjusted(Now(), timer, out)
    {
      if out {
        r := Minus(timer, timediff);
      } else {
        r := Plus(timer, timediff);
      }
    }
  }

  // ---------------------------------------------------------------------------
  // Two nodes and a network
  // ---------------------------------------------------------------------------

  /** `now` is the true time in nanoseconds. */
  datatype World = World(now: int, a: Clock, b: Clock, net: set<Msg>) {
    function ClockOf(s: Side): Clock {
      if s == A then a else b
    }

    function With(s: Side, c: Clock): World {
      if s == A then this.(a := c) else this.(b := c)
    }
  }

  datatype Step =
    | Pass(ns: nat)
    | Send(s: Side, mode: Mode, wall: int)
    | Deliver(s: Side, m: Msg)
    | Restart(s: Side)

  const BLANK := Clock(0, Stopwatch(0, 0), 0, None)

  function Shows(cfg: Config, w: World, s: Side): Stopwatch {
    Reading(w.now + cfg.Offset(s))
  }

  predicate Enabled(w: World, step: Step) {
    match step
    case Pass(_) => true
    case Send(_, mode, _) => mode != Rsp
    case Deliver(s, m) => m in w.net && m.sender == Peer(s) && Normal(m.time) && Normal(w.ClockOf(s).sent)
    case Restart(_) => true
  }

  function Apply(cfg: Config, w: World, step: Step): World
    requires Enabled(w, step)
  {
    match step
    case Pass(ns) => w.(now := w.now + ns)
    case Send(s, mode, wall) =>
      var (c, m) := Sending(w.ClockOf(s), s, mode, Shows(cfg, w, s), wall);
      w.With(s, c).(net := w.net + {m})
    case Deliver(s, m) =>
      if m.mode == Req then w.(net := w.net + {Replying(s, m, Shows(cfg, w, s))})
      else w.With(s, Receiving(cfg, w.ClockOf(s), s, m, Shows(cfg, w, s)))
    case Restart(s) => w.With(s, BLANK)
  }

  ghost predicate Init(w: World) {
    && w.net == {}
    && forall s :: w.ClockOf(s) == BLANK
  }

  /** A request does not repeat both the number and the calendar second of one made before a restart. */
  ghost predicate Fresh(w: World, step: Step) {
    step.Send? ==>
      forall m | m in w.net && m.orig == step.s && m.number == w.ClockOf(step.s).number + 1 :: m.stamp != step.wall
  }

  /** `steps` lead from `w` to `w'`; if `unique`, no request in them repeats an earlier one. */
  ghost predicate Reaches(cfg: Config, w: World, steps: seq<Step>, w': World, unique: bool)
    decreases |steps|
  {
    if steps == [] then w' == w
    else
      && Enabled(w, steps[0]) && (unique ==> Fresh(w, steps[0]))
      && Reaches(cfg, Apply(cfg, w, steps[0]), steps[1..], w', unique)
  }

  // ---------------------------------------------------------------------------
  // The invariant
  // ---------------------------------------------------------------------------

  /** The moment at which node `s`'s clock showed `t`. */
  function Moment(cfg: Config, s: Side, t: Stopwatch): int {
    Ns(t) - cfg.Offset(s)
  }

  /** A message about the last request of node `m.orig` was stamped after that request was made. */
  predicate MsgOk(cfg: Config, w: World, m: Msg) {
    && Normal(m.time) && Moment(cfg, m.sender, m.time) <= w.now
    && m.orig == (if m.mode == Rsp then Peer(m.sender) else m.sender)
    && 0 < m.number
    && (m.number == w.ClockOf(m.orig).number && m.stamp == w.ClockOf(m.orig).stamp ==>
          Moment(cfg, m.sender, m.time) >= Moment(cfg, m.orig, w.ClockOf(m.orig).sent))
  }

  /** How far node `s`'s correction is off, in nanoseconds. */
  function Error(cfg: Config, s: Side, diff: int): int {
    diff * MS - (cfg.Offset(s) - cfg.Offset(Peer(s)))
  }

  predicate CorrectionOk(cfg: Config, s: Side, c: Correction) {
    && c.mode != Req
    && -MS < Error(cfg, s, c.diff)
    && (c.mode == Rsp ==> c.roundtrip <= cfg.maxRoundtrip && Error(cfg, s, c.diff) < (cfg.maxRoundtrip + 1) * MS)
  }

  predicate ClockOk(cfg: Config, w: World, s: Side) {
    var c := w.ClockOf(s);
    && Normal(c.sent) && c.number >= 0
    && (c.number > 0 ==> Moment(cfg, s, c.sent) <= w.now)
    && (c.correction.Some? ==> CorrectionOk(cfg, s, c.correction.value))
  }

  ghost predicate Inv(cfg: Config, w: World) {
    && ClockOk(cfg, w, A) && ClockOk(cfg, w, B)
    && forall m | m in w.net :: MsgOk(cfg, w, m)
  }

  /**
   What an accepted difference is off by: the time the message was under way, and what
   cutting both stamps to milliseconds takes away.
   */
  lemma ErrorIs(cfg: Config, s: Side, ours: Stopwatch, theirs: Stopwatch)
    requires Normal(ours) && Normal(theirs)
    ensures Error(cfg, s, Diff(ours, theirs)) ==
            Moment(cfg, s, ours) - Moment(cfg, Peer(s), theirs) - (Ns(ours) - Millis(ours) * MS) + (Ns(theirs) - Millis(theirs) * MS)
  {
  }

  /**
   A request, and a response that repeats another node's name, another number or another
   calendar second than our last request had, or that comes back after the allowed time,
   changes nothing; anything else sets the difference.
   */
  lemma IgnoredIff(cfg: Config, c: Clock, me: Side, m: Msg, now: Stopwatch)
    requires Normal(now) && Normal(c.sent) && Normal(m.time)
    ensures var late := Millis(now) - Millis(c.sent) > cfg.maxRoundtrip;
            var ignored := m.mode == Req || (m.mode == Rsp && (m.orig != me || m.number != c.number || m.stamp != c.stamp || late));
            var c' := Receiving(cfg, c, me, m, now);
            && (ignored ==> c' == c)
            && (!ignored ==> c'.correction.Some? && c'.correction.value.diff == Millis(now) - Millis(m.time) &&
                             c'.correction.value.mode == m.mode && c' == c.(correction := c'.correction))
  {
  }

  lemma AcceptedIsOk(cfg: Config, w: World, s: Side, m: Msg)
    requires Inv(cfg, w) && m in w.net && m.sender == Peer(s) && m.mode != Req
    requires Accepts(cfg, w.ClockOf(s), s, m, Shows(cfg, w, s))
    ensures MsgOk(cfg, w, m)
    ensures Receiving(cfg, w.ClockOf(s), s, m, Shows(cfg, w, s)).correction.Some?
    ensures CorrectionOk(cfg, s, Receiving(cfg, w.ClockOf(s), s, m, Shows(cfg, w, s)).correction.value)
  {
  }

  lemma StepKeepsInv(cfg: Config, w: World, step: Step)
    requires Inv(cfg, w) && Enabled(w, step) && Fresh(w, step)
    ensures Inv(cfg, Apply(cfg, w, step))
  {
    hide CorrectionOk;
    hide Millis;
    var w' := Apply(cfg, w, step);
    if step.Deliver? && step.m.mode != Req && Accepts(cfg, w.ClockOf(step.s), step.s, step.m, Shows(cfg, w, step.s)) {
      AcceptedIsOk(cfg, w, step.s, step.m);
    }
    forall m | m in w'.net
      ensures MsgOk(cfg, w', m)
    {
      if m in w.net {
        assert MsgOk(cfg, w, m);
      } else if step.Deliver? {
        assert MsgOk(cfg, w, step.m);
      }
    }
  }

  lemma {:induction false} ReachableInv(cfg: Config, w: World, steps: seq<Step>, w': World)
    requires Inv(cfg, w) && Reaches(cfg, w, steps, w', true)
    ensures Inv(cfg, w')
    decreases |steps|
  {
    hide Inv;
    hide Apply;
    if steps != [] {
      StepKeepsInv(cfg, w, steps[0]);
      ReachableInv(cfg, Apply(cfg, w, steps[0]), steps[1..], w');
    }
  }

  lemma InitInv(cfg: Config, w: World)
    requires Init(w)
    ensures Inv(cfg, w)
  {
  }

  // ---------------------------------------------------------------------------
  // What the correction is worth
  // ---------------------------------------------------------------------------

  /**
   Whatever the network does, a correction taken from a response is less than a millisecond
   below the true offset and less than the allowed round trip plus a millisecond above it.
   */
  lemma CorrectionBound(cfg: Config, w: World, steps: seq<Step>, w': World, s: Side)
    requires Init(w) && Reaches(cfg, w, steps, w', true)
    requires w'.ClockOf(s).correction.Some?
    ensures var c := w'.ClockOf(s).correction.value;
            && -MS < Error(cfg, s, c.diff)
            && (c.mode == Rsp ==> Error(cfg, s, c.diff) < (cfg.maxRoundtrip + 1) * MS)
  {
    hide Reaches;
    InitInv(cfg, w);
    ReachableInv(cfg, w, steps, w');
  }

  /** The round trip kept with a correction is the time since the request, to the millisecond. */
  lemma RoundtripIsClose(cfg: Config, w: World, s: Side, m: Msg)
    requires Inv(cfg, w) && Enabled(w, Deliver(s, m)) && m.mode == Rsp
    requires Accepts(cfg, w.ClockOf(s), s, m, Shows(cfg, w, s))
    ensures var c := Apply(cfg, w, Deliver(s, m)).ClockOf(s).correction;
            c.Some? && -MS < c.value.roundtrip * MS - (w.now - Moment(cfg, s, w.ClockOf(s).sent)) < MS
  {
    MillisRoundsDown(Shows(cfg, w, s));
    MillisRoundsDown(w.ClockOf(s).sent);
  }

  /** What cutting a stamp to milliseconds takes away. */
  function SubMillis(t: Stopwatch): int {
    t.nsec % MS
  }

  /**
   When the correction is not below the true offset: an accepted message leaves an error of
   at least zero if and only if it was under way for at least as long as our stamp's
   sub-millisecond part exceeds the sender's.
   */
  lemma NotBelowIff(cfg: Config, w: World, steps: seq<Step>, w': World, s: Side, m: Msg)
    requires Init(w) && Reaches(cfg, w, steps, w', true)
    requires Enabled(w', Deliver(s, m)) && m.mode != Req
    requires Accepts(cfg, w'.ClockOf(s), s, m, Shows(cfg, w', s))
    ensures var c := Apply(cfg, w', Deliver(s, m)).ClockOf(s).correction;
            var underWay := w'.now - Moment(cfg, m.sender, m.time);
            && c.Some? && underWay >= 0
            && (Error(cfg, s, c.value.diff) >= 0 <==> underWay >= SubMillis(Shows(cfg, w', s)) - SubMillis(m.time))
  {
    hide Reaches;
    InitInv(cfg, w);
    ReachableInv(cfg, w, steps, w');
    assert MsgOk(cfg, w', m);
    ErrorIs(cfg, s, Shows(cfg, w', s), m.time);
    CutTakes(Shows(cfg, w', s));
    CutTakes(m.time);
  }

  lemma CutTakes(t: Stopwatch)
    requires Normal(t)
    ensures Ns(t) - Millis(t) * MS == SubMillis(t)
  {
  }

  /**
   What a receiver can tell from the two stamps alone: the error is at least zero for every
   offset and every time under way that can lie behind them, if and only if the sender's
   sub-millisecond part is not below its own.
   */
  lemma StampsTellIff(s: Side, ours: Stopwatch, theirs: Stopwatch)
    requires Normal(ours) && Normal(theirs)
    ensures (forall cfg: Config | Moment(cfg, s, ours) >= Moment(cfg, Peer(s), theirs) :: Error(cfg, s, Diff(ours, theirs)) >= 0) <==>
            SubMillis(theirs) >= SubMillis(ours)
  {
    CutTakes(ours);
    CutTakes(theirs);
    forall cfg: Config
      ensures Error(cfg, s, Diff(ours, theirs)) ==
              Moment(cfg, s, ours) - Moment(cfg, Peer(s), theirs) - SubMillis(ours) + SubMillis(theirs)
    {
      ErrorIs(cfg, s, ours, theirs);
    }
    var atOnce := if s == A then Config(0, Ns(ours), Ns(theirs)) else Config(0, Ns(theirs), Ns(ours));
    assert Moment(atOnce, s, ours) == Moment(atOnce, Peer(s), theirs);
  }

  /**
   A call made at moment `made` on node `s` and looked at on the other node at moment
   `seen` has, after the correction on the way out, its true age plus the correction's error.
   */
  lemma AgeAcross(cfg: Config, w: World, steps: seq<Step>, w': World, s: Side, made: int, seen: int)
    requires Init(w) && Reaches(cfg, w, steps, w', true)
    requires w'.ClockOf(s).correction.Some?
    ensures var c := w'.ClockOf(s).correction.value;
            var timer := Adjusted(w'.ClockOf(s), Reading(made + cfg.Offset(s)), true);
            var there := Reading(seen + cfg.Offset(Peer(s)));
            && Ns(there) - Ns(timer) == seen - made + Error(cfg, s, c.diff)
            && Ns(there) - Ns(timer) > seen - made - MS
            && (c.mode == Rsp ==> Ns(there) - Ns(timer) < seen - made + (cfg.maxRoundtrip + 1) * MS)
            && Age(there, timer) * MS > seen - made - 2 * MS
            && (c.mode == Rsp ==> Age(there, timer) * MS < seen - made + (cfg.maxRoundtrip + 2) * MS)
  {
    hide Reaches;
    CorrectionBound(cfg, w, steps, w', s);
    var c := w'.ClockOf(s).correction.value;
    var timer := Reading(made + cfg.Offset(s));
    ExactShift(timer, c.diff);
    AgeIsClose(Reading(seen + cfg.Offset(Peer(s))), Minus(timer, c.diff));
  }

  /** What is corrected on the way out and back in by the same clock is unchanged. */
  lemma OutAndIn(c: Clock, timer: Stopwatch)
    requires Normal(timer)
    ensures Ns(Adjusted(c, Adjusted(c, timer, true), false)) == Ns(timer)
  {
    var diff := if c.correction.Some? then c.correction.value.diff else 0;
    ExactShift(timer, diff);
    ExactShift(Minus(timer, diff), diff);
  }

  // ---------------------------------------------------------------------------
  // An exchange
  // ---------------------------------------------------------------------------

  /** Node `s` makes no new request and is not restarted. */
  predicate Waits(step: Step, s: Side) {
    match step
    case Send(s', _, _) => s' != s
    case Restart(s') => s' != s
    case _ => true
  }

  lemma {:induction false} RequestStays(cfg: Config, w: World, steps: seq<Step>, w': World, s: Side)
    requires Reaches(cfg, w, steps, w', false) && forall i | 0 <= i < |steps| :: Waits(steps[i], s)
    ensures w'.ClockOf(s) == w.ClockOf(s).(correction := w'.ClockOf(s).correction)
    ensures w.net <= w'.net
    decreases |steps|
  {
    hide Accepts;
    if steps != [] {
      assert Waits(steps[0], s);
      RequestStays(cfg, Apply(cfg, w, steps[0]), steps[1..], w', s);
    }
  }

  /**
   A node asks for the other's time, the other gets the request, answers it, and the answer
   comes back, with anything else going on in between but a new request or a restart of the
   asking node.  The answer can be delivered, and it is taken if and only if it comes back in
   time; it then gives the difference of the two clocks as they were at the two ends of its way.
   */
  lemma AnswerTakenIff(cfg: Config, w: World, s: Side, wall: int, req: Msg, steps: seq<Step>, w2: World, steps': seq<Step>, w4: World)
    requires req == Sending(w.ClockOf(s), s, Req, Shows(cfg, w, s), wall).1
    requires Reaches(cfg, Apply(cfg, w, Send(s, Req, wall)), steps, w2, false) && forall i | 0 <= i < |steps| :: Waits(steps[i], s)
    requires Normal(w2.ClockOf(Peer(s)).sent)
    requires Enabled(w2, Deliver(Peer(s), req)) ==> Reaches(cfg, Apply(cfg, w2, Deliver(Peer(s), req)), steps', w4, false)
    requires forall i | 0 <= i < |steps'| :: Waits(steps'[i], s)
    ensures var rsp := Replying(Peer(s), req, Shows(cfg, w2, Peer(s)));
            && Enabled(w2, Deliver(Peer(s), req)) && Enabled(w4, Deliver(s, rsp))
            && var c := Apply(cfg, w4, Deliver(s, rsp)).ClockOf(s);
               var trip := Millis(Shows(cfg, w4, s)) - Millis(Shows(cfg, w, s));
               if trip <= cfg.maxRoundtrip
               then c.correction == Some(Correction(Millis(Shows(cfg, w4, s)) - Millis(Shows(cfg, w2, Peer(s))), trip, Rsp))
               else c == w4.ClockOf(s)
  {
    hide Reaches;
    hide Millis;
    RequestStays(cfg, Apply(cfg, w, Send(s, Req, wall)), steps, w2, s);
    RequestStays(cfg, Apply(cfg, w2, Deliver(Peer(s), req)), steps', w4, s);
  }

  // ---------------------------------------------------------------------------
  // The bounds are exact, and only responses have the upper one
  // ---------------------------------------------------------------------------

  const START := World(0, BLANK, BLANK, {})

  lemma {:induction false} RunThenStep(cfg: Config, w: World, steps: seq<Step>, w': World, step: Step, unique: bool)
    requires Reaches(cfg, w, steps, w', unique) && Enabled(w', step) && (unique ==> Fresh(w', step))
    ensures Reaches(cfg, w, steps + [step], Apply(cfg, w', step), unique)
    decreases |steps|
  {
    hide Apply;
    hide Enabled;
    if steps == [] {
      assert ([] + [step])[1..] == [];
      assert Reaches(cfg, Apply(cfg, w, step), [], Apply(cfg, w, step), unique);
    } else {
      RunThenStep(cfg, Apply(cfg, w, steps[0]), steps[1..], w', step, unique);
      assert (steps + [step])[1..] == steps[1..] + [step];
    }
  }

  /** A asks, B answers at once, and the answer arrives `ns` later. */
  lemma Exchange(cfg: Config, ns: nat) returns (steps: seq<Step>, w: World)
    requires Diff(Reading(ns + cfg.offsetA), Reading(cfg.offsetA)) <= cfg.maxRoundtrip
    ensures Reaches(cfg, START, steps, w, true)
    ensures w.a.correction.Some? && w.a.correction.value.mode == Rsp
    ensures w.a.correction.value.diff == Diff(Reading(ns + cfg.offsetA), Reading(cfg.offsetB))
  {
    hide Reaches;
    hide Diff;
    var req := Msg(Req, A, A, 0, 1, Reading(cfg.offsetA));
    var rsp := Msg(Rsp, B, A, 0, 1, Reading(cfg.offsetB));
    var ask := Send(A, Req, 0);
    var answer, pass, take := Deliver(B, req), Pass(ns), Deliver(A, rsp);
    NoSteps(cfg, START);
    RunThenStep(cfg, START, [], START, ask, true);
    var w1 := Apply(cfg, START, ask);
    RunThenStep(cfg, START, [] + [ask], w1, answer, true);
    var w2 := Apply(cfg, w1, answer);
    RunThenStep(cfg, START, [] + [ask] + [answer], w2, pass, true);
    var w3 := Apply(cfg, w2, pass);
    RunThenStep(cfg, START, [] + [ask] + [answer] + [pass], w3, take, true);
    steps, w := [] + [ask] + [answer] + [pass] + [take], Apply(cfg, w3, take);
  }

  lemma NoSteps(cfg: Config, w: World)
    ensures forall unique :: Reaches(cfg, w, [], w, unique)
  {
  }

  /** For every allowed round trip, both ends of the bound on a response's error are reached. */
  lemma BoundsAreReached(maxRoundtrip: nat)
    returns (cfg: Config, steps: seq<Step>, w: World, cfg': Config, steps': seq<Step>, w': World)
    ensures cfg.maxRoundtrip == cfg'.maxRoundtrip == maxRoundtrip
    ensures Init(START) && Reaches(cfg, START, steps, w, true) && Reaches(cfg', START, steps', w', true)
    ensures w.a.correction.Some? && w.a.correction.value.mode == Rsp
    ensures w'.a.correction.Some? && w'.a.correction.value.mode == Rsp
    ensures Error(cfg, A, w.a.correction.value.diff) == 1 - MS
    ensures Error(cfg', A, w'.a.correction.value.diff) == (maxRoundtrip + 1) * MS - 1
  {
    hide Reaches;
    cfg, cfg' := Config(maxRoundtrip, MS - 1, 0), Config(maxRoundtrip, 0, MS - 1);
    MillisRoundsDown(Reading(MS - 1));
    MillisRoundsDown(Reading(0));
    var late := (maxRoundtrip + 1) * MS - 1;
    MillisRoundsDown(Reading(late));
    steps, w := Exchange(cfg, 0);
    steps', w' := Exchange(cfg', late);
  }

  /** An unasked time message is taken however late it comes: its error has no bound. */
  lemma AsyncIsUnbounded(cfg: Config, bound: nat) returns (steps: seq<Step>, w: World)
    ensures Init(START) && Reaches(cfg, START, steps, w, true)
    ensures w.a.correction.Some? && w.a.correction.value.mode == Async
    ensures Error(cfg, A, w.a.correction.value.diff) > bound
  {
    hide Reaches;
    var ns := bound + MS;
    var m := Msg(Async, B, B, 0, 1, Reading(cfg.offsetB));
    var send, pass, take := Send(B, Async, 0), Pass(ns), Deliver(A, m);
    NoSteps(cfg, START);
    RunThenStep(cfg, START, [], START, send, true);
    var w1 := Apply(cfg, START, send);
    RunThenStep(cfg, START, [] + [send], w1, pass, true);
    var w2 := Apply(cfg, w1, pass);
    RunThenStep(cfg, START, [] + [send] + [pass], w2, take, true);
    steps, w := [] + [send] + [pass] + [take], Apply(cfg, w2, take);
    var ours := Reading(ns + cfg.offsetA);
    ErrorIs(cfg, A, ours, m.time);
    MillisRoundsDown(ours);
    MillisRoundsDown(m.time);
  }

  /**
   The stamp that goes with a request is a calendar second, so a bridge that restarts within
   one can take the answer to a request of before the restart for the answer to a new one:
   the error is then not bounded by the allowed round trip.
   */
  lemma QuickRestartMisleads(cfg: Config) returns (steps: seq<Step>, w: World)
    requires 0 <= cfg.maxRoundtrip < 899
    ensures Init(START) && Reaches(cfg, START, steps, w, false)
    ensures w.now < SEC && w.a.correction.Some? && w.a.correction.value.mode == Rsp
    ensures Error(cfg, A, w.a.correction.value.diff) >= (cfg.maxRoundtrip + 1) * MS
  {
    hide Reaches;
    hide Diff;
    var ns := 901 * MS;
    var req := Msg(Req, A, A, 0, 1, Reading(cfg.offsetA));
    var rsp := Msg(Rsp, B, A, 0, 1, Reading(cfg.offsetB));
    var ask, answer, pass, restart, take := Send(A, Req, 0), Deliver(B, req), Pass(ns), Restart(A), Deliver(A, rsp);
    NoSteps(cfg, START);
    RunThenStep(cfg, START, [], START, ask, false);
    var w1 := Apply(cfg, START, ask);
    RunThenStep(cfg, START, [] + [ask], w1, answer, false);
    var w2 := Apply(cfg, w1, answer);
    RunThenStep(cfg, START, [] + [ask] + [answer], w2, pass, false);
    var w3 := Apply(cfg, w2, pass);
    RunThenStep(cfg, START, [] + [ask] + [answer] + [pass], w3, restart, false);
    var w4 := Apply(cfg, w3, restart);
    RunThenStep(cfg, START, [] + [ask] + [answer] + [pass] + [restart], w4, ask, false);
    var w5 := Apply(cfg, w4, ask);
    var now := Reading(ns + cfg.offsetA);
    assert w5.a.sent == now && Shows(cfg, w5, A) == now;
    SameDiff(now);
    RunThenStep(cfg, START, [] + [ask] + [answer] + [pass] + [restart] + [ask], w5, take, false);
    steps, w := [] + [ask] + [answer] + [pass] + [restart] + [ask] + [take], Apply(cfg, w5, take);
    assert w.a.correction.value.diff == Diff(now, Reading(cfg.offsetB));
    ErrorIs(cfg, A, now, Reading(cfg.offsetB));
    MillisRoundsDown(now);
    MillisRoundsDown(Reading(cfg.offsetB));
  }

  lemma SameDiff(t: Stopwatch)
    requires Normal(t)
    ensures Diff(t, t) == 0
  {
  }
}
