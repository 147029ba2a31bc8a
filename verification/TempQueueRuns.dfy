/**
 What holds of the temporary queues over whole runs, under every interleaving of adders
 and the runner: accounting, order and conservation, retry and drop bounds, draining.
 */
module TempQueueRuns {
  import opened Common
  import opened TempQueue
  import opened TempQueueInv

  lemma Reachable(cfg: Config, steps: seq<Step>, s: State)
    requires ConfigOk(cfg) && Reaches(cfg, INIT, steps, s)
    ensures Inv(cfg, s)
  {
    hide Inv;
    InitInv(cfg);
    ReachableInv(cfg, INIT, steps, s);
  }

  /** The counters are exact: each queue's, and the total. */
  lemma Accounting(cfg: Config, steps: seq<Step>, s: State)
    requires ConfigOk(cfg) && Reaches(cfg, INIT, steps, s)
    ensures s.count == Total(s.hash)
    ensures forall i | 0 <= i < |s.hash| :: s.hash[i].nrmsg == |s.hash[i].msgs|
    ensures forall i, j | 0 <= i < j < |s.hash| :: s.hash[i].qstr != s.hash[j].qstr
  {
    hide Reaches;
    Reachable(cfg, steps, s);
    forall i | 0 <= i < |s.hash|
      ensures s.hash[i].nrmsg == |s.hash[i].msgs|
    {
      NrmsgIsLength(cfg, s, i);
    }
  }

  /**
   The messages accepted for a destination leave it in the order in which they were
   accepted, each once; the ones that have not left are exactly those waiting, in order.
   */
  lemma OrderAndConservation(cfg: Config, steps: seq<Step>, s: State, d: string)
    requires ConfigOk(cfg) && Reaches(cfg, INIT, steps, s)
    ensures Get(s.hist.accepted, d) == Left(Get(s.hist.gone, d)) + Waiting(s.hash, d)
    ensures forall d', k, k' | 0 <= k < |Get(s.hist.accepted, d)| && 0 <= k' < |Get(s.hist.accepted, d')| ::
              Get(s.hist.accepted, d)[k] == Get(s.hist.accepted, d')[k'] ==> d == d' && k == k'
  {
    hide Reaches;
    Reachable(cfg, steps, s);
    assert Conserved(s, d);
  }

  /**
   What became of a message that has left, in terms of its sends.  It was sent exactly if its
   last send succeeded, and expired exactly if its last send, a late one, found the
   destination full and the call timed out; every send before the last found the destination
   full.  It was given up on a full destination only when its tries or its time to live,
   counted from its acceptance, were used up.
   */
  lemma FateIff(cfg: Config, steps: seq<Step>, s: State, d: string, k: nat)
    requires ConfigOk(cfg) && Reaches(cfg, INIT, steps, s) && k < |Get(s.hist.gone, d)|
    ensures var x := Get(s.hist.gone, d)[k];
            && x.ptr in s.hist.sends && x.ptr in s.hist.entries
            && var sends, m := s.hist.sends[x.ptr], s.hist.entries[x.ptr];
               var n := |sends| - 1;
               && n >= 0
               && (forall i | 0 <= i < n :: sends[i].result == SendAgain)
               && (x.fate == Sent <==> sends[n].result == SendOk)
               && (x.fate == Expired <==>
                     && n > 0 && sends[n].result == SendAgain
                     && m.pack.ToSvc? && m.pack.canExpire && m.pack.clttout > 0 && sends[n].callAge >= m.pack.clttout)
               && (x.fate == Discarded && sends[n].result != SendBroken ==>
                     n + 1 >= cfg.qretries || x.at - m.at > cfg.qttl)
               && (x.fate == Sent || x.fate == Expired ==> n + 1 <= cfg.qretries && x.at - m.at <= cfg.qttl)
  {
    hide Reaches;
    Reachable(cfg, steps, s);
    var x := Get(s.hist.gone, d)[k];
    assert FateOk(cfg, s.hist, s.hist.gone[d][k]);
    var sends := s.hist.sends[x.ptr];
    assert forall i | 0 <= i < |sends| - 1 :: sends[i] == sends[..|sends| - 1][i];
  }

  /**
   The wait is honoured: over every run, a message is sent again only when at least the
   closed form of the doubled wait has passed since it was put off, or right after another
   message of its queue has left.
   */
  lemma SendsAreSpaced(cfg: Config, steps: seq<Step>, s: State, p: nat, i: nat)
    requires ConfigOk(cfg) && Reaches(cfg, INIT, steps, s) && p in s.hist.sends && 1 <= i < |s.hist.sends[p]|
    ensures var last, again := s.hist.sends[p][i - 1], s.hist.sends[p][i];
            || again.follows
            || again.asked - last.putOff >=
               (if i > 1 || cfg.qminsleep <= cfg.qmaxsleep
                then Min(cfg.qminsleep * Pow2(i - 1), cfg.qmaxsleep) else cfg.qminsleep)
  {
    hide Reaches;
    Reachable(cfg, steps, s);
    assert Spaced(cfg, s.hist.sends[p]);
  }

  /**
   A visit leaves everything as it is if and only if its clock is before the end of the
   message's wait, counted from when it was last put off, and no message of the queue has
   just left.
   */
  lemma IdleVisitIff(cfg: Config, s: State, i: nat, e: Env, wasOk: bool)
    requires ConfigOk(cfg) && Inv(cfg, s) && i < |s.hash| && s.hash[i].msgs != []
    ensures var p := s.hash[i].msgs[0].ptr;
            && p in s.hist.sends && s.hist.sends[p] != []
            && var n := |s.hist.sends[p]| - 1;
               Visit(cfg, s, i, e, wasOk).(freed := s.freed) == s <==>
               !wasOk && e.now < s.hist.sends[p][n].putOff + Backoff(cfg, n)
  {
    var m := s.hash[i].msgs[0];
    assert QueueOk(cfg, s.hist, s.hash[i]) && m in s.hash[i].msgs && MsgOk(cfg, s.hist, m);
    hide Inv;
    hide QueueOk;
    hide Longer;
    hide Backoff;
    if Due(m, e, wasOk) {
      var s' := Visit(cfg, s, i, e, wasOk);
      if MaySend(cfg, m, e) {
        assert |s'.hist.sends[m.ptr]| == |s.hist.sends[m.ptr]| + 1;
      } else {
        var d := s.hash[i].qstr;
        assert |Get(s'.hist.gone, d)| == |Get(s.hist.gone, d)| + 1;
      }
    }
  }

  /**
   A message is taken if and only if it does not find the bridge full with a full bridge set
   to drop, nor its destination's queue full with a full queue set to drop.  A message that
   is taken waits behind all others for its destination; one that is not leaves nothing
   behind but an entry for the destination.
   */
  lemma TakenIff(cfg: Config, steps: seq<Step>, s: State, d: string, pack: Pack, now: int)
    requires ConfigOk(cfg) && Reaches(cfg, INIT, steps, s)
    ensures var (s', taken) := Add(cfg, s, d, pack, now);
            && (taken <==>
                  && !(cfg.qfull == Drop && Total(s.hash) >= cfg.qsize)
                  && !(cfg.qfullsvc == Drop && |Waiting(s.hash, d)| >= cfg.qsizesvc))
            && (!taken ==> s'.hist == s.hist && forall d' :: Waiting(s'.hash, d') == Waiting(s.hash, d'))
            && (taken ==>
                  exists p | p in s'.hist.entries && p !in s.hist.sends ::
                    && s'.hist.entries[p] == Entry(pack, now)
                    && Get(s'.hist.accepted, d) == Get(s.hist.accepted, d) + [p]
                    && forall d' :: Waiting(s'.hash, d') == if d' == d then Waiting(s.hash, d) + [p] else Waiting(s.hash, d'))
  {
    hide Reaches;
    hide Inv;
    hide Waiting;
    Reachable(cfg, steps, s);
    var (hash, next) := WithQueue(s, d);
    EntryWaits(cfg, s, d);
    var i := Find(s.hash, d);
    var (s', taken) := Add(cfg, s, d, pack, now);
    if taken {
      assert s'.hist.entries[next] == Entry(pack, now);
      forall d'
        ensures Waiting(s'.hash, d') == if d' == d then Waiting(s.hash, d) + [next] else Waiting(s.hash, d')
      {
        AppendWaits(hash, i, NewMsg(cfg, next, pack, now), d');
      }
    }
  }

  /** An entry for the destination changes nothing about who waits. */
  lemma EntryWaits(cfg: Config, s: State, d: string)
    requires ConfigOk(cfg) && Inv(cfg, s)
    ensures var (hash, next) := WithQueue(s, d);
            var i := Find(s.hash, d);
            && i < |hash| && hash[i].qstr == d && Distinct(hash) && hash[i].nrmsg == |Waiting(s.hash, d)|
            && s.count == Total(s.hash) && next !in s.hist.sends
            && forall d' :: Waiting(hash, d') == Waiting(s.hash, d')
  {
    var (hash, next) := WithQueue(s, d);
    var i := Find(s.hash, d);
    if i < |s.hash| {
      NrmsgIsLength(cfg, s, i);
    } else {
      forall d'
        ensures Waiting(hash, d') == Waiting(s.hash, d') && Distinct(hash)
      {
        WaitingAppend(s.hash, Queue(s.next, d, 0, []), d');
      }
      WaitingAppend(s.hash, Queue(s.next, d, 0, []), d);
    }
  }

  lemma AppendWaits(hash: seq<Queue>, i: nat, m: Msg, d: string)
    requires Distinct(hash) && i < |hash|
    ensures var q := hash[i];
            Waiting(hash[i := q.(nrmsg := q.nrmsg + 1, msgs := q.msgs + [m])], d) ==
            if d == q.qstr then Waiting(hash, d) + [m.ptr] else Waiting(hash, d)
  {
    hide Waiting;
    hide Distinct;
    var q := hash[i];
    WaitingUpdate(hash, i, q.(nrmsg := q.nrmsg + 1, msgs := q.msgs + [m]), d);
    assert Ids(q.msgs + [m]) == Ids(q.msgs) + [m.ptr];
  }

  /** With neither limit set to drop, every message is taken. */
  lemma AllTaken(cfg: Config, steps: seq<Step>, s: State, d: string, pack: Pack, now: int)
    requires ConfigOk(cfg) && Reaches(cfg, INIT, steps, s) && cfg.qfull != Drop && cfg.qfullsvc != Drop
    ensures Add(cfg, s, d, pack, now).1
  {
    TakenIff(cfg, steps, s, d, pack, now);
  }

  /** Counting the first, direct one, no message is handed to a send more than `max(1, qretries)` times. */
  lemma RetryBound(cfg: Config, steps: seq<Step>, s: State, d: string, k: nat)
    requires ConfigOk(cfg) && Reaches(cfg, INIT, steps, s) && k < |Get(s.hist.accepted, d)|
    ensures var p := Get(s.hist.accepted, d)[k];
            p in s.hist.sends && 1 <= |s.hist.sends[p]| <= if cfg.qretries > 1 then cfg.qretries else 1
  {
    hide Reaches;
    Reachable(cfg, steps, s);
  }

  /** A waiting message has been sent `tries` times, and waits the closed form of the doubled wait. */
  lemma BackoffClosedForm(cfg: Config, steps: seq<Step>, s: State, i: nat, j: nat)
    requires ConfigOk(cfg) && Reaches(cfg, INIT, steps, s) && i < |s.hash| && j < |s.hash[i].msgs|
    ensures var m := s.hash[i].msgs[j];
            && m.tries >= 1 && m.ptr in s.hist.sends && |s.hist.sends[m.ptr]| == m.tries
            && (cfg.qminsleep <= cfg.qmaxsleep ==>
                  m.nextTry == (if cfg.qminsleep * Pow2(m.tries - 1) <= cfg.qmaxsleep
                                then cfg.qminsleep * Pow2(m.tries - 1) else cfg.qmaxsleep))
            && (cfg.qminsleep > cfg.qmaxsleep ==> m.nextTry == if m.tries == 1 then cfg.qminsleep else cfg.qmaxsleep)
  {
    hide Reaches;
    Reachable(cfg, steps, s);
    var m := s.hash[i].msgs[j];
    assert QueueOk(cfg, s.hist, s.hash[i]);
    assert m in s.hash[i].msgs && MsgOk(cfg, s.hist, m);
    assert cfg.qminsleep * Pow2(m.tries - 1) >= cfg.qminsleep;
  }

  /**
   With both limits on drop, the total never exceeds its limit, so incoming traffic is
   never stopped; with the service limit on drop, no queue exceeds its own.
   */
  lemma DropBounds(cfg: Config, steps: seq<Step>, s: State)
    requires ConfigOk(cfg) && Reaches(cfg, INIT, steps, s)
    ensures cfg.qfull == Drop ==> s.count <= cfg.qsize
    ensures cfg.qfullsvc == Drop ==> forall i | 0 <= i < |s.hash| :: |s.hash[i].msgs| <= cfg.qsizesvc
  {
    hide Reaches;
    Reachable(cfg, steps, s);
    forall i | 0 <= i < |s.hash| && cfg.qfullsvc == Drop
      ensures |s.hash[i].msgs| <= cfg.qsizesvc
    {
      assert QueueOk(cfg, s.hist, s.hash[i]);
    }
  }

  // ---------------------------------------------------------------------------
  // Empty queues
  // ---------------------------------------------------------------------------

  predicate NoneEmpty(hash: seq<Queue>) {
    forall i | 0 <= i < |hash| :: hash[i].msgs != []
  }

  lemma AddKeepsNoneEmpty(cfg: Config, s: State, d: string, pack: Pack, now: int)
    requires ConfigOk(cfg) && cfg.qfull != Drop && NoneEmpty(s.hash)
    ensures NoneEmpty(Add(cfg, s, d, pack, now).0.hash)
  {
  }

  lemma VisitKeepsNoneEmpty(cfg: Config, s: State, i: nat, e: Env, wasOk: bool)
    requires i < |s.hash| && s.hash[i].nrmsg == |s.hash[i].msgs| > 0 && NoneEmpty(s.hash)
    ensures NoneEmpty(Visit(cfg, s, i, e, wasOk).hash)
  {
  }

  lemma StepKeepsNoneEmpty(cfg: Config, s: State, step: Step)
    requires ConfigOk(cfg) && cfg.qfull != Drop && Inv(cfg, s) && Enabled(s, step) && NoneEmpty(s.hash)
    ensures NoneEmpty(Apply(cfg, s, step).hash)
  {
    hide Inv;
    hide Add;
    hide Visit;
    match step
    case AddStep(d, pack, now) => AddKeepsNoneEmpty(cfg, s, d, pack, now);
    case TurnStep =>
    case VisitStep(i, e, wasOk) =>
      NrmsgIsLength(cfg, s, i);
      VisitKeepsNoneEmpty(cfg, s, i, e, wasOk);
  }

  lemma {:induction false} RunKeepsNoneEmpty(cfg: Config, s: State, steps: seq<Step>, s': State)
    requires ConfigOk(cfg) && cfg.qfull != Drop && Inv(cfg, s) && Reaches(cfg, s, steps, s') && NoneEmpty(s.hash)
    ensures NoneEmpty(s'.hash)
    decreases |steps|
  {
    hide Inv;
    hide Apply;
    if steps != [] {
      StepKeepsInv(cfg, s, steps[0]);
      StepKeepsNoneEmpty(cfg, s, steps[0]);
      RunKeepsNoneEmpty(cfg, Apply(cfg, s, steps[0]), steps[1..], s');
    }
  }

  function Name(k: nat): (d: string)
    ensures |d| == k
  {
    seq(k, _ => 'q')
  }

  /** One message for each of `k` destinations. */
  lemma {:induction false} Fill(cfg: Config, k: nat) returns (steps: seq<Step>, s: State)
    requires ConfigOk(cfg) && k <= cfg.qsize
    ensures Reaches(cfg, INIT, steps, s) && s.count == k
    ensures forall i | 0 <= i < |s.hash| :: |s.hash[i].qstr| < k
  {
    if k == 0 {
      steps, s := [], INIT;
    } else {
      var before, s0 := Fill(cfg, k - 1);
      var step := AddStep(Name(k - 1), ToNdrxd, 0);
      RunThenStep(cfg, INIT, before, s0, step);
      steps, s := before + [step], Apply(cfg, s0, step);
      hide Reaches;
      assert Find(s0.hash, Name(k - 1)) == |s0.hash|;
    }
  }

  /**
   A queue without messages can exist if and only if messages are dropped when the bridge
   is full: the entry is made before the message is refused, and no visit removes it.
   */
  lemma NoEmptyQueuesIff(cfg: Config)
    requires ConfigOk(cfg)
    ensures (forall steps, s | Reaches(cfg, INIT, steps, s) :: NoneEmpty(s.hash)) <==> cfg.qfull != Drop
  {
    if cfg.qfull != Drop {
      InitInv(cfg);
      forall steps, s | Reaches(cfg, INIT, steps, s)
        ensures NoneEmpty(s.hash)
      {
        RunKeepsNoneEmpty(cfg, INIT, steps, s);
      }
    } else {
      var steps, s := Fill(cfg, cfg.qsize);
      var step := AddStep(Name(cfg.qsize), ToNdrxd, 0);
      RunThenStep(cfg, INIT, steps, s, step);
      hide Reaches;
      assert Find(s.hash, Name(cfg.qsize)) == |s.hash|;
      var s' := Apply(cfg, s, step);
      assert s'.hash[|s.hash|].msgs == [];
      assert !NoneEmpty(s'.hash);
    }
  }

  // ---------------------------------------------------------------------------
  // What is past stays
  // ---------------------------------------------------------------------------

  predicate Prefix<T(==)>(a: seq<T>, b: seq<T>) {
    a <= b
  }

  /** Lists of accepted and departed messages only grow, and a departed message is never sent again. */
  ghost predicate Extends(h: History, h': History) {
    && (forall d :: Prefix(Get(h.accepted, d), Get(h'.accepted, d)) && Prefix(Get(h.gone, d), Get(h'.gone, d)))
    && (forall d, k | 0 <= k < |Get(h.gone, d)| ::
          var p := Get(h.gone, d)[k].ptr;
          p in h.sends && p in h'.sends && h'.sends[p] == h.sends[p])
  }

  lemma DepartedAreOld(cfg: Config, s: State)
    requires Inv(cfg, s)
    ensures forall d, k | 0 <= k < |Get(s.hist.gone, d)| ::
              Get(s.hist.gone, d)[k].ptr in s.hist.sends && Get(s.hist.gone, d)[k].ptr < s.next
    ensures forall d, k, i | 0 <= k < |Get(s.hist.gone, d)| && 0 <= i < |s.hash| && s.hash[i].msgs != [] ::
              Get(s.hist.gone, d)[k].ptr != s.hash[i].msgs[0].ptr
  {
    hide Inv;
    forall d, k | 0 <= k < |Get(s.hist.gone, d)|
      ensures var p := Get(s.hist.gone, d)[k].ptr;
              && p in s.hist.sends && p < s.next
              && forall i | 0 <= i < |s.hash| && s.hash[i].msgs != [] :: s.hash[i].msgs[0].ptr != p
    {
      DepartedFacts(cfg, s, d, k);
    }
  }

  lemma AddExtends(cfg: Config, s: State, d: string, pack: Pack, now: int)
    requires Inv(cfg, s)
    ensures Extends(s.hist, Add(cfg, s, d, pack, now).0.hist)
  {
    hide Inv;
    hide Find;
    DepartedAreOld(cfg, s);
  }

  lemma VisitExtends(cfg: Config, s: State, i: nat, e: Env, wasOk: bool)
    requires Inv(cfg, s) && i < |s.hash| && s.hash[i].msgs != []
    ensures Extends(s.hist, Visit(cfg, s, i, e, wasOk).hist)
  {
    hide Inv;
    hide Longer;
    hide Due;
    hide MaySend;
    hide CallExpired;
    hide SendingAt;
    DepartedAreOld(cfg, s);
  }

  lemma ExtendsTransitive(a: History, b: History, c: History)
    requires Extends(a, b) && Extends(b, c)
    ensures Extends(a, c)
  {
  }

  /**
   Over every run nothing accepted is forgotten, nothing that has left comes back, and a
   message that has left, whether sent, expired or discarded, is never handed to a send again.
   */
  lemma {:induction false} PastStays(cfg: Config, s: State, steps: seq<Step>, s': State)
    requires ConfigOk(cfg) && Inv(cfg, s) && Reaches(cfg, s, steps, s')
    ensures Extends(s.hist, s'.hist)
    decreases |steps|
  {
    hide Inv;
    hide Add;
    hide Visit;
    if steps == [] {
      NothingChanges(cfg, s);
    } else {
      var s1 := Apply(cfg, s, steps[0]);
      match steps[0] {
        case AddStep(d, pack, now) => AddExtends(cfg, s, d, pack, now);
        case TurnStep => NothingChanges(cfg, s);
        case VisitStep(i, e, wasOk) => VisitExtends(cfg, s, i, e, wasOk);
      }
      StepKeepsInv(cfg, s, steps[0]);
      PastStays(cfg, s1, steps[1..], s');
      ExtendsTransitive(s.hist, s1.hist, s'.hist);
    }
  }

  /**
   Between any two moments, what has left a destination's queue, followed by what still
   waits, is what waited before, followed by what was accepted: a prefix leaves.
   */
  lemma PrefixLeaves(cfg: Config, s: State, steps: seq<Step>, s': State, d: string)
    requires ConfigOk(cfg) && Inv(cfg, s) && Reaches(cfg, s, steps, s')
    ensures var g, g' := Get(s.hist.gone, d), Get(s'.hist.gone, d);
            var a, a' := Get(s.hist.accepted, d), Get(s'.hist.accepted, d);
            && g <= g' && a <= a'
            && Left(g'[|g|..]) + Waiting(s'.hash, d) == Waiting(s.hash, d) + a'[|a|..]
  {
    hide Reaches;
    hide Waiting;
    PastStays(cfg, s, steps, s');
    ReachableInv(cfg, s, steps, s');
    assert Conserved(s, d) && Conserved(s', d);
    var g, g' := Get(s.hist.gone, d), Get(s'.hist.gone, d);
    var a, a' := Get(s.hist.accepted, d), Get(s'.hist.accepted, d);
    assert Prefix(a, a') && Prefix(g, g');
    TailsAgree(g, g', a, a', Waiting(s.hash, d), Waiting(s'.hash, d));
  }

  lemma TailsAgree(g: seq<Departure>, g': seq<Departure>, a: seq<nat>, a': seq<nat>, w: seq<nat>, w': seq<nat>)
    requires g <= g' && a <= a' && a == Left(g) + w && a' == Left(g') + w'
    ensures Left(g'[|g|..]) + w' == w + a'[|a|..]
  {
    var out, inn := Left(g'[|g|..]), a'[|a|..];
    assert Left(g') == Left(g) + out;
    assert a' == a + inn;
    assert Left(g) + (out + w') == Left(g) + out + w';
    assert Left(g) + (w + inn) == Left(g) + w + inn;
    SameTail(Left(g), out + w', w + inn);
  }

  lemma SameTail(front: seq<nat>, x: seq<nat>, y: seq<nat>)
    requires front + x == front + y
    ensures x == y
  {
    assert (front + x)[|front|..] == x && (front + y)[|front|..] == y;
  }

  lemma NothingChanges(cfg: Config, s: State)
    requires Inv(cfg, s)
    ensures Extends(s.hist, s.hist)
  {
    forall d', k | 0 <= k < |Get(s.hist.gone, d')|
      ensures Get(s.hist.gone, d')[k].ptr in s.hist.sends
    {
      DepartedFacts(cfg, s, d', k);
    }
  }

  // ---------------------------------------------------------------------------
  // Draining
  // ---------------------------------------------------------------------------

  /** The visits the waiting messages of one queue can still use up. */
  function Weight(cfg: Config, ms: seq<Msg>): int {
    if ms == [] then 0 else Limit(cfg) + 1 - ms[0].tries + Weight(cfg, ms[1..])
  }

  function Work(cfg: Config, hash: seq<Queue>): int {
    if hash == [] then 0 else Weight(cfg, hash[0].msgs) + Work(cfg, hash[1..])
  }

  lemma {:induction false} WeightAppend(cfg: Config, ms: seq<Msg>, m: Msg)
    ensures Weight(cfg, ms + [m]) == Weight(cfg, ms) + Limit(cfg) + 1 - m.tries
    decreases |ms|
  {
    if ms == [] {
      assert [m][1..] == [];
    } else {
      WeightAppend(cfg, ms[1..], m);
      assert (ms + [m])[1..] == ms[1..] + [m];
    }
  }

  lemma {:induction false} WorkUpdate(cfg: Config, hash: seq<Queue>, i: nat, q: Queue)
    requires i < |hash|
    ensures Work(cfg, hash[i := q]) == Work(cfg, hash) - Weight(cfg, hash[i].msgs) + Weight(cfg, q.msgs)
    ensures Work(cfg, hash[..i] + hash[i + 1..]) == Work(cfg, hash) - Weight(cfg, hash[i].msgs)
    decreases |hash|
  {
    var h1, h2 := hash[i := q], hash[..i] + hash[i + 1..];
    if i == 0 {
      assert h1[1..] == hash[1..] && h2 == hash[1..];
    } else {
      WorkUpdate(cfg, hash[1..], i - 1, q);
      assert h1[1..] == hash[1..][i - 1 := q];
      assert h2[0] == hash[0] && h2[1..] == hash[1..][..i - 1] + hash[1..][i..];
    }
  }

  lemma {:induction false} WorkNewQueue(cfg: Config, hash: seq<Queue>, q: Queue)
    requires q.msgs == []
    ensures Work(cfg, hash + [q]) == Work(cfg, hash)
    decreases |hash|
  {
    if hash == [] {
      assert [q][1..] == [];
    } else {
      WorkNewQueue(cfg, hash[1..], q);
      assert (hash + [q])[1..] == hash[1..] + [q];
    }
  }

  /** Each waiting message still has at least one visit to go. */
  lemma {:induction false} WorkCoversTotal(cfg: Config, hash: seq<Queue>, h: History)
    requires forall i | 0 <= i < |hash| :: QueueOk(cfg, h, hash[i])
    ensures Work(cfg, hash) >= Total(hash) >= 0
    decreases |hash|
  {
    if hash != [] {
      assert QueueOk(cfg, h, hash[0]);
      WeightCovers(cfg, hash[0].msgs, h);
      assert forall i | 0 <= i < |hash[1..]| :: hash[1..][i] == hash[i + 1];
      WorkCoversTotal(cfg, hash[1..], h);
    }
  }

  lemma {:induction false} WeightCovers(cfg: Config, ms: seq<Msg>, h: History)
    requires forall m | m in ms :: MsgOk(cfg, h, m)
    ensures Weight(cfg, ms) >= |ms|
    decreases |ms|
  {
    if ms != [] {
      assert ms[0] in ms && MsgOk(cfg, h, ms[0]);
      WeightCovers(cfg, ms[1..], h);
    }
  }

  predicate IsDue(s: State, step: Step)
    requires Enabled(s, step)
  {
    step.VisitStep? && Due(s.hash[step.i].msgs[0], step.e, step.wasOk)
  }

  predicate Takes(cfg: Config, s: State, step: Step) {
    step.AddStep? && Add(cfg, s, step.d, step.pack, step.now).1
  }

  /** How many due visits, and how many accepted messages, a run has. */
  ghost function DueVisits(cfg: Config, s: State, steps: seq<Step>): nat
    decreases |steps|
  {
    if steps == [] || !Enabled(s, steps[0]) then 0
    else (if IsDue(s, steps[0]) then 1 else 0) + DueVisits(cfg, Apply(cfg, s, steps[0]), steps[1..])
  }

  ghost function Taken(cfg: Config, s: State, steps: seq<Step>): nat
    decreases |steps|
  {
    if steps == [] || !Enabled(s, steps[0]) then 0
    else (if Takes(cfg, s, steps[0]) then 1 else 0) + Taken(cfg, Apply(cfg, s, steps[0]), steps[1..])
  }

  lemma AddWork(cfg: Config, s: State, d: string, pack: Pack, now: int)
    requires ConfigOk(cfg)
    ensures var (s', taken) := Add(cfg, s, d, pack, now);
            Work(cfg, s'.hash) == Work(cfg, s.hash) + if taken then Limit(cfg) else 0
  {
    hide Work;
    var i := Find(s.hash, d);
    var (hash, next) := WithQueue(s, d);
    WorkNewQueue(cfg, s.hash, Queue(s.next, d, 0, []));
    var q, m := hash[i], NewMsg(cfg, next, pack, now);
    WorkUpdate(cfg, hash, i, q.(nrmsg := q.nrmsg + 1, msgs := q.msgs + [m]));
    WeightAppend(cfg, q.msgs, m);
  }

  lemma VisitWork(cfg: Config, s: State, i: nat, e: Env, wasOk: bool)
    requires Inv(cfg, s) && i < |s.hash| && s.hash[i].msgs != []
    ensures Work(cfg, Visit(cfg, s, i, e, wasOk).hash) <=
            Work(cfg, s.hash) - if Due(s.hash[i].msgs[0], e, wasOk) then 1 else 0
  {
    NrmsgIsLength(cfg, s, i);
    var q := s.hash[i];
    var m := q.msgs[0];
    assert QueueOk(cfg, s.hist, q) && m in q.msgs && MsgOk(cfg, s.hist, m);
    hide Inv;
    hide QueueOk;
    hide Work;
    var m' := m.(tries := m.tries + 1, nextTry := Longer(cfg, m.nextTry), updated := e.resetAt);
    var kept := q.(msgs := [m'] + q.msgs[1..]);
    assert ([m'] + q.msgs[1..])[1..] == q.msgs[1..];
    WorkUpdate(cfg, s.hash, i, kept);
    WorkUpdate(cfg, s.hash, i, q.(nrmsg := q.nrmsg - 1, msgs := q.msgs[1..]));
  }

  /** Every due visit uses up work, and only accepted messages bring new work. */
  lemma {:induction false} VisitsAreBounded(cfg: Config, s: State, steps: seq<Step>, s': State)
    requires ConfigOk(cfg) && Inv(cfg, s) && Reaches(cfg, s, steps, s')
    ensures DueVisits(cfg, s, steps) + Work(cfg, s'.hash) <= Work(cfg, s.hash) + Limit(cfg) * Taken(cfg, s, steps)
    decreases |steps|
  {
    hide Inv;
    hide Add;
    hide Visit;
    hide Work;
    hide Due;
    if steps != [] {
      var s1 := Apply(cfg, s, steps[0]);
      match steps[0] {
        case AddStep(d, pack, now) => AddWork(cfg, s, d, pack, now);
        case TurnStep =>
        case VisitStep(i, e, wasOk) => VisitWork(cfg, s, i, e, wasOk);
      }
      StepKeepsInv(cfg, s, steps[0]);
      VisitsAreBounded(cfg, s1, steps[1..], s');
      var rest := Taken(cfg, s1, steps[1..]);
      assert Limit(cfg) * (1 + rest) == Limit(cfg) + Limit(cfg) * rest;
    }
  }

  /** With no message accepted any more, enough due visits leave every queue empty. */
  lemma Drains(cfg: Config, s: State, steps: seq<Step>, s': State)
    requires ConfigOk(cfg) && Inv(cfg, s) && Reaches(cfg, s, steps, s')
    requires Taken(cfg, s, steps) == 0 && DueVisits(cfg, s, steps) >= Work(cfg, s.hash)
    ensures s'.count == 0 && forall i | 0 <= i < |s'.hash| :: s'.hash[i].msgs == []
  {
    hide Reaches;
    VisitsAreBounded(cfg, s, steps, s');
    ReachableInv(cfg, s, steps, s');
    WorkCoversTotal(cfg, s'.hash, s'.hist);
    forall i | 0 <= i < |s'.hash|
      ensures s'.hash[i].msgs == []
    {
      TotalCovers(s'.hash, i);
    }
  }
}
