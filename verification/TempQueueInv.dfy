/**
 Every interleaving of adders and the runner keeps the temporary queues' invariant, and
 what follows from it for whole runs.
 */
module TempQueueInv {
  import opened Common
  import opened TempQueue

  // ---------------------------------------------------------------------------
  // The hash
  // ---------------------------------------------------------------------------

  lemma FindUnique(hash: seq<Queue>, d: string, i: nat)
    requires i <= |hash| && (forall j | 0 <= j < i :: hash[j].qstr != d)
    requires i < |hash| ==> hash[i].qstr == d
    ensures Find(hash, d) == i
  {
  }

  lemma {:induction false} TotalUpdate(hash: seq<Queue>, i: nat, q: Queue)
    requires i < |hash|
    ensures Total(hash[i := q]) == Total(hash) - |hash[i].msgs| + |q.msgs|
    ensures Total(hash[..i] + hash[i + 1..]) == Total(hash) - |hash[i].msgs|
    decreases |hash|
  {
    var h1, h2 := hash[i := q], hash[..i] + hash[i + 1..];
    if i == 0 {
      assert h1[1..] == hash[1..] && h2 == hash[1..];
    } else {
      TotalUpdate(hash[1..], i - 1, q);
      assert h1[1..] == hash[1..][i - 1 := q];
      assert h2[0] == hash[0] && h2[1..] == hash[1..][..i - 1] + hash[1..][i..];
    }
  }

  lemma {:induction false} TotalAppend(hash: seq<Queue>, q: Queue)
    ensures Total(hash + [q]) == Total(hash) + |q.msgs|
    decreases |hash|
  {
    if hash != [] {
      TotalAppend(hash[1..], q);
      assert (hash + [q])[1..] == hash[1..] + [q];
    } else {
      assert [q][1..] == [];
    }
  }

  lemma {:induction false} TotalCovers(hash: seq<Queue>, i: nat)
    requires i < |hash|
    ensures 0 <= |hash[i].msgs| <= Total(hash)
    decreases |hash|
  {
    if i > 0 {
      TotalCovers(hash[1..], i - 1);
    } else if |hash| > 1 {
      TotalCovers(hash[1..], 0);
    }
  }

  lemma WaitingUpdate(hash: seq<Queue>, i: nat, q: Queue, d: string)
    requires Distinct(hash) && i < |hash| && q.qstr == hash[i].qstr && q.ptr == hash[i].ptr
    ensures Distinct(hash[i := q])
    ensures Waiting(hash, hash[i].qstr) == Ids(hash[i].msgs)
    ensures Waiting(hash[i := q], d) == if d == q.qstr then Ids(q.msgs) else Waiting(hash, d)
  {
    FindUnique(hash, hash[i].qstr, i);
    FindUnique(hash[i := q], d, Find(hash, d));
  }

  lemma WaitingDelete(hash: seq<Queue>, i: nat, d: string)
    requires Distinct(hash) && i < |hash|
    ensures Distinct(hash[..i] + hash[i + 1..])
    ensures Waiting(hash[..i] + hash[i + 1..], d) == if d == hash[i].qstr then [] else Waiting(hash, d)
  {
    var f := Find(hash, d);
    var h := hash[..i] + hash[i + 1..];
    FindUnique(hash, hash[i].qstr, i);
    if d == hash[i].qstr {
      FindUnique(h, d, |h|);
    } else {
      FindUnique(h, d, if f < i then f else f - 1);
    }
  }

  lemma WaitingAppend(hash: seq<Queue>, q: Queue, d: string)
    requires Distinct(hash) && Find(hash, q.qstr) == |hash| && forall i | 0 <= i < |hash| :: hash[i].ptr != q.ptr
    ensures Distinct(hash + [q])
    ensures Waiting(hash, q.qstr) == []
    ensures Waiting(hash + [q], d) == if d == q.qstr then Ids(q.msgs) else Waiting(hash, d)
  {
    FindUnique(hash + [q], d, if d == q.qstr then |hash| else if Find(hash, d) < |hash| then Find(hash, d) else |hash| + 1);
  }

  /** Where a waiting message stands among the accepted ones. */
  lemma WaitingIsAccepted(cfg: Config, s: State, i: nat, j: nat)
    requires Inv(cfg, s) && i < |s.hash| && j < |s.hash[i].msgs|
    ensures var d := s.hash[i].qstr;
            var k := |Get(s.hist.gone, d)| + j;
            && d in s.hist.accepted && k < |s.hist.accepted[d]|
            && s.hist.accepted[d][k] == s.hash[i].msgs[j].ptr
  {
    var d := s.hash[i].qstr;
    FindUnique(s.hash, d, i);
    assert Conserved(s, d);
  }

  /** No message waits in two places. */
  lemma WaitingOnce(cfg: Config, s: State, i: nat, j: nat, i': nat, j': nat)
    requires Inv(cfg, s) && i < |s.hash| && j < |s.hash[i].msgs| && i' < |s.hash| && j' < |s.hash[i'].msgs|
    requires s.hash[i].msgs[j].ptr == s.hash[i'].msgs[j'].ptr
    ensures i == i' && j == j'
  {
    WaitingIsAccepted(cfg, s, i, j);
    WaitingIsAccepted(cfg, s, i', j');
  }

  lemma DepartedFacts(cfg: Config, s: State, d: string, k: nat)
    requires Inv(cfg, s) && k < |Get(s.hist.gone, d)|
    ensures var p := Get(s.hist.gone, d)[k].ptr;
            && p in s.hist.sends && p < s.next
            && forall i, j | 0 <= i < |s.hash| && 0 <= j < |s.hash[i].msgs| :: s.hash[i].msgs[j].ptr != p
  {
    var p := Get(s.hist.gone, d)[k].ptr;
    assert Conserved(s, d);
    assert d in s.hist.accepted && s.hist.accepted[d][k] == p;
    forall i, j | 0 <= i < |s.hash| && 0 <= j < |s.hash[i].msgs|
      ensures s.hash[i].msgs[j].ptr != p
    {
      WaitingIsAccepted(cfg, s, i, j);
    }
  }

  // ---------------------------------------------------------------------------
  // Adding
  // ---------------------------------------------------------------------------

  /** An entry for the destination, new and empty if need be. */
  lemma EntryKeepsInv(cfg: Config, s: State, d: string)
    requires ConfigOk(cfg) && Inv(cfg, s)
    ensures var (hash, next) := WithQueue(s, d);
            && Find(hash, d) < |hash| && Find(hash, d) == Find(s.hash, d)
            && Inv(cfg, s.(hash := hash, next := next))
  {
    var (hash, next) := WithQueue(s, d);
    if Find(s.hash, d) == |s.hash| {
      var q := Queue(s.next, d, 0, []);
      TotalAppend(s.hash, q);
      FindUnique(hash, d, |s.hash|);
      forall d'
        ensures Conserved(s.(hash := hash, next := next), d')
      {
        assert Conserved(s, d');
        WaitingAppend(s.hash, q, d');
      }
      WaitingAppend(s.hash, q, d);
    }
  }

  lemma AcceptKeepsNumbers(cfg: Config, h: History, d: string, next: nat, x: Entry)
    requires Numbered(h.accepted, next) && AttemptsOk(cfg, h, next)
    ensures Numbered(Accept(h, d, next, x).accepted, next + 1) && AttemptsOk(cfg, Accept(h, d, next, x), next + 1)
  {
    var h' := Accept(h, d, next, x);
    assert forall d', k | d' in h'.accepted && 0 <= k < |h'.accepted[d']| ::
        if d' == d && k == |Get(h.accepted, d)| then h'.accepted[d'][k] == next
        else d' in h.accepted && k < |h.accepted[d']| && h'.accepted[d'][k] == h.accepted[d'][k];
  }

  lemma AcceptKeepsFates(cfg: Config, s: State, d: string, x: Entry)
    requires Inv(cfg, s)
    ensures FatesOk(cfg, Accept(s.hist, d, s.next, x))
  {
    hide Inv;
    OldFates(cfg, s);
    var h := Accept(s.hist, d, s.next, x);
    forall d', k | d' in h.gone && 0 <= k < |h.gone[d']|
      ensures FateOk(cfg, h, h.gone[d'][k])
    {
      assert FateOk(cfg, s.hist, s.hist.gone[d'][k]);
      DepartedFacts(cfg, s, d', k);
    }
  }

  /** The queues when message `m`, numbered `next`, is appended to queue `i`. */
  lemma AppendKeepsQueues(cfg: Config, s: State, i: nat, m: Msg)
    requires ConfigOk(cfg) && Inv(cfg, s) && i < |s.hash| && !Drops(cfg, s, s.hash[i].nrmsg)
    requires m.ptr == s.next && m.tries == 1 && m.nextTry == cfg.qminsleep && m.updated == m.added
    ensures var q := s.hash[i];
            var q' := q.(nrmsg := q.nrmsg + 1, msgs := q.msgs + [m]);
            var hash := s.hash[i := q'];
            forall k | 0 <= k < |hash| :: QueueOk(cfg, Accept(s.hist, q.qstr, s.next, Entry(m.pack, m.added)), hash[k])
  {
  }

  /** Appending a message to its queue. */
  lemma AppendKeepsInv(cfg: Config, s: State, i: nat, pack: Pack, now: int)
    requires ConfigOk(cfg) && Inv(cfg, s) && i < |s.hash|
    requires !Drops(cfg, s, s.hash[i].nrmsg)
    ensures var q, m := s.hash[i], NewMsg(cfg, s.next, pack, now);
            Inv(cfg, State(s.hash[i := q.(nrmsg := q.nrmsg + 1, msgs := q.msgs + [m])], s.count + 1, s.next + 1,
                           Accept(s.hist, q.qstr, s.next, Entry(pack, now)), s.freed))
  {
    hide QueueOk;
    hide Numbered;
    hide AttemptsOk;
    hide Waiting;
    var q, m := s.hash[i], NewMsg(cfg, s.next, pack, now);
    var q' := q.(nrmsg := q.nrmsg + 1, msgs := q.msgs + [m]);
    var s' := State(s.hash[i := q'], s.count + 1, s.next + 1, Accept(s.hist, q.qstr, s.next, Entry(pack, now)), s.freed);
    TotalUpdate(s.hash, i, q');
    AppendKeepsQueues(cfg, s, i, m);
    AcceptKeepsNumbers(cfg, s.hist, q.qstr, s.next, Entry(pack, now));
    AcceptKeepsFates(cfg, s, q.qstr, Entry(pack, now));
    assert Ids(q'.msgs) == Ids(q.msgs) + [s.next];
    forall d
      ensures Conserved(s', d)
    {
      assert Conserved(s, d);
      WaitingUpdate(s.hash, i, q', d);
    }
    WaitingUpdate(s.hash, i, q', q.qstr);
  }

  lemma AddKeepsInv(cfg: Config, s: State, d: string, pack: Pack, now: int)
    requires ConfigOk(cfg) && Inv(cfg, s)
    ensures Inv(cfg, Add(cfg, s, d, pack, now).0)
  {
    hide Inv;
    var (hash, next) := WithQueue(s, d);
    var s1 := s.(hash := hash, next := next);
    EntryKeepsInv(cfg, s, d);
    var i := Find(hash, d);
    if !Drops(cfg, s1, hash[i].nrmsg) {
      AppendKeepsInv(cfg, s1, i, pack, now);
    }
  }

  // ---------------------------------------------------------------------------
  // Visiting
  // ---------------------------------------------------------------------------

  /** The history at the end of a visit: with one more attempt for the head, or unchanged. */
  ghost predicate VisitHistory(cfg: Config, s: State, i: nat, h: History)
    requires i < |s.hash| && s.hash[i].msgs != []
  {
    var m := s.hash[i].msgs[0];
    h == s.hist || (m.tries + 1 <= Limit(cfg) && exists x :: InTurn(cfg, m, x) && h == Tried(s.hist, m.ptr, x))
  }

  /** The send is made after the message's whole wait, or right after another message left. */
  predicate InTurn(cfg: Config, m: Msg, x: Sending) {
    x.follows || x.asked >= m.updated + m.nextTry
  }

  lemma TriedKeepsAttempts(cfg: Config, s: State, i: nat, h: History)
    requires Inv(cfg, s) && i < |s.hash| && s.hash[i].msgs != [] && VisitHistory(cfg, s, i, h)
    ensures AttemptsOk(cfg, h, s.next)
    ensures h.accepted == s.hist.accepted && h.gone == s.hist.gone
  {
    var m := s.hash[i].msgs[0];
    assert QueueOk(cfg, s.hist, s.hash[i]) && m in s.hash[i].msgs;
    assert MsgOk(cfg, s.hist, m);
  }

  /** The sends of messages that have left stay as they were. */
  lemma VisitKeepsFates(cfg: Config, s: State, i: nat, h: History)
    requires Inv(cfg, s) && i < |s.hash| && s.hash[i].msgs != [] && VisitHistory(cfg, s, i, h)
    ensures FatesOk(cfg, h)
  {
    hide Inv;
    TriedKeepsAttempts(cfg, s, i, h);
    OldFates(cfg, s);
    forall d, k | d in h.gone && 0 <= k < |h.gone[d]|
      ensures FateOk(cfg, h, h.gone[d][k])
    {
      assert FateOk(cfg, s.hist, s.hist.gone[d][k]);
      DepartedFacts(cfg, s, d, k);
    }
  }

  lemma OldFates(cfg: Config, s: State)
    requires Inv(cfg, s)
    ensures FatesOk(cfg, s.hist)
  {
  }

  /** One more departure, whose sends came to its fate. */
  lemma DepartureKeepsFates(cfg: Config, h: History, d: string, x: Departure)
    requires FatesOk(cfg, h) && FateOk(cfg, h, x)
    ensures FatesOk(cfg, h.(gone := h.gone[d := Get(h.gone, d) + [x]]))
  {
    var h' := h.(gone := h.gone[d := Get(h.gone, d) + [x]]);
    forall d', k | d' in h'.gone && 0 <= k < |h'.gone[d']|
      ensures FateOk(cfg, h', h'.gone[d'][k])
    {
      if d' != d || k < |Get(h.gone, d)| {
        assert FateOk(cfg, h, h.gone[d'][k]);
      }
    }
  }

  /** How a visit that ends with a fate leaves the sends of its message. */
  lemma VisitFate(cfg: Config, s: State, i: nat, e: Env, wasOk: bool)
    requires Inv(cfg, s) && i < |s.hash| && s.hash[i].msgs != []
    requires VisitResult(cfg, s.hash[i].msgs[0], e, wasOk).Gone?
    ensures var m := s.hash[i].msgs[0];
            var h := if Due(m, e, wasOk) && MaySend(cfg, m, e) then Tried(s.hist, m.ptr, SendingAt(e, wasOk)) else s.hist;
            FateOk(cfg, h, Departure(m.ptr, VisitResult(cfg, m, e, wasOk).fate, e.later))
  {
    var m := s.hash[i].msgs[0];
    assert QueueOk(cfg, s.hist, s.hash[i]) && m in s.hash[i].msgs;
    assert MsgOk(cfg, s.hist, m);
    OneMoreSend(m.pack, s.hist.sends[m.ptr], SendingAt(e, wasOk));
  }

  lemma OneMoreSend(pack: Pack, sends: seq<Sending>, x: Sending)
    requires sends != [] && AllAgain(pack, sends)
    ensures var sends' := sends + [x]; AllAgain(pack, sends'[..|sends'| - 1]) && sends'[|sends'| - 1] == x
    ensures AllAgain(pack, sends[..|sends| - 1])
  {
    assert (sends + [x])[..|sends|] == sends;
  }

  /** Nobody but the head of queue `i` notices the attempt. */
  lemma OthersUntried(cfg: Config, s: State, i: nat, h: History, k: nat, j: nat)
    requires Inv(cfg, s) && i < |s.hash| && s.hash[i].msgs != [] && VisitHistory(cfg, s, i, h)
    requires k < |s.hash| && j < |s.hash[k].msgs| && (k != i || j > 0)
    ensures MsgOk(cfg, h, s.hash[k].msgs[j])
  {
    assert QueueOk(cfg, s.hist, s.hash[k]);
    assert MsgOk(cfg, s.hist, s.hash[k].msgs[j]);
    if s.hash[k].msgs[j].ptr == s.hash[i].msgs[0].ptr {
      WaitingOnce(cfg, s, k, j, i, 0);
    }
  }

  lemma OtherQueuesOk(cfg: Config, s: State, i: nat, h: History, k: nat)
    requires Inv(cfg, s) && i < |s.hash| && s.hash[i].msgs != [] && VisitHistory(cfg, s, i, h)
    requires k < |s.hash| && k != i
    ensures QueueOk(cfg, h, s.hash[k])
  {
    assert QueueOk(cfg, s.hist, s.hash[k]);
    forall m | m in s.hash[k].msgs
      ensures MsgOk(cfg, h, m)
    {
      var j :| 0 <= j < |s.hash[k].msgs| && s.hash[k].msgs[j] == m;
      OthersUntried(cfg, s, i, h, k, j);
    }
  }

  /** The rest of the visited queue, with or without a message in front. */
  lemma TailOk(cfg: Config, s: State, i: nat, h: History, front: seq<Msg>, nrmsg: int)
    requires Inv(cfg, s) && i < |s.hash| && s.hash[i].msgs != [] && VisitHistory(cfg, s, i, h)
    requires |front| <= 1 && (forall m | m in front :: MsgOk(cfg, h, m))
    requires nrmsg == s.hash[i].nrmsg - 1 + |front|
    ensures QueueOk(cfg, h, s.hash[i].(nrmsg := nrmsg, msgs := front + s.hash[i].msgs[1..]))
  {
    var q := s.hash[i];
    assert QueueOk(cfg, s.hist, q);
    forall m | m in front + q.msgs[1..]
      ensures MsgOk(cfg, h, m)
    {
      if m in q.msgs[1..] {
        var j :| 0 <= j < |q.msgs[1..]| && q.msgs[1..][j] == m;
        OthersUntried(cfg, s, i, h, i, j + 1);
      }
    }
  }

  /** The waiting messages when the head of queue `i` goes. */
  lemma RemoveWaiting(hash: seq<Queue>, i: nat, d: string)
    requires Distinct(hash) && i < |hash| && hash[i].nrmsg == |hash[i].msgs| > 0
    ensures var q' := hash[i].(nrmsg := hash[i].nrmsg - 1, msgs := hash[i].msgs[1..]);
            var hash' := if q'.nrmsg == 0 then hash[..i] + hash[i + 1..] else hash[i := q'];
            && Distinct(hash')
            && Waiting(hash', d) == (if d == hash[i].qstr then Ids(hash[i].msgs[1..]) else Waiting(hash, d))
            && Waiting(hash, hash[i].qstr) == [hash[i].msgs[0].ptr] + Ids(hash[i].msgs[1..])
  {
    hide Waiting;
    hide Distinct;
    var q' := hash[i].(nrmsg := hash[i].nrmsg - 1, msgs := hash[i].msgs[1..]);
    WaitingUpdate(hash, i, q', d);
    WaitingDelete(hash, i, d);
    assert Ids(hash[i].msgs) == [hash[i].msgs[0].ptr] + Ids(q'.msgs);
  }

  lemma RemoveConserves(s: State, i: nat, fate: Fate, at: int, d: string)
    requires Distinct(s.hash) && i < |s.hash| && s.hash[i].nrmsg == |s.hash[i].msgs| > 0
    requires Conserved(s, d)
    ensures Conserved(RemoveHead(s, i, fate, at), d)
    ensures Distinct(RemoveHead(s, i, fate, at).hash)
  {
    hide Waiting;
    hide Distinct;
    RemoveWaiting(s.hash, i, d);
    var q := s.hash[i];
    var gone, m := Get(s.hist.gone, q.qstr), q.msgs[0];
    if d == q.qstr {
      assert Left(gone + [Departure(m.ptr, fate, at)]) == Left(gone) + [m.ptr];
      assert Left(gone) + ([m.ptr] + Ids(q.msgs[1..])) == Left(gone) + [m.ptr] + Ids(q.msgs[1..]);
    }
  }

  lemma NrmsgIsLength(cfg: Config, s: State, i: nat)
    requires Inv(cfg, s) && i < |s.hash|
    ensures s.hash[i].nrmsg == |s.hash[i].msgs|
  {
  }

  /** The queues that remain when the head of queue `i` goes. */
  lemma RemoveKeepsQueues(cfg: Config, s: State, i: nat, h: History, fate: Fate, at: int)
    requires Inv(cfg, s) && i < |s.hash| && s.hash[i].msgs != [] && VisitHistory(cfg, s, i, h)
    ensures var s' := RemoveHead(s.(hist := h), i, fate, at);
            && s'.count == Total(s'.hash)
            && forall k | 0 <= k < |s'.hash| :: s'.hash[k].ptr < s'.next && QueueOk(cfg, s'.hist, s'.hash[k])
  {
    hide QueueOk;
    hide Conserved;
    hide Numbered;
    hide AttemptsOk;
    hide Distinct;
    var q := s.hash[i];
    var q' := q.(nrmsg := q.nrmsg - 1, msgs := q.msgs[1..]);
    var s' := RemoveHead(s.(hist := h), i, fate, at);
    NrmsgIsLength(cfg, s, i);
    TotalUpdate(s.hash, i, q');
    TailOk(cfg, s, i, h, [], q'.nrmsg);
    assert [] + q.msgs[1..] == q'.msgs;
    GoneIsIgnored(cfg, h, s'.hist);
    forall k | 0 <= k < |s'.hash|
      ensures s'.hash[k].ptr < s'.next && QueueOk(cfg, s'.hist, s'.hash[k])
    {
      var k' := if q'.nrmsg == 0 && k >= i then k + 1 else k;
      if k' != i {
        OtherQueuesOk(cfg, s, i, h, k');
      }
    }
  }

  lemma RemoveKeepsInv(cfg: Config, s: State, i: nat, h: History, fate: Fate, at: int)
    requires ConfigOk(cfg) && Inv(cfg, s) && i < |s.hash| && s.hash[i].msgs != [] && VisitHistory(cfg, s, i, h)
    requires FateOk(cfg, h, Departure(s.hash[i].msgs[0].ptr, fate, at))
    ensures Inv(cfg, RemoveHead(s.(hist := h), i, fate, at))
  {
    hide QueueOk;
    hide Numbered;
    hide AttemptsOk;
    hide Conserved;
    hide Distinct;
    hide Total;
    hide FateOk;
    var s' := RemoveHead(s.(hist := h), i, fate, at);
    NrmsgIsLength(cfg, s, i);
    TriedKeepsAttempts(cfg, s, i, h);
    RemoveKeepsQueues(cfg, s, i, h, fate, at);
    GoneIsIgnored(cfg, h, s'.hist);
    VisitKeepsFates(cfg, s, i, h);
    DepartureKeepsFates(cfg, h, s.hash[i].qstr, Departure(s.hash[i].msgs[0].ptr, fate, at));
    forall d
      ensures Conserved(s', d) && Distinct(s'.hash)
    {
      assert Conserved(s, d);
      HistoryIsKept(s, h, d);
      RemoveConserves(s.(hist := h), i, fate, at, d);
    }
    assert Conserved(s', "") && Distinct(s'.hash);
  }

  lemma HistoryIsKept(s: State, h: History, d: string)
    requires Conserved(s, d) && h.accepted == s.hist.accepted && h.gone == s.hist.gone
    ensures Conserved(s.(hist := h), d)
  {
  }

  lemma GoneIsIgnored(cfg: Config, h: History, h': History)
    requires h'.accepted == h.accepted && h'.sends == h.sends && h'.entries == h.entries
    ensures forall q | QueueOk(cfg, h, q) :: QueueOk(cfg, h', q)
    ensures forall next | AttemptsOk(cfg, h, next) :: AttemptsOk(cfg, h', next)
  {
  }

  lemma PutOffKeepsInv(cfg: Config, s: State, i: nat, x: Sending)
    requires ConfigOk(cfg) && Inv(cfg, s) && i < |s.hash| && s.hash[i].msgs != []
    requires s.hash[i].msgs[0].tries + 1 <= Limit(cfg)
    requires x.result == SendAgain && InTurn(cfg, s.hash[i].msgs[0], x) && !TimedOut(s.hash[i].msgs[0].pack, x.callAge)
    ensures Inv(cfg, PutOff(cfg, s.(hist := Tried(s.hist, s.hash[i].msgs[0].ptr, x)), i, x.putOff))
  {
    hide Numbered;
    hide AttemptsOk;
    hide Waiting;
    var q, h := s.hash[i], Tried(s.hist, s.hash[i].msgs[0].ptr, x);
    var m := q.msgs[0];
    var m' := m.(tries := m.tries + 1, nextTry := Longer(cfg, m.nextTry), updated := x.putOff);
    var q' := q.(msgs := [m'] + q.msgs[1..]);
    var s' := PutOff(cfg, s.(hist := h), i, x.putOff);
    assert QueueOk(cfg, s.hist, q);
    assert m in q.msgs && MsgOk(cfg, s.hist, m);
    BackoffStep(cfg, m.tries - 1);
    TriedKeepsAttempts(cfg, s, i, h);
    VisitKeepsFates(cfg, s, i, h);
    TotalUpdate(s.hash, i, q');
    TailOk(cfg, s, i, h, [m'], q.nrmsg);
    hide QueueOk;
    assert Ids(q'.msgs) == Ids(q.msgs);
    forall d
      ensures Conserved(s', d)
    {
      assert Conserved(s, d);
      WaitingUpdate(s.hash, i, q', d);
    }
    WaitingUpdate(s.hash, i, q', q.qstr);
    forall k | 0 <= k < |s'.hash|
      ensures QueueOk(cfg, s'.hist, s'.hash[k])
    {
      if k != i {
        OtherQueuesOk(cfg, s, i, h, k);
      }
    }
  }

  lemma FreedIsIgnored(cfg: Config, s: State)
    ensures Inv(cfg, s.(freed := None)) == Inv(cfg, s)
  {
    assert forall d :: Conserved(s.(freed := None), d) == Conserved(s, d);
  }

  lemma VisitKeepsInv(cfg: Config, s: State, i: nat, e: Env, wasOk: bool)
    requires ConfigOk(cfg) && Inv(cfg, s) && i < |s.hash| && s.hash[i].msgs != []
    ensures Inv(cfg, Visit(cfg, s, i, e, wasOk))
  {
    hide Inv;
    hide Tried;
    hide PutOff;
    hide RemoveHead;
    hide FateOk;
    var m := s.hash[i].msgs[0];
    var h := if Due(m, e, wasOk) && MaySend(cfg, m, e) then Tried(s.hist, m.ptr, SendingAt(e, wasOk)) else s.hist;
    FreedIsIgnored(cfg, s);
    match VisitResult(cfg, m, e, wasOk)
    case NotDue =>
    case Kept => PutOffKeepsInv(cfg, s, i, SendingAt(e, wasOk));
    case Gone(fate) =>
      VisitFate(cfg, s, i, e, wasOk);
      assert InTurn(cfg, m, SendingAt(e, wasOk));
      RemoveKeepsInv(cfg, s, i, h, fate, e.later);
  }

  // ---------------------------------------------------------------------------
  // Whole runs
  // ---------------------------------------------------------------------------

  lemma InitInv(cfg: Config)
    requires ConfigOk(cfg)
    ensures Inv(cfg, INIT)
  {
  }

  lemma {:induction false} ReachableInv(cfg: Config, s: State, steps: seq<Step>, s': State)
    requires ConfigOk(cfg) && Inv(cfg, s) && Reaches(cfg, s, steps, s')
    ensures Inv(cfg, s')
    decreases |steps|
  {
    hide Inv;
    hide Apply;
    if steps != [] {
      StepKeepsInv(cfg, s, steps[0]);
      ReachableInv(cfg, Apply(cfg, s, steps[0]), steps[1..], s');
    }
  }

  lemma StepKeepsInv(cfg: Config, s: State, step: Step)
    requires ConfigOk(cfg) && Inv(cfg, s) && Enabled(s, step)
    ensures Inv(cfg, Apply(cfg, s, step))
  {
    hide Inv;
    hide Add;
    hide Visit;
    match step
    case AddStep(d, pack, now) => AddKeepsInv(cfg, s, d, pack, now);
    case TurnStep => FreedIsIgnored(cfg, s);
    case VisitStep(i, e, wasOk) => VisitKeepsInv(cfg, s, i, e, wasOk);
  }

  lemma {:induction false} RunThenStep(cfg: Config, s: State, steps: seq<Step>, s': State, step: Step)
    requires Reaches(cfg, s, steps, s') && Enabled(s', step)
    ensures Reaches(cfg, s, steps + [step], Apply(cfg, s', step))
    decreases |steps|
  {
    hide Apply;
    if steps == [] {
      assert ([] + [step])[1..] == [];
      assert Reaches(cfg, Apply(cfg, s, step), [], Apply(cfg, s, step));
    } else {
      RunThenStep(cfg, Apply(cfg, s, steps[0]), steps[1..], s', step);
      assert (steps + [step])[1..] == steps[1..] + [step];
    }
  }
}
