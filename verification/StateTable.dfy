/**
 Compiled state tables (libnstd/exsm.c).  A row lists its transitions up to an end mark and
 is scanned for an event; compiling a row turns it, where possible, into one that is
 indexed by the event.
 */
module StateTable {
  import opened LockSm

  const EOF := -1
  const RETURN := -1
  const RETURN0 := -2

  datatype Tran = Tran(event: int, next: int)

  /** What looking up an event gives; `Overrun` when a scan runs past a row without an end mark. */
  datatype Lookup = Found(next: int) | NoTransition | Overrun

  /** The transitions a row declares: those before the end mark. */
  function Declared(row: seq<Tran>): (d: seq<Tran>)
    ensures d <= row
    ensures forall t | t in d :: t.event != EOF
    ensures |d| < |row| ==> row[|d|].event == EOF
  {
    if row == [] || row[0].event == EOF then [] else [row[0]] + Declared(row[1..])
  }

  function Scan(row: seq<Tran>, event: int): Lookup {
    if row == [] then Overrun
    else if row[0].event == EOF then NoTransition
    else if row[0].event == event then Found(row[0].next)
    else Scan(row[1..], event)
  }

  function Indexed(row: seq<Tran>, event: int): Lookup {
    if event < 0 || event >= |row| then NoTransition
    else if row[event].event == EOF then NoTransition
    else if row[event].event == event then Found(row[event].next)
    else Found(RETURN)
  }

  /** The row can be indexed: every declared event is a place in it. */
  predicate InRange(row: seq<Tran>) {
    forall t | t in Declared(row) :: 0 <= t.event < |row|
  }

  predicate Terminated(row: seq<Tran>) {
    |Declared(row)| < |row|
  }

  // ---------------------------------------------------------------------------
  // Both lookups, in terms of what is declared
  // ---------------------------------------------------------------------------

  const NONE := Tran(EOF, 0)

  /** The first declared transition for the event. */
  function First(d: seq<Tran>, event: int): Tran {
    if d == [] then NONE
    else if d[0].event == event then d[0]
    else First(d[1..], event)
  }

  /** The last declared transition for the event. */
  function Last(d: seq<Tran>, event: int): Tran {
    if d == [] then NONE
    else if d[|d| - 1].event == event then d[|d| - 1]
    else Last(d[..|d| - 1], event)
  }

  function Outcome(t: Tran, none: Lookup): Lookup {
    if t.event == EOF then none else Found(t.next)
  }

  lemma {:induction false} ScanFindsFirst(row: seq<Tran>, event: int)
    ensures Scan(row, event) == Outcome(First(Declared(row), event), if Terminated(row) then NoTransition else Overrun)
    decreases |row|
  {
    if row != [] && row[0].event != EOF {
      ScanFindsFirst(row[1..], event);
      assert Declared(row)[1..] == Declared(row[1..]);
    }
  }

  lemma {:induction false} FirstFacts(d: seq<Tran>, event: int)
    requires forall t | t in d :: t.event != EOF
    ensures First(d, event).event in {event, EOF}
    ensures First(d, event) != NONE ==> First(d, event) in d
    ensures First(d, event) == NONE <==> forall t | t in d :: t.event != event
    decreases |d|
  {
    if d != [] {
      FirstFacts(d[1..], event);
      assert forall t :: t in d <==> t == d[0] || t in d[1..];
      assert d[0] in d;
    }
  }

  lemma {:induction false} LastFacts(d: seq<Tran>, event: int)
    requires forall t | t in d :: t.event != EOF
    ensures Last(d, event).event in {event, EOF}
    ensures Last(d, event) != NONE ==> Last(d, event) in d
    ensures Last(d, event) == NONE <==> forall t | t in d :: t.event != event
    decreases |d|
  {
    if d != [] {
      var n := |d| - 1;
      LastFacts(d[..n], event);
      assert forall t :: t in d <==> t == d[n] || t in d[..n];
      assert d[n] in d;
    }
  }

  // ---------------------------------------------------------------------------
  // Compiling a row
  // ---------------------------------------------------------------------------

  /** Place `e` holds the last transition for event `e`, or an end mark. */
  predicate Holds(t: Tran, last: Tran) {
    t.event == last.event && (t.event != EOF ==> t == last)
  }

  /** The row that is indexed by the event. */
  ghost predicate IsIndexOf(row': seq<Tran>, d: seq<Tran>) {
    forall e | 0 <= e < |row'| :: Holds(row'[e], Last(d, e))
  }

  /** Where the declared transitions end, and whether they can be indexed. */
  method CheckRow(row: seq<Tran>) returns (n: nat, inRange: bool)
    ensures n == |Declared(row)|
    ensures inRange == InRange(row)
  {
    ghost var d := Declared(row);
    n, inRange := 0, true;
    while n < |row| && row[n].event != EOF
      invariant n <= |d|
      invariant inRange <==> forall i | 0 <= i < n :: 0 <= d[i].event < |row|
    {
      if row[n].event < 0 || row[n].event >= |row| {
        inRange := false;
      }
      n := n + 1;
    }
    assert forall t | t in d :: exists i :: 0 <= i < |d| && d[i] == t;
  }

  method Clear(row: array<Tran>)
    modifies row
    ensures forall e | 0 <= e < row.Length :: row[e].event == EOF
  {
    for i := 0 to row.Length
      invariant forall e | 0 <= e < i :: row[e].event == EOF
    {
      row[i] := row[i].(event := EOF);
    }
  }

  lemma LastAppend(d: seq<Tran>, t: Tran, e: int)
    ensures Last(d + [t], e) == if t.event == e then t else Last(d, e)
  {
  }

  method StoreAll(row: array<Tran>, d: seq<Tran>)
    requires forall e | 0 <= e < row.Length :: row[e].event == EOF
    requires forall i | 0 <= i < |d| :: d[i].event != EOF && 0 <= d[i].event < row.Length
    modifies row
    ensures IsIndexOf(row[..], d)
  {
    hide Last;
    NothingStored();
    for i := 0 to |d|
      invariant forall e | 0 <= e < row.Length :: Holds(row[e], Last(d[..i], e))
    {
      assert d[..i + 1] == d[..i] + [d[i]];
      ghost var before := row[..];
      row[d[i].event] := d[i];
      forall e | 0 <= e < row.Length
        ensures Holds(row[e], Last(d[..i + 1], e))
      {
        LastAppend(d[..i], d[i], e);
        assert Holds(before[e], Last(d[..i], e));
      }
    }
    assert d[..|d|] == d;
  }

  lemma NothingStored()
    ensures forall e :: Last([], e) == NONE
  {
  }

  /** Turn a row into an indexed one, in place; a row with an event out of range stays as it is. */
  method BuildIndex(row: array<Tran>) returns (indexed: bool)
    modifies row
    ensures indexed == InRange(old(row[..]))
    ensures if indexed then IsIndexOf(row[..], Declared(old(row[..]))) else row[..] == old(row[..])
  {
    var tmp := row[..];
    var n;
    n, indexed := CheckRow(tmp);
    if indexed {
      assert tmp[..n] == Declared(tmp);
      assert forall i | 0 <= i < n :: tmp[..n][i] in Declared(tmp);
      Clear(row);
      StoreAll(row, tmp[..n]);
    }
  }

  // ---------------------------------------------------------------------------
  // When the index means the same as the list
  // ---------------------------------------------------------------------------

  lemma IndexFindsLast(row: seq<Tran>, row': seq<Tran>, event: int)
    requires InRange(row) && |row'| == |row| && IsIndexOf(row', Declared(row))
    ensures Indexed(row', event) == Outcome(Last(Declared(row), event), NoTransition)
  {
    hide Last;
    LastFacts(Declared(row), event);
    if 0 <= event < |row'| {
      assert Holds(row'[event], Last(Declared(row), event));
    }
  }

  predicate SameLookup(row: seq<Tran>, row': seq<Tran>, event: int) {
    Indexed(row', event) == Scan(row, event)
  }

  /** The event's first and last declared transition lead to the same state. */
  predicate Agrees(d: seq<Tran>, event: int) {
    First(d, event).next == Last(d, event).next
  }

  lemma SameLookupIff(row: seq<Tran>, row': seq<Tran>, event: int)
    requires InRange(row) && Terminated(row) && |row'| == |row| && IsIndexOf(row', Declared(row))
    ensures SameLookup(row, row', event) <==> Agrees(Declared(row), event)
  {
    hide First;
    hide Last;
    hide Scan;
    hide Indexed;
    hide Declared;
    ScanFindsFirst(row, event);
    IndexFindsLast(row, row', event);
    FirstFacts(Declared(row), event);
    LastFacts(Declared(row), event);
  }

  /**
   An indexed row gives every event the same next state as a scan of the list if and only
   if no event is listed first with one next state and last with another: a scan takes the
   first, the index the last.
   */
  lemma IndexRefinesScanIff(row: seq<Tran>, row': seq<Tran>)
    requires InRange(row) && Terminated(row) && |row'| == |row| && IsIndexOf(row', Declared(row))
    ensures (forall event :: SameLookup(row, row', event)) <==> (forall event :: Agrees(Declared(row), event))
  {
    hide SameLookup;
    hide Agrees;
    forall event
      ensures SameLookup(row, row', event) <==> Agrees(Declared(row), event)
    {
      SameLookupIff(row, row', event);
    }
  }

  /** Such rows exist: with one event listed twice, the scan goes to `a` and the index to `b`. */
  lemma ScanAndIndexDiffer(a: int, b: int) returns (row: seq<Tran>, row': seq<Tran>)
    requires a != b
    ensures InRange(row) && Terminated(row) && |row'| == |row| && IsIndexOf(row', Declared(row))
    ensures Scan(row, 0) == Found(a) && Indexed(row', 0) == Found(b)
  {
    var d := [Tran(0, a)] + [Tran(0, b)];
    row, row' := d + [NONE], [Tran(0, b), NONE, NONE];
    assert row[1..] == [Tran(0, b)] + [NONE] && row[1..][1..] == [NONE];
    assert Declared(row[1..][1..]) == [];
    assert Declared(row[1..]) == [Tran(0, b)];
    assert Declared(row) == d;
    forall e | 0 <= e < |row'|
      ensures Holds(row'[e], Last(d, e))
    {
      LastAppend([Tran(0, a)], Tran(0, b), e);
      LastAppend([], Tran(0, a), e);
      assert [] + [Tran(0, a)] == [Tran(0, a)];
    }
  }

  // ---------------------------------------------------------------------------
  // The locking machine's table
  // ---------------------------------------------------------------------------

  /** The number of a state in the table. */
  function Number(st: State): int {
    match st
    case StGetSinglegrp => 0
    case StChkLLock => 1
    case StChkLUnlock => 2
    case StPingLock => 3
    case StPingWait => 4
    case StShmRefresh => 5
    case StAbort => 6
    case StAbortUnlock => 7
    case StChkMmon => 8
    case StDoLock => 9
  }

  const EV_OK := 0
  const EV_LOCKED := 1
  const EV_UNLOCKED := 2
  const EV_ERR := 3
  const EV_WAIT := 4
  const EV_BUSY := 5
  const EV_ABORT := 6

  /** The transitions each state declares. */
  function LockTransitions(st: State): seq<Tran> {
    match st
    case StGetSinglegrp => [Tran(EV_LOCKED, Number(StChkLLock)), Tran(EV_UNLOCKED, Number(StChkLUnlock)), Tran(EV_ERR, Number(StAbort))]
    case StChkLLock => [Tran(EV_LOCKED, Number(StPingLock)), Tran(EV_UNLOCKED, Number(StAbortUnlock))]
    case StChkLUnlock => [Tran(EV_LOCKED, Number(StAbort)), Tran(EV_WAIT, Number(StPingWait)), Tran(EV_UNLOCKED, Number(StChkMmon))]
    case StPingWait => [Tran(EV_OK, Number(StDoLock)), Tran(EV_ERR, Number(StAbortUnlock))]
    case StPingLock => [Tran(EV_OK, Number(StShmRefresh)), Tran(EV_ERR, Number(StAbortUnlock))]
    case StShmRefresh => [Tran(EV_OK, RETURN0), Tran(EV_ERR, Number(StAbortUnlock))]
    case StAbort => [Tran(EV_ABORT, RETURN)]
    case StAbortUnlock => [Tran(EV_ABORT, RETURN)]
    case StChkMmon => [Tran(EV_OK, Number(StDoLock)), Tran(EV_BUSY, RETURN0)]
    case StDoLock => [Tran(EV_OK, RETURN0), Tran(EV_BUSY, RETURN0), Tran(EV_WAIT, RETURN0), Tran(EV_ERR, Number(StAbortUnlock))]
  }

  const NR_TRANS: nat := 10

  /** A row of the table: the transitions, the end mark, and unused space. */
  ghost predicate IsLockRow(row: seq<Tran>, st: State) {
    && |row| == NR_TRANS
    && LockTransitions(st) + [NONE] <= row
  }

  function Meaning(r: Lookup): Target
    requires r.Found? ==> r.next in {RETURN, RETURN0} || 0 <= r.next <= 9
    requires !r.Overrun?
  {
    match r
    case NoTransition => NoRow
    case Found(next) =>
      if next == RETURN then Return
      else if next == RETURN0 then Return0
      else
        Goto([StGetSinglegrp, StChkLLock, StChkLUnlock, StPingLock, StPingWait,
                     StShmRefresh, StAbort, StAbortUnlock, StChkMmon, StDoLock][next])
  }

  lemma {:induction false} DeclaredIs(row: seq<Tran>, d: seq<Tran>)
    requires d + [NONE] <= row && forall t | t in d :: t.event != EOF
    ensures Declared(row) == d
    decreases |d|
  {
    if d == [] {
      assert row[0] == (d + [NONE])[0];
    } else {
      assert row[0] == d[0] && d[0] in d;
      assert d[1..] + [NONE] == (d + [NONE])[1..];
      DeclaredIs(row[1..], d[1..]);
    }
  }

  /** The last of up to four transitions for an event. */
  lemma {:induction false} LastOfFew(d: seq<Tran>, e: int)
    requires |d| <= 4
    ensures Last(d, e) == if |d| > 3 && d[3].event == e then d[3] else if |d| > 2 && d[2].event == e then d[2]
                          else if |d| > 1 && d[1].event == e then d[1] else if |d| > 0 && d[0].event == e then d[0] else NONE
    decreases |d|
  {
    if d != [] {
      LastOfFew(d[..|d| - 1], e);
    }
  }

  lemma LockTransitionsAreRow(st: State, ev: Event)
    ensures var r := Outcome(Last(LockTransitions(st), EventCode(ev)), NoTransition);
            && (r.Found? ==> r.next in {RETURN, RETURN0} || 0 <= r.next <= 9) && !r.Overrun?
            && Meaning(r) == Row(st, ev)
  {
    hide Last;
    LastOfFew(LockTransitions(st), EventCode(ev));
  }

  lemma LockRange(st: State)
    ensures |LockTransitions(st)| <= 4
    ensures forall t | t in LockTransitions(st) :: 0 <= t.event < NR_TRANS
  {
  }

  /** The compiled rows of the locking machine's table are the transition function of `LockSm`. */
  lemma LockTableIsRow(st: State, row: seq<Tran>, row': seq<Tran>, ev: Event)
    requires IsLockRow(row, st) && |row'| == |row| && IsIndexOf(row', Declared(row))
    ensures InRange(row) && Terminated(row)
    ensures var r := Indexed(row', EventCode(ev));
            && (r.Found? ==> r.next in {RETURN, RETURN0} || 0 <= r.next <= 9) && !r.Overrun?
            && Meaning(r) == Row(st, ev)
  {
    hide Declared;
    hide Last;
    hide Indexed;
    hide LockTransitions;
    hide Meaning;
    hide Row;
    hide EventCode;
    LockRange(st);
    DeclaredIs(row, LockTransitions(st));
    LockTransitionsAreRow(st, ev);
    IndexFindsLast(row, row', EventCode(ev));
  }
}
