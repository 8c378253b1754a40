/**
 Reading a session's history (sessioncontext/store.go and service.go): the sequential reader,
 the validation of what it reads, and the cursor over events.
 */
module SessionReading {
  import opened Sequences
  import opened SessionHistory

  /** What the data system answers for one key that it has: an error, undecodable bytes or a value. */
  datatype Cell<+T> = ReadError | Garbled | Stored(value: T)

  datatype Failure = DataSystem | Corrupted | InvalidQuery | NotFound

  datatype Answer<+T> = Success(value: T) | Failure(failure: Failure)

  // ---------------------------------------------------------------------------------------
  // The contiguous run of records from an index on
  // ---------------------------------------------------------------------------------------

  /** The first missing index from `i` on. */
  function RunEnd<T>(cells: map<int, Cell<T>>, i: int): (end: int)
    ensures end >= i && end !in cells && forall k :: i <= k < end ==> k in cells
    decreases |set k | k in cells && k >= i|
  {
    if i !in cells then i
    else
      var rest := set k | k in cells && k >= i + 1;
      assert (set k | k in cells && k >= i) == rest + {i};
      RunEnd(cells, i + 1)
  }

  predicate GoodAt<T(!new)>(cells: map<int, Cell<T>>, valid: (T, int) -> bool, i: int) {
    i in cells && cells[i].Stored? && valid(cells[i].value, i)
  }

  ghost predicate AllGood<T(!new)>(cells: map<int, Cell<T>>, valid: (T, int) -> bool, lo: int, hi: int) {
    forall k :: lo <= k < hi ==> GoodAt(cells, valid, k)
  }

  function Blame<T>(cell: Cell<T>): Failure {
    if cell.ReadError? then DataSystem else Corrupted
  }

  /** The values at `lo` to `hi - 1`. */
  ghost function Values<T(!new)>(cells: map<int, Cell<T>>, valid: (T, int) -> bool, lo: int, hi: int): (r: seq<T>)
    requires AllGood(cells, valid, lo, hi)
    ensures |r| == if lo <= hi then hi - lo else 0
    ensures forall i :: lo <= i < hi ==> i in cells && cells[i] == Stored(r[i - lo])
    decreases hi - lo
  {
    if lo >= hi then []
    else
      assert GoodAt(cells, valid, lo);
      [cells[lo].value] + Values(cells, valid, lo + 1, hi)
  }

  /** The failure of the first record from `i` on that is not good, if there is one. */
  function FirstFailure<T(!new)>(cells: map<int, Cell<T>>, valid: (T, int) -> bool, i: int): (f: Option<Failure>)
    ensures f.None? <==> AllGood(cells, valid, i, RunEnd(cells, i))
    ensures f.Some? ==> f.value == DataSystem || f.value == Corrupted
    decreases RunEnd(cells, i) - i
  {
    if i !in cells then None
    else if !GoodAt(cells, valid, i) then Some(Blame(cells[i]))
    else
      assert RunEnd(cells, i) == RunEnd(cells, i + 1);
      FirstFailure(cells, valid, i + 1)
  }

  /** What readSequential answers: the whole run of records from 1 on, or the failure of the first bad one. */
  ghost function WholeRun<T(!new)>(cells: map<int, Cell<T>>, valid: (T, int) -> bool): Answer<seq<T>> {
    var failure := FirstFailure(cells, valid, 1);
    if failure.Some? then Failure(failure.value) else Success(Values(cells, valid, 1, RunEnd(cells, 1)))
  }

  lemma {:induction false} FailsAt<T(!new)>(cells: map<int, Cell<T>>, valid: (T, int) -> bool, i: int, k: int)
    requires i <= k && AllGood(cells, valid, i, k) && k in cells && !GoodAt(cells, valid, k)
    ensures FirstFailure(cells, valid, i) == Some(Blame(cells[k]))
    decreases k - i
  {
    if i < k {
      assert GoodAt(cells, valid, i);
      FailsAt(cells, valid, i + 1, k);
    }
  }

  /** Values found one by one are the values. */
  lemma AreValues<T(!new)>(cells: map<int, Cell<T>>, valid: (T, int) -> bool, lo: int, hi: int, s: seq<T>)
    requires lo <= hi && AllGood(cells, valid, lo, hi) && |s| == hi - lo
    requires forall i :: lo <= i < hi ==> i in cells && cells[i] == Stored(s[i - lo])
    ensures s == Values(cells, valid, lo, hi)
  {
    hide Values;
    var r := Values(cells, valid, lo, hi);
    forall k | 0 <= k < |s| ensures s[k] == r[k] {
      assert cells[lo + k] == Stored(s[lo + k - lo]) && cells[lo + k] == Stored(r[lo + k - lo]);
    }
  }

  method ReadSequential<T(!new)>(cells: map<int, Cell<T>>, valid: (T, int) -> bool) returns (r: Answer<seq<T>>)
    ensures r == WholeRun(cells, valid)
  {
    hide Values, FirstFailure;
    var result: seq<T> := [];
    var index := 1;
    while true
      invariant 1 <= index <= RunEnd(cells, 1) && |result| == index - 1
      invariant AllGood(cells, valid, 1, index)
      invariant forall i :: 1 <= i < index ==> i in cells && cells[i] == Stored(result[i - 1])
      decreases RunEnd(cells, 1) - index
    {
      if index !in cells {
        AreValues(cells, valid, 1, index, result);
        return Success(result);
      }
      var raw := cells[index];
      if raw.ReadError? {
        FailsAt(cells, valid, 1, index);
        return Failure(DataSystem);
      }
      if raw.Garbled? || !valid(raw.value, index) {
        FailsAt(cells, valid, 1, index);
        return Failure(Corrupted);
      }
      result := result + [raw.value];
      index := index + 1;
    }
  }

  // ---------------------------------------------------------------------------------------
  // Validation, and the history it lets through
  // ---------------------------------------------------------------------------------------

  const SCHEMA_VERSION := 1

  predicate ValidTurn(session: string, t: TurnRecord, index: int) {
    t.schema == SCHEMA_VERSION && t.turnIndex == index && t.session == session && t.turnId != "" && t.startSeq > 0
    && t.createdAt != ""
  }

  predicate ValidEvent(session: string, e: Event, no: int) {
    e.schema == SCHEMA_VERSION && e.seqNo == no && e.session == session && e.turnId != "" && e.eventId != ""
    && e.kind != "" && e.createdAt != "" && (e.source == "PLATFORM" || e.source == "SDK")
  }

  function TurnOf(session: string): (TurnRecord, int) -> bool {
    (t, i) => ValidTurn(session, t, i)
  }

  function EventOf(session: string): (Event, int) -> bool {
    (e, i) => ValidEvent(session, e, i)
  }

  type Turns = map<int, Cell<TurnRecord>>
  type Events = map<int, Cell<Event>>

  /** Every stored record of the two runs is good. */
  ghost predicate Readable(turns: Turns, events: Events, session: string) {
    && AllGood(turns, TurnOf(session), 1, RunEnd(turns, 1))
    && AllGood(events, EventOf(session), 1, RunEnd(events, 1))
  }

  /** The turn records and the log that are stored. */
  ghost function Records(turns: Turns, session: string): seq<TurnRecord>
    requires AllGood(turns, TurnOf(session), 1, RunEnd(turns, 1))
  {
    Values(turns, TurnOf(session), 1, RunEnd(turns, 1))
  }

  ghost function Log(events: Events, session: string): seq<Event>
    requires AllGood(events, EventOf(session), 1, RunEnd(events, 1))
  {
    Values(events, EventOf(session), 1, RunEnd(events, 1))
  }

  /** A stored log is contiguous and stored records start at 1 or later: what aggregation relies on. */
  lemma StoredHistory(turns: Turns, events: Events, session: string)
    requires Readable(turns, events, session)
    ensures Contiguous(Log(events, session)) && Started(Records(turns, session))
    ensures forall i :: 0 <= i < |Records(turns, session)| ==> Records(turns, session)[i].turnIndex == i + 1
    ensures Records(turns, session) == [] <==> 1 !in turns
    ensures Log(events, session) == [] <==> 1 !in events
  {
    var records, log := Records(turns, session), Log(events, session);
    forall i | 0 <= i < |records| ensures ValidTurn(session, records[i], i + 1) {
      assert GoodAt(turns, TurnOf(session), i + 1) && turns[i + 1] == Stored(records[i + 1 - 1]);
    }
    forall i | 0 <= i < |log| ensures ValidEvent(session, log[i], i + 1) {
      assert GoodAt(events, EventOf(session), i + 1) && events[i + 1] == Stored(log[i + 1 - 1]);
    }
  }

  /** The record stored as turn `i` of a session does not contradict its key. */
  predicate TurnFitsKey(cell: Cell<TurnRecord>, session: string, i: int) {
    && cell.Stored? && cell.value.session == session && cell.value.turnIndex == i && cell.value.schema == 1
    && cell.value.turnId != "" && cell.value.createdAt != "" && cell.value.startSeq >= 1
  }

  /** The record stored as event `i` of a session does not contradict its key, and says where it comes from. */
  predicate EventFitsKey(cell: Cell<Event>, session: string, i: int) {
    && cell.Stored? && cell.value.session == session && cell.value.seqNo == i && cell.value.schema == 1
    && cell.value.turnId != "" && cell.value.eventId != "" && cell.value.kind != "" && cell.value.createdAt != ""
    && cell.value.source in ["PLATFORM", "SDK"]
  }

  /** A history can be read exactly if every record of the two runs fits its key. */
  lemma ReadableExactly(turns: Turns, events: Events, session: string)
    ensures Readable(turns, events, session) <==>
            && (forall i :: 1 <= i < RunEnd(turns, 1) ==> i in turns && TurnFitsKey(turns[i], session, i))
            && (forall i :: 1 <= i < RunEnd(events, 1) ==> i in events && EventFitsKey(events[i], session, i))
  {
    hide RunEnd;
    forall i ensures GoodAt(turns, TurnOf(session), i) <==> i in turns && TurnFitsKey(turns[i], session, i) {
    }
    forall i ensures GoodAt(events, EventOf(session), i) <==> i in events && EventFitsKey(events[i], session, i) {
    }
  }

  /** readHistory: the stored records and the stored log, or the first failure, turns before events. */
  method ReadHistory(turns: Turns, events: Events, session: string) returns (r: Answer<(seq<TurnRecord>, seq<Event>)>)
    ensures r.Success? <==> Readable(turns, events, session)
    ensures r.Success? ==> r.value == (Records(turns, session), Log(events, session))
    ensures r.Failure? ==>
              var failure := FirstFailure(turns, TurnOf(session), 1);
              Some(r.failure) == if failure.Some? then failure else FirstFailure(events, EventOf(session), 1)
  {
    hide Values, FirstFailure;
    var ts := ReadSequential(turns, TurnOf(session));
    if ts.Failure? {
      return Failure(ts.failure);
    }
    var es := ReadSequential(events, EventOf(session));
    if es.Failure? {
      return Failure(es.failure);
    }
    return Success((ts.value, es.value));
  }

  // ---------------------------------------------------------------------------------------
  // The event cursor
  // ---------------------------------------------------------------------------------------

  datatype Filter = Filter(turnId: string, source: string, kind: string)

  datatype Query = Query(afterSeq: int, limit: int, filter: Filter)

  datatype EventPage = EventPage(events: seq<Event>, nextAfterSeq: int)

  predicate Matches(f: Filter, e: Event) {
    (f.turnId == "" || e.turnId == f.turnId) && (f.source == "" || e.source == f.source)
    && (f.kind == "" || e.kind == f.kind)
  }

  function Matching(f: Filter, events: seq<Event>): seq<Event> {
    if events == [] then []
    else (if Matches(f, events[0]) then [events[0]] else []) + Matching(f, events[1..])
  }

  /** `list` is what `events` has at `places`, which are those of the events that the filter asks for, in order. */
  ghost predicate Filtered(f: Filter, events: seq<Event>, list: seq<Event>, places: seq<int>) {
    && |list| == |places| && (forall x, y :: 0 <= x < y < |places| ==> places[x] < places[y])
    && (forall x :: 0 <= x < |places| ==> 0 <= places[x] < |events| && list[x] == events[places[x]])
    && (forall k :: 0 <= k < |events| ==> (k in places <==> Asked(f, events[k])))
  }

  /** Each field that the filter names is the event's. */
  predicate Asked(f: Filter, e: Event) {
    f.turnId in ["", e.turnId] && f.source in ["", e.source] && f.kind in ["", e.kind]
  }

  lemma FilteredSnoc(f: Filter, events: seq<Event>, list: seq<Event>, places: seq<int>, e: Event)
    requires Filtered(f, events, list, places)
    ensures Asked(f, e) ==> Filtered(f, events + [e], list + [e], places + [|events|])
    ensures !Asked(f, e) ==> Filtered(f, events + [e], list, places)
  {
    hide Asked;
    assert |events| !in places;
  }

  lemma AskedIsMatching(f: Filter, e: Event)
    ensures Asked(f, e) <==> Matches(f, e)
  {
  }

  /** Filtering keeps exactly the events that have what is asked for, in the order of the log. */
  lemma {:induction false} MatchingIsTheFilter(f: Filter, events: seq<Event>) returns (places: seq<int>)
    ensures Filtered(f, events, Matching(f, events), places)
  {
    if events == [] {
      places := [];
    } else {
      hide Filtered, Matching, Asked, Matches;
      var n := |events| - 1;
      var e := events[n];
      places := MatchingIsTheFilter(f, events[..n]);
      assert events == events[..n] + [e];
      MatchingConcat(f, events[..n], [e]);
      MatchingOne(f, e);
      FilteredSnoc(f, events[..n], Matching(f, events[..n]), places, e);
      AskedIsMatching(f, e);
      if Matches(f, e) {
        places := places + [n];
      } else {
        assert Matching(f, events) == Matching(f, events[..n]);
      }
    }
  }

  lemma MatchingOne(f: Filter, e: Event)
    ensures Matching(f, [e]) == if Matches(f, e) then [e] else []
  {
    assert Matching(f, [e][1..]) == [];
  }

  /** The events from `no` on until `room` of them match or the run ends. */
  function Scan(cells: Events, valid: (Event, int) -> bool, f: Filter, no: int, room: nat): Answer<EventPage>
    requires room > 0
    decreases RunEnd(cells, no) - no
  {
    if no !in cells then Success(EventPage([], no - 1))
    else if !GoodAt(cells, valid, no) then Failure(Blame(cells[no]))
    else
      var e := cells[no].value;
      if !Matches(f, e) then Scan(cells, valid, f, no + 1, room)
      else if room == 1 then Success(EventPage([e], no))
      else Behind([e], Scan(cells, valid, f, no + 1, room - 1))
  }

  function Behind(events: seq<Event>, page: Answer<EventPage>): Answer<EventPage> {
    if page.Failure? then page else Success(page.value.(events := events + page.value.events))
  }

  /** What ListEvents answers; `firstTurn` is what the store has under the key of the first turn. */
  function EventsAnswer(cells: Events, valid: (Event, int) -> bool, firstTurn: Option<Cell<TurnRecord>>, q: Query)
    : Answer<EventPage>
  {
    if q.afterSeq < 0 || q.limit <= 0 then Failure(InvalidQuery)
    else if q.afterSeq == 0 && 1 !in cells && firstTurn.None? then Failure(NotFound)
    else if q.afterSeq == 0 && 1 !in cells && firstTurn.value.ReadError? then Failure(DataSystem)
    else Scan(cells, valid, q.filter, q.afterSeq + 1, q.limit)
  }

  method ListEvents(cells: Events, valid: (Event, int) -> bool, firstTurn: Option<Cell<TurnRecord>>, q: Query)
    returns (r: Answer<EventPage>)
    ensures r == EventsAnswer(cells, valid, firstTurn, q)
  {
    if q.afterSeq < 0 || q.limit <= 0 {
      return Failure(InvalidQuery);
    }
    var result: seq<Event> := [];
    var nextAfterSeq := q.afterSeq;
    var no := q.afterSeq + 1;
    ghost var whole := Scan(cells, valid, q.filter, no, q.limit);
    BehindNothing(whole);
    while no in cells
      invariant no == nextAfterSeq + 1 && q.afterSeq < no <= RunEnd(cells, q.afterSeq + 1) == RunEnd(cells, no)
      invariant |result| < q.limit && whole == Behind(result, Scan(cells, valid, q.filter, no, q.limit - |result|))
      invariant nextAfterSeq == q.afterSeq ==> result == []
      invariant nextAfterSeq != q.afterSeq ==> q.afterSeq + 1 in cells
      decreases RunEnd(cells, q.afterSeq + 1) - no
    {
      var raw := cells[no];
      if raw.ReadError? {
        return Failure(DataSystem);
      }
      if raw.Garbled? || !valid(raw.value, no) {
        return Failure(Corrupted);
      }
      var event := raw.value;
      nextAfterSeq := no;
      if Matches(q.filter, event) {
        ghost var room := if |result| + 1 < q.limit then q.limit - |result| - 1 else 1;
        BehindTwice(result, event, Scan(cells, valid, q.filter, no + 1, room));
        result := result + [event];
        if |result| == q.limit {
          return Success(EventPage(result, nextAfterSeq));
        }
      }
      no := no + 1;
    }
    if nextAfterSeq == q.afterSeq && q.afterSeq == 0 {
      if firstTurn.None? {
        return Failure(NotFound);
      }
      if firstTurn.value.ReadError? {
        return Failure(DataSystem);
      }
    }
    assert result + [] == result;
    return Success(EventPage(result, nextAfterSeq));
  }

  lemma BehindNothing(page: Answer<EventPage>)
    ensures Behind([], page) == page
  {
    if page.Success? {
      assert [] + page.value.events == page.value.events;
    }
  }

  lemma BehindTwice(a: seq<Event>, e: Event, page: Answer<EventPage>)
    ensures Behind(a, Behind([e], page)) == Behind(a + [e], page)
  {
    if page.Success? {
      assert a + ([e] + page.value.events) == a + [e] + page.value.events;
    }
  }

  lemma {:induction false} RunEndSame<T>(cells: map<int, Cell<T>>, i: int, j: int)
    requires i <= j <= RunEnd(cells, i)
    ensures RunEnd(cells, j) == RunEnd(cells, i)
    decreases j - i
  {
    if i < j {
      RunEndSame(cells, i + 1, j);
    }
  }

  lemma ValuesConcat<T(!new)>(cells: map<int, Cell<T>>, valid: (T, int) -> bool, lo: int, mid: int, hi: int)
    requires lo <= mid <= hi && AllGood(cells, valid, lo, hi)
    ensures AllGood(cells, valid, lo, mid) && AllGood(cells, valid, mid, hi)
    ensures Values(cells, valid, lo, hi) == Values(cells, valid, lo, mid) + Values(cells, valid, mid, hi)
  {
    hide Values, GoodAt;
    var a, b := Values(cells, valid, lo, mid), Values(cells, valid, mid, hi);
    forall i | lo <= i < hi ensures i in cells && cells[i] == Stored((a + b)[i - lo]) {
      if i < mid {
        assert cells[i] == Stored(a[i - lo]);
      } else {
        assert cells[i] == Stored(b[i - mid]);
      }
    }
    AreValues(cells, valid, lo, hi, a + b);
  }

  lemma {:induction false} MatchingConcat(f: Filter, a: seq<Event>, b: seq<Event>)
    ensures Matching(f, a + b) == Matching(f, a) + Matching(f, b)
  {
    if a == [] {
      assert a + b == b;
    } else {
      assert (a + b)[1..] == a[1..] + b;
      MatchingConcat(f, a[1..], b);
    }
  }

  /** What a page holds: exactly the matching events up to its cursor, full unless the run ends there. */
  ghost predicate PageFrom(cells: Events, valid: (Event, int) -> bool, f: Filter, no: int, room: nat, page: EventPage) {
    && no - 1 <= page.nextAfterSeq < RunEnd(cells, no)
    && AllGood(cells, valid, no, page.nextAfterSeq + 1)
    && page.events == Matching(f, Values(cells, valid, no, page.nextAfterSeq + 1))
    && |page.events| <= room
    && (|page.events| < room ==> page.nextAfterSeq + 1 == RunEnd(cells, no))
  }

  lemma PageAtTheEnd(cells: Events, valid: (Event, int) -> bool, f: Filter, no: int, room: nat)
    requires no !in cells && room > 0
    ensures PageFrom(cells, valid, f, no, room, EventPage([], no - 1))
  {
    assert Values(cells, valid, no, no) == [];
  }

  lemma PageOfOne(cells: Events, valid: (Event, int) -> bool, f: Filter, no: int)
    requires GoodAt(cells, valid, no) && Matches(f, cells[no].value)
    ensures PageFrom(cells, valid, f, no, 1, EventPage([cells[no].value], no))
  {
    hide Matches;
    assert RunEnd(cells, no) == RunEnd(cells, no + 1);
    assert Values(cells, valid, no, no + 1) == [cells[no].value] + Values(cells, valid, no + 1, no + 1);
    MatchingOne(f, cells[no].value);
  }

  /** One record in front of a page. */
  lemma PageBehind(cells: Events, valid: (Event, int) -> bool, f: Filter, no: int, room: nat, page: EventPage)
    requires GoodAt(cells, valid, no) && PageFrom(cells, valid, f, no + 1, room, page)
    ensures var front := if Matches(f, cells[no].value) then [cells[no].value] else [];
            PageFrom(cells, valid, f, no, room + |front|, page.(events := front + page.events))
  {
    hide Matches, Values, Matching;
    assert RunEnd(cells, no) == RunEnd(cells, no + 1);
    FrontMatches(cells, valid, f, no, page.nextAfterSeq + 1);
  }

  lemma FrontMatches(cells: Events, valid: (Event, int) -> bool, f: Filter, no: int, past: int)
    requires GoodAt(cells, valid, no) && no + 1 <= past && AllGood(cells, valid, no + 1, past)
    ensures AllGood(cells, valid, no, past)
    ensures Matching(f, Values(cells, valid, no, past)) ==
            (if Matches(f, cells[no].value) then [cells[no].value] else [])
            + Matching(f, Values(cells, valid, no + 1, past))
  {
    hide Matches, Values, Matching;
    assert AllGood(cells, valid, no, past) && AllGood(cells, valid, no, no + 1);
    ValuesConcat(cells, valid, no, no + 1, past);
    OneValue(cells, valid, no);
    MatchingConcat(f, [cells[no].value], Values(cells, valid, no + 1, past));
    MatchingOne(f, cells[no].value);
  }

  lemma OneValue(cells: Events, valid: (Event, int) -> bool, no: int)
    requires AllGood(cells, valid, no, no + 1) && no in cells && cells[no].Stored?
    ensures Values(cells, valid, no, no + 1) == [cells[no].value]
  {
    assert Values(cells, valid, no, no + 1)[no - no] == cells[no].value;
  }

  lemma {:induction false} ScanIsAPage(cells: Events, valid: (Event, int) -> bool, f: Filter, no: int, room: nat)
    requires room > 0
    ensures var r := Scan(cells, valid, f, no, room);
            && (r.Success? ==> PageFrom(cells, valid, f, no, room, r.value))
            && (r.Failure? ==> Some(r.failure) == FirstFailure(cells, valid, no))
    decreases RunEnd(cells, no) - no
  {
    hide Matches, PageFrom;
    if no !in cells {
      PageAtTheEnd(cells, valid, f, no, room);
    } else if GoodAt(cells, valid, no) {
      var e := cells[no].value;
      if Matches(f, e) && room == 1 {
        PageOfOne(cells, valid, f, no);
      } else {
        var rest := if Matches(f, e) then room - 1 else room;
        ScanIsAPage(cells, valid, f, no + 1, rest);
        var r := Scan(cells, valid, f, no + 1, rest);
        if r.Success? {
          PageBehind(cells, valid, f, no, rest, r.value);
          assert [] + r.value.events == r.value.events;
        }
      }
    }
  }

  /** A client that asks for page after page until the cursor stays where it is. */
  function FollowEvents(cells: Events, valid: (Event, int) -> bool, firstTurn: Option<Cell<TurnRecord>>, q: Query)
    : Answer<seq<Event>>
    decreases RunEnd(cells, q.afterSeq + 1) - q.afterSeq
  {
    var page := EventsAnswer(cells, valid, firstTurn, q);
    if page.Failure? then Failure(page.failure)
    else
      ScanIsAPage(cells, valid, q.filter, q.afterSeq + 1, q.limit);
      var next := page.value.nextAfterSeq;
      if next == q.afterSeq then Success([])
      else
        RunEndSame(cells, q.afterSeq + 1, next + 1);
        var rest := FollowEvents(cells, valid, firstTurn, q.(afterSeq := next));
        if rest.Failure? then rest else Success(page.value.events + rest.value)
  }

  /** Why the first page of a query can fail before any event is looked at. */
  function Refusal(cells: Events, firstTurn: Option<Cell<TurnRecord>>, q: Query): Option<Failure> {
    if q.afterSeq < 0 || q.limit <= 0 then Some(InvalidQuery)
    else if q.afterSeq > 0 || 1 in cells then None
    else if firstTurn.None? then Some(NotFound)
    else if firstTurn.value.ReadError? then Some(DataSystem)
    else None
  }

  /** The matching events of the run from `no` on, or the failure of its first bad record. */
  ghost function MatchingFrom(cells: Events, valid: (Event, int) -> bool, f: Filter, no: int): Answer<seq<Event>> {
    var bad := FirstFailure(cells, valid, no);
    if bad.Some? then Failure(bad.value) else Success(Matching(f, Values(cells, valid, no, RunEnd(cells, no))))
  }

  /** What following the cursor should yield: the matching events of the run, unless the query is refused. */
  ghost function MatchingRun(cells: Events, valid: (Event, int) -> bool, firstTurn: Option<Cell<TurnRecord>>, q: Query)
    : Answer<seq<Event>>
  {
    var refusal := Refusal(cells, firstTurn, q);
    if refusal.Some? then Failure(refusal.value) else MatchingFrom(cells, valid, q.filter, q.afterSeq + 1)
  }

  /** One page less: what is left is the page and what is left behind it. */
  lemma OnePage(cells: Events, valid: (Event, int) -> bool, f: Filter, no: int, room: nat)
    requires room > 0
    ensures var page := Scan(cells, valid, f, no, room);
            if page.Failure? then MatchingFrom(cells, valid, f, no) == Failure(page.failure)
            else if page.value.nextAfterSeq == no - 1 then MatchingFrom(cells, valid, f, no) == Success([])
            else
              var rest := MatchingFrom(cells, valid, f, page.value.nextAfterSeq + 1);
              MatchingFrom(cells, valid, f, no) ==
                if rest.Failure? then rest else Success(page.value.events + rest.value)
  {
    hide Scan, Values, GoodAt, Matches, FirstFailure, Matching, AllGood;
    ScanIsAPage(cells, valid, f, no, room);
    var page := Scan(cells, valid, f, no, room);
    if page.Success? {
      RunEndSame(cells, no, page.value.nextAfterSeq + 1);
      if page.value.nextAfterSeq == no - 1 {
        NothingLeft(cells, valid, f, no, room, page.value);
      } else {
        PagesMeet(cells, valid, f, no, page.value.nextAfterSeq + 1);
      }
    }
  }

  /**
   Following the cursor over an unchanged store neither loses nor repeats an event.  It fails
   exactly if the query is refused or the run from the cursor on has a bad record, with the
   refusal or with the failure of the first bad record.
   */
  lemma {:induction false} CursorCoversTheRun(cells: Events, valid: (Event, int) -> bool,
                                              firstTurn: Option<Cell<TurnRecord>>, q: Query)
    ensures FollowEvents(cells, valid, firstTurn, q) == MatchingRun(cells, valid, firstTurn, q)
    decreases RunEnd(cells, q.afterSeq + 1) - q.afterSeq
  {
    hide Scan, MatchingFrom, PageFrom;
    if Refusal(cells, firstTurn, q).None? {
      OnePage(cells, valid, q.filter, q.afterSeq + 1, q.limit);
      var page := Scan(cells, valid, q.filter, q.afterSeq + 1, q.limit);
      if page.Success? && page.value.nextAfterSeq != q.afterSeq {
        CursorMoves(cells, valid, q, page.value);
        CursorCoversTheRun(cells, valid, firstTurn, q.(afterSeq := page.value.nextAfterSeq));
      }
    }
  }

  lemma CursorMoves(cells: Events, valid: (Event, int) -> bool, q: Query, page: EventPage)
    requires q.limit > 0 && Scan(cells, valid, q.filter, q.afterSeq + 1, q.limit) == Success(page)
    ensures q.afterSeq <= page.nextAfterSeq < RunEnd(cells, q.afterSeq + 1) == RunEnd(cells, page.nextAfterSeq + 1)
  {
    hide Scan;
    ScanIsAPage(cells, valid, q.filter, q.afterSeq + 1, q.limit);
    RunEndSame(cells, q.afterSeq + 1, page.nextAfterSeq + 1);
  }

  /** A page that does not move the cursor stands at the end of the run. */
  lemma NothingLeft(cells: Events, valid: (Event, int) -> bool, f: Filter, no: int, room: nat, page: EventPage)
    requires PageFrom(cells, valid, f, no, room, page) && room > 0 && page.nextAfterSeq == no - 1
    ensures RunEnd(cells, no) == no && FirstFailure(cells, valid, no).None?
    ensures AllGood(cells, valid, no, no) && Matching(f, Values(cells, valid, no, no)) == []
  {
  }

  /** The run is the part up to the cursor and the part behind it. */
  lemma PagesMeet(cells: Events, valid: (Event, int) -> bool, f: Filter, no: int, mid: int)
    requires no <= mid <= RunEnd(cells, no) == RunEnd(cells, mid) && AllGood(cells, valid, no, mid)
    ensures FirstFailure(cells, valid, no) == FirstFailure(cells, valid, mid)
    ensures FirstFailure(cells, valid, no).None? ==>
              var end := RunEnd(cells, no);
              Matching(f, Values(cells, valid, no, end)) ==
                Matching(f, Values(cells, valid, no, mid)) + Matching(f, Values(cells, valid, mid, end))
  {
    hide Values, GoodAt, Matching, FirstFailure;
    SameFailure(cells, valid, no, mid);
    if FirstFailure(cells, valid, no).None? {
      ValuesConcat(cells, valid, no, mid, RunEnd(cells, no));
      MatchingConcat(f, Values(cells, valid, no, mid), Values(cells, valid, mid, RunEnd(cells, no)));
    }
  }

  lemma {:induction false} SameFailure(cells: Events, valid: (Event, int) -> bool, no: int, mid: int)
    requires no <= mid && AllGood(cells, valid, no, mid)
    ensures FirstFailure(cells, valid, no) == FirstFailure(cells, valid, mid)
    decreases mid - no
  {
    if no < mid {
      assert GoodAt(cells, valid, no);
      SameFailure(cells, valid, no + 1, mid);
    }
  }
}
