/**
 Turn aggregation (sessioncontext/aggregate.go).  `AggregateTurns` is the source's single pass
 with its nested loops; `Merge` is the same pass as a recursive function.  What the pass is for
 is said without it: every turn summarises the events of its own range, each field by a filter
 or by the last event that sets it.
 */
module SessionHistory {
  import opened Sequences

  /** A decoded JSON value; a missing field reads as null. */
  datatype Json = Null | Value(text: string)

  datatype Data = Object(fields: map<string, Json>) | NotObject

  datatype Event = Event(schema: int, session: string, eventId: string, seqNo: int, turnId: string, source: string,
                         kind: string, createdAt: string, data: Data)

  datatype TurnRecord = TurnRecord(schema: int, session: string, turnId: string, turnIndex: int, startSeq: int,
                                   createdAt: string)

  datatype Turn = Turn(turnId: string, turnIndex: int, state: string, inputs: seq<Json>, outputs: seq<Json>,
                       result: Json, error: Json, startSeq: int, endSeq: int, createdAt: string)

  datatype Corruption =
    | InvalidRange(turnId: string)
    | UnexpectedTurn(at: int)
    | DataNotObject(at: int)
    | OutsideTurns

  datatype Result<+T> = Ok(value: T) | Err(error: Corruption)

  // ---------------------------------------------------------------------------------------
  // applyEvent
  // ---------------------------------------------------------------------------------------

  predicate Relevant(kind: string) {
    kind == "input.message" || kind == "output.message" || Terminal(kind)
  }

  predicate Terminal(kind: string) {
    kind == "turn.input_required" || kind == "turn.completed" || kind == "turn.failed"
  }

  function Field(d: Data, name: string): Json {
    if d.Object? && name in d.fields then d.fields[name] else Null
  }

  function Message(e: Event): seq<Json> {
    if e.data.Object? && "message" in e.data.fields then [e.data.fields["message"]] else []
  }

  function ApplyEvent(turn: Turn, e: Event): (r: Result<Turn>)
    ensures r.Ok? <==> (Relevant(e.kind) ==> e.data.Object?)
    ensures r.Err? ==> r.error == DataNotObject(e.seqNo)
    ensures r.Ok? ==> r.value.turnId == turn.turnId && turn.inputs <= r.value.inputs && turn.outputs <= r.value.outputs
    ensures r.Ok? && e.kind != "input.message" ==> r.value.inputs == turn.inputs
    ensures r.Ok? && e.kind != "output.message" ==> r.value.outputs == turn.outputs
    ensures r.Ok? && e.kind == "input.message" && "message" in e.data.fields ==>
              r.value.inputs == turn.inputs + [e.data.fields["message"]]
    ensures r.Ok? && e.kind == "output.message" && "message" in e.data.fields ==>
              r.value.outputs == turn.outputs + [e.data.fields["message"]]
  {
    if !Relevant(e.kind) then Ok(turn)
    else if !e.data.Object? then Err(DataNotObject(e.seqNo))
    else if e.kind == "input.message" then Ok(turn.(state := "WORKING", inputs := turn.inputs + Message(e)))
    else if e.kind == "output.message" then Ok(turn.(outputs := turn.outputs + Message(e)))
    else if e.kind == "turn.input_required" then
      Ok(turn.(state := "INPUT_REQUIRED", result := Field(e.data, "output"), error := Null))
    else if e.kind == "turn.completed" then
      Ok(turn.(state := "COMPLETED", result := Field(e.data, "output"), error := Null))
    else Ok(turn.(state := "FAILED", result := Null, error := Field(e.data, "error")))
  }

  // ---------------------------------------------------------------------------------------
  // The pass
  // ---------------------------------------------------------------------------------------

  function EndSeq(records: seq<TurnRecord>, events: seq<Event>, i: nat): int
    requires i < |records|
  {
    if i + 1 < |records| then records[i + 1].startSeq - 1
    else if events != [] then events[|events| - 1].seqNo
    else records[i].startSeq - 1
  }

  function EmptyTurn(record: TurnRecord, end: int): (turn: Turn)
    ensures turn.turnId == record.turnId
  {
    Turn(record.turnId, record.turnIndex, "WORKING", [], [], Null, Null, record.startSeq,
         if record.startSeq - 1 > end then record.startSeq - 1 else end, record.createdAt)
  }

  /** The first position from `j` on whose event is numbered `bound` or more. */
  function Seek(events: seq<Event>, j: nat, bound: int): (k: nat)
    requires j <= |events|
    ensures j <= k <= |events| && (k < |events| ==> events[k].seqNo >= bound)
    decreases |events| - j
  {
    if j < |events| && events[j].seqNo < bound then Seek(events, j + 1, bound) else j
  }

  /** Applies the events at positions `j` to `k` to a turn they must belong to. */
  function ApplyRange(turn: Turn, events: seq<Event>, j: nat, k: nat): Result<Turn>
    requires j <= k <= |events|
    decreases k - j
  {
    if j == k then Ok(turn)
    else if events[j].turnId != turn.turnId then Err(UnexpectedTurn(events[j].seqNo))
    else
      var r := ApplyEvent(turn, events[j]);
      if r.Err? then r else ApplyRange(r.value, events, j + 1, k)
  }

  /** The turns of the records from `i` on, when the events before position `j` are used up. */
  function Merge(records: seq<TurnRecord>, events: seq<Event>, i: nat, j: nat): Result<seq<Turn>>
    requires i <= |records| && j <= |events|
    decreases |records| - i
  {
    if i == |records| then if j == |events| then Ok([]) else Err(OutsideTurns)
    else
      var end := EndSeq(records, events, i);
      if records[i].startSeq > end + 1 then Err(InvalidRange(records[i].turnId))
      else
        var first := Seek(events, j, records[i].startSeq);
        var past := Seek(events, first, end + 1);
        var turn := ApplyRange(EmptyTurn(records[i], end), events, first, past);
        if turn.Err? then Err(turn.error) else After([turn.value], Merge(records, events, i + 1, past))
  }

  function After(turns: seq<Turn>, r: Result<seq<Turn>>): Result<seq<Turn>> {
    if r.Ok? then Ok(turns + r.value) else r
  }

  lemma AfterNothing(r: Result<seq<Turn>>)
    ensures After([], r) == r
  {
    if r.Ok? {
      assert [] + r.value == r.value;
    }
  }

  /** One record further, behind the turns already made. */
  lemma MergeOne(records: seq<TurnRecord>, events: seq<Event>, i: nat, j: nat, made: seq<Turn>)
    requires i < |records| && j <= |events|
    ensures var end := EndSeq(records, events, i);
            var first := Seek(events, j, records[i].startSeq);
            var past := Seek(events, first, end + 1);
            var turn := ApplyRange(EmptyTurn(records[i], end), events, first, past);
            After(made, Merge(records, events, i, j)) ==
              if records[i].startSeq > end + 1 then Err(InvalidRange(records[i].turnId))
              else if turn.Err? then Err(turn.error)
              else After(made + [turn.value], Merge(records, events, i + 1, past))
  {
    var end := EndSeq(records, events, i);
    var first := Seek(events, j, records[i].startSeq);
    var past := Seek(events, first, end + 1);
    var turn := ApplyRange(EmptyTurn(records[i], end), events, first, past);
    var rest := Merge(records, events, i + 1, past);
    if turn.Ok? && rest.Ok? {
      assert made + ([turn.value] + rest.value) == made + [turn.value] + rest.value;
    }
  }

  lemma MergeNone(records: seq<TurnRecord>, events: seq<Event>, j: nat, made: seq<Turn>)
    requires j <= |events|
    ensures After(made, Merge(records, events, |records|, j)) == if j == |events| then Ok(made) else Err(OutsideTurns)
  {
    assert made + [] == made;
  }

  method AggregateTurns(records: seq<TurnRecord>, events: seq<Event>) returns (r: Result<seq<Turn>>)
    ensures r == Merge(records, events, 0, 0)
  {
    hide ApplyEvent, Merge, After, EmptyTurn, Relevant;
    var result: seq<Turn> := [];
    var eventIndex := 0;
    AfterNothing(Merge(records, events, 0, 0));
    for index := 0 to |records|
      invariant eventIndex <= |events|
      invariant Merge(records, events, 0, 0) == After(result, Merge(records, events, index, eventIndex))
    {
      MergeOne(records, events, index, eventIndex, result);
      var record := records[index];
      var endSeq := record.startSeq - 1;
      if |events| != 0 {
        endSeq := events[|events| - 1].seqNo;
      }
      if index + 1 < |records| {
        endSeq := records[index + 1].startSeq - 1;
      }
      if record.startSeq > endSeq + 1 {
        return Err(InvalidRange(record.turnId));
      }
      var turn := EmptyTurn(record, endSeq);
      ghost var first := Seek(events, eventIndex, record.startSeq);
      while eventIndex < |events| && events[eventIndex].seqNo < record.startSeq
        invariant eventIndex <= |events| && Seek(events, eventIndex, record.startSeq) == first
      {
        eventIndex := eventIndex + 1;
      }
      ghost var past := Seek(events, eventIndex, endSeq + 1);
      while eventIndex < |events| && events[eventIndex].seqNo <= endSeq
        invariant first <= eventIndex <= past && Seek(events, eventIndex, endSeq + 1) == past
        invariant turn.turnId == record.turnId
        invariant ApplyRange(EmptyTurn(record, endSeq), events, first, past)
                  == ApplyRange(turn, events, eventIndex, past)
      {
        var event := events[eventIndex];
        if event.turnId != record.turnId {
          return Err(UnexpectedTurn(event.seqNo));
        }
        var applied := ApplyEvent(turn, event);
        if applied.Err? {
          return Err(applied.error);
        }
        turn := applied.value;
        eventIndex := eventIndex + 1;
      }
      result := result + [turn];
    }
    MergeNone(records, events, eventIndex, result);
    if eventIndex != |events| {
      return Err(OutsideTurns);
    }
    return Ok(result);
  }

  // ---------------------------------------------------------------------------------------
  // What a turn is, event log in hand
  // ---------------------------------------------------------------------------------------

  /** The log as the reader returns it: events 1, 2, 3 and so on. */
  ghost predicate Contiguous(events: seq<Event>) {
    forall k :: 0 <= k < |events| ==> events[k].seqNo == k + 1
  }

  /** The records as the reader returns them. */
  ghost predicate Started(records: seq<TurnRecord>) {
    forall i :: 0 <= i < |records| ==> records[i].startSeq >= 1
  }

  /** The events numbered `lo` to `hi`. */
  function Range(events: seq<Event>, lo: int, hi: int): seq<Event> {
    if events == [] then []
    else (if lo <= events[0].seqNo <= hi then [events[0]] else []) + Range(events[1..], lo, hi)
  }

  function Messages(events: seq<Event>, kind: string): seq<Json> {
    if events == [] then []
    else (if events[0].kind == kind then Message(events[0]) else []) + Messages(events[1..], kind)
  }

  /** The last of the first `n` positions whose event is of one of the `kinds`, or -1. */
  function LastIndex(events: seq<Event>, n: nat, kinds: set<string>): (k: int)
    requires n <= |events|
    ensures -1 <= k < n && (k >= 0 ==> events[k].kind in kinds)
    ensures forall x :: k < x < n ==> events[x].kind !in kinds
  {
    if n == 0 then -1 else if events[n - 1].kind in kinds then n - 1 else LastIndex(events, n - 1, kinds)
  }

  /** The last event, if any, of one of the `kinds`. */
  function LastOf(events: seq<Event>, kinds: set<string>): Option<Event> {
    var k := LastIndex(events, |events|, kinds);
    if k < 0 then None else Some(events[k])
  }

  const TERMINAL := {"turn.input_required", "turn.completed", "turn.failed"}

  function StateName(kind: string): string {
    if kind == "turn.input_required" then "INPUT_REQUIRED"
    else if kind == "turn.completed" then "COMPLETED"
    else if kind == "turn.failed" then "FAILED"
    else "WORKING"
  }

  function StateOf(events: seq<Event>): string {
    var last := LastOf(events, TERMINAL + {"input.message"});
    if last.None? then "WORKING" else StateName(last.value.kind)
  }

  function ResultOf(events: seq<Event>): Json {
    var last := LastOf(events, TERMINAL);
    if last.None? || last.value.kind == "turn.failed" then Null else Field(last.value.data, "output")
  }

  function ErrorOf(events: seq<Event>): Json {
    var last := LastOf(events, TERMINAL);
    if last.Some? && last.value.kind == "turn.failed" then Field(last.value.data, "error") else Null
  }

  /** The turn that a record and the events of its range make. */
  function Summary(record: TurnRecord, end: int, events: seq<Event>): Turn {
    Turn(record.turnId, record.turnIndex, StateOf(events), Messages(events, "input.message"),
         Messages(events, "output.message"), ResultOf(events), ErrorOf(events), record.startSeq, end, record.createdAt)
  }

  predicate Sound(e: Event, turnId: string) {
    e.turnId == turnId && (Relevant(e.kind) ==> e.data.Object?)
  }

  function TurnEvents(records: seq<TurnRecord>, events: seq<Event>, i: nat): seq<Event>
    requires i < |records|
  {
    Range(events, records[i].startSeq, EndSeq(records, events, i))
  }

  ghost predicate LegalTurn(records: seq<TurnRecord>, events: seq<Event>, i: nat)
    requires i < |records|
  {
    && records[i].startSeq <= EndSeq(records, events, i) + 1
    && forall e :: e in TurnEvents(records, events, i) ==> Sound(e, records[i].turnId)
  }

  /** The histories that aggregate: ordered starts, and every turn's events its own and readable. */
  ghost predicate Legal(records: seq<TurnRecord>, events: seq<Event>) {
    && (records == [] ==> events == [])
    && forall i :: 0 <= i < |records| ==> LegalTurn(records, events, i)
  }

  function Summaries(records: seq<TurnRecord>, events: seq<Event>, i: nat): (r: seq<Turn>)
    requires i <= |records|
    ensures |r| == |records| - i
    ensures forall k :: 0 <= k < |r| ==>
              r[k] == Summary(records[i + k], EndSeq(records, events, i + k), TurnEvents(records, events, i + k))
    decreases |records| - i
  {
    if i == |records| then []
    else
      [Summary(records[i], EndSeq(records, events, i), TurnEvents(records, events, i))]
      + Summaries(records, events, i + 1)
  }

  // ---------------------------------------------------------------------------------------
  // Folding a range is summarising it
  // ---------------------------------------------------------------------------------------

  lemma {:induction false} LastIndexCons(e: Event, events: seq<Event>, n: nat, kinds: set<string>)
    requires n <= |events|
    ensures LastIndex([e] + events, n + 1, kinds) ==
            if LastIndex(events, n, kinds) >= 0 then LastIndex(events, n, kinds) + 1
            else if e.kind in kinds then 0 else -1
  {
    if n > 0 {
      LastIndexCons(e, events, n - 1, kinds);
    }
  }

  lemma LastOfCons(e: Event, events: seq<Event>, kinds: set<string>)
    ensures LastOf([e] + events, kinds) ==
            if LastOf(events, kinds).Some? then LastOf(events, kinds)
            else if e.kind in kinds then Some(e) else None
  {
    LastIndexCons(e, events, |events|, kinds);
  }

  /** What a run of events makes of a turn, field by field. */
  function Extend(turn: Turn, events: seq<Event>): Turn {
    var last := LastOf(events, TERMINAL);
    turn.(state := if LastOf(events, TERMINAL + {"input.message"}).None? then turn.state else StateOf(events),
          inputs := turn.inputs + Messages(events, "input.message"),
          outputs := turn.outputs + Messages(events, "output.message"),
          result := if last.None? then turn.result else ResultOf(events),
          error := if last.None? then turn.error else ErrorOf(events))
  }

  lemma ExtendNone(turn: Turn)
    ensures Extend(turn, []) == turn
  {
    assert turn.inputs + [] == turn.inputs && turn.outputs + [] == turn.outputs;
  }

  lemma ConsMessages(turn: Turn, e: Event, events: seq<Event>)
    requires ApplyEvent(turn, e).Ok?
    ensures turn.inputs + Messages([e] + events, "input.message")
         == ApplyEvent(turn, e).value.inputs + Messages(events, "input.message")
    ensures turn.outputs + Messages([e] + events, "output.message")
         == ApplyEvent(turn, e).value.outputs + Messages(events, "output.message")
  {
    assert ([e] + events)[1..] == events;
    assert Messages([e] + events, "input.message")
        == (if e.kind == "input.message" then Message(e) else []) + Messages(events, "input.message");
    assert Messages([e] + events, "output.message")
        == (if e.kind == "output.message" then Message(e) else []) + Messages(events, "output.message");
  }

  lemma ConsState(turn: Turn, e: Event, events: seq<Event>)
    requires ApplyEvent(turn, e).Ok?
    ensures Extend(turn, [e] + events).state == Extend(ApplyEvent(turn, e).value, events).state
  {
    hide LastOf, Messages, ResultOf, ErrorOf;
    LastOfCons(e, events, TERMINAL + {"input.message"});
  }

  lemma ConsOutcome(turn: Turn, e: Event, events: seq<Event>)
    requires ApplyEvent(turn, e).Ok?
    ensures Extend(turn, [e] + events).result == Extend(ApplyEvent(turn, e).value, events).result
    ensures Extend(turn, [e] + events).error == Extend(ApplyEvent(turn, e).value, events).error
  {
    hide LastOf, Messages, StateOf;
    LastOfCons(e, events, TERMINAL);
  }

  lemma ExtendCons(turn: Turn, e: Event, events: seq<Event>)
    requires ApplyEvent(turn, e).Ok?
    ensures Extend(turn, [e] + events) == Extend(ApplyEvent(turn, e).value, events)
  {
    hide LastOf, Messages, StateOf, ResultOf, ErrorOf;
    ConsMessages(turn, e, events);
    ConsState(turn, e, events);
    ConsOutcome(turn, e, events);
  }

  ghost predicate AllSound(events: seq<Event>, turnId: string) {
    forall e :: e in events ==> Sound(e, turnId)
  }

  lemma {:induction false} ApplyRangeIsExtend(turn: Turn, events: seq<Event>, j: nat, k: nat)
    requires j <= k <= |events|
    ensures ApplyRange(turn, events, j, k).Ok? <==> AllSound(events[j..k], turn.turnId)
    ensures ApplyRange(turn, events, j, k).Ok? ==> ApplyRange(turn, events, j, k).value == Extend(turn, events[j..k])
    decreases k - j
  {
    hide Extend, ApplyEvent;
    if j == k {
      ExtendNone(turn);
      assert events[j..k] == [];
    } else {
      var e := events[j];
      assert events[j..k] == [e] + events[j + 1..k];
      if Sound(e, turn.turnId) {
        ApplyRangeIsExtend(ApplyEvent(turn, e).value, events, j + 1, k);
        ExtendCons(turn, e, events[j + 1..k]);
      } else {
        assert e in events[j..k];
      }
    }
  }

  /** A fresh turn extended by the events of its range is their summary. */
  lemma ExtendEmpty(record: TurnRecord, end: int, events: seq<Event>)
    requires record.startSeq <= end + 1
    ensures Extend(EmptyTurn(record, end), events) == Summary(record, end, events)
  {
  }

  // ---------------------------------------------------------------------------------------
  // On a contiguous log, positions and numbers agree
  // ---------------------------------------------------------------------------------------

  function Clamp(x: int, lo: int, hi: int): (r: int)
    requires lo <= hi
    ensures lo <= r <= hi
  {
    if x < lo then lo else if x > hi then hi else x
  }

  lemma {:induction false} SeekContiguous(events: seq<Event>, j: nat, bound: int)
    requires Contiguous(events) && j <= |events|
    ensures Seek(events, j, bound) == Clamp(bound - 1, j, |events|)
    decreases |events| - j
  {
    if j < |events| && events[j].seqNo < bound {
      SeekContiguous(events, j + 1, bound);
    }
  }

  lemma SliceOfRest(events: seq<Event>, a: nat, b: nat)
    requires events != [] && a <= b < |events|
    ensures events[1..][a..b] == events[a + 1..b + 1]
    ensures [events[0]] + events[1..][..b] == events[..b + 1]
  {
  }

  lemma {:induction false} RangeShifted(events: seq<Event>, base: nat, lo: int, hi: int)
    requires forall k :: 0 <= k < |events| ==> events[k].seqNo == base + k + 1
    ensures var a := Clamp(lo - 1 - base, 0, |events|);
            Range(events, lo, hi) == events[a..Clamp(hi - base, a, |events|)]
    decreases |events|
  {
    if events != [] {
      RangeShifted(events[1..], base + 1, lo, hi);
      var n := |events| - 1;
      var a := Clamp(lo - 2 - base, 0, n);
      SliceOfRest(events, a, Clamp(hi - base - 1, a, n));
    }
  }

  lemma RangeContiguous(events: seq<Event>, lo: int, hi: int)
    requires Contiguous(events)
    ensures var a := Clamp(lo - 1, 0, |events|); Range(events, lo, hi) == events[a..Clamp(hi, a, |events|)]
  {
    RangeShifted(events, 0, lo, hi);
  }

  // ---------------------------------------------------------------------------------------
  // The pass refines the summaries
  // ---------------------------------------------------------------------------------------

  ghost predicate LegalFrom(records: seq<TurnRecord>, events: seq<Event>, i: nat) {
    forall k :: i <= k < |records| ==> LegalTurn(records, events, k)
  }

  /** Where the pass stands before record `i`. */
  ghost predicate Consumed(records: seq<TurnRecord>, events: seq<Event>, i: nat, j: nat) {
    && j <= |events|
    && (i < |records| ==> j <= Clamp(records[i].startSeq - 1, 0, |events|))
    && (i == |records| && i > 0 ==> j == |events|)
  }

  /** The two skips of the pass delimit the events of the record's range. */
  lemma Positions(records: seq<TurnRecord>, events: seq<Event>, i: nat, j: nat)
    requires Contiguous(events) && Started(records) && i < |records| && Consumed(records, events, i, j)
    requires records[i].startSeq <= EndSeq(records, events, i) + 1
    ensures var first := Seek(events, j, records[i].startSeq);
            var past := Seek(events, first, EndSeq(records, events, i) + 1);
            TurnEvents(records, events, i) == events[first..past] && Consumed(records, events, i + 1, past)
  {
    hide Seek, Range;
    var end := EndSeq(records, events, i);
    SeekContiguous(events, j, records[i].startSeq);
    var first := Seek(events, j, records[i].startSeq);
    SeekContiguous(events, first, end + 1);
    RangeContiguous(events, records[i].startSeq, end);
  }

  lemma OneTurn(records: seq<TurnRecord>, events: seq<Event>, i: nat, j: nat)
    requires Contiguous(events) && Started(records) && i < |records| && Consumed(records, events, i, j)
    requires records[i].startSeq <= EndSeq(records, events, i) + 1
    ensures var end := EndSeq(records, events, i);
            var first := Seek(events, j, records[i].startSeq);
            var past := Seek(events, first, end + 1);
            var turn := ApplyRange(EmptyTurn(records[i], end), events, first, past);
            && (turn.Ok? <==> LegalTurn(records, events, i))
            && (turn.Ok? ==> turn.value == Summary(records[i], end, TurnEvents(records, events, i)))
            && Consumed(records, events, i + 1, past)
  {
    hide ApplyRange, Summary, EmptyTurn, Seek, Range, EndSeq, Consumed, Contiguous, Started, Sound, TurnEvents;
    Positions(records, events, i, j);
    var end := EndSeq(records, events, i);
    var first := Seek(events, j, records[i].startSeq);
    var past := Seek(events, first, end + 1);
    ApplyRangeIsExtend(EmptyTurn(records[i], end), events, first, past);
    ExtendEmpty(records[i], end, events[first..past]);
  }

  lemma {:induction false} MergeFrom(records: seq<TurnRecord>, events: seq<Event>, i: nat, j: nat)
    requires Contiguous(events) && Started(records) && i <= |records| && Consumed(records, events, i, j)
    requires i == |records| ==> j == |events|
    ensures Merge(records, events, i, j).Ok? <==> LegalFrom(records, events, i)
    ensures Merge(records, events, i, j).Ok? ==> Merge(records, events, i, j).value == Summaries(records, events, i)
    decreases |records| - i
  {
    hide Summary, ApplyRange, EmptyTurn, Seek, LegalTurn, TurnEvents;
    if i < |records| {
      assert records[i].startSeq > EndSeq(records, events, i) + 1 ==> !LegalTurn(records, events, i) by {
        NotLegal(records, events, i);
      }
      if records[i].startSeq <= EndSeq(records, events, i) + 1 {
        OneTurn(records, events, i, j);
        var first := Seek(events, j, records[i].startSeq);
        MergeFrom(records, events, i + 1, Seek(events, first, EndSeq(records, events, i) + 1));
      }
    }
  }

  lemma NotLegal(records: seq<TurnRecord>, events: seq<Event>, i: nat)
    requires i < |records|
    ensures LegalTurn(records, events, i) ==> records[i].startSeq <= EndSeq(records, events, i) + 1
  {
  }

  /** The single pass succeeds exactly on the legal histories, and then yields the summary of every turn. */
  lemma AggregationIsSummary(records: seq<TurnRecord>, events: seq<Event>)
    requires Contiguous(events) && Started(records)
    ensures Merge(records, events, 0, 0).Ok? <==> Legal(records, events)
    ensures Legal(records, events) ==> Merge(records, events, 0, 0) == Ok(Summaries(records, events, 0))
  {
    hide LegalTurn, Summaries;
    if records != [] || events == [] {
      MergeFrom(records, events, 0, 0);
    }
  }

  // ---------------------------------------------------------------------------------------
  // Every event from the first start on is in one turn
  // ---------------------------------------------------------------------------------------

  /** Starts never decrease, and no turn starts beyond the event that comes next. */
  lemma {:induction false} StartsOrdered(records: seq<TurnRecord>, events: seq<Event>, i: nat, k: nat)
    requires Contiguous(events) && Legal(records, events) && i <= k < |records|
    ensures records[i].startSeq <= records[k].startSeq
    ensures events != [] ==> records[k].startSeq <= |events| + 1
    decreases |records| - i
  {
    assert LegalTurn(records, events, i) && LegalTurn(records, events, k);
    if i < k {
      StartsOrdered(records, events, i + 1, k);
    } else if k + 1 < |records| {
      StartsOrdered(records, events, i + 1, k + 1);
    }
  }

  /** The last of the first `n` records that starts at event `no` or before. */
  function Owner(records: seq<TurnRecord>, n: nat, no: int): (i: nat)
    requires 0 < n <= |records| && records[0].startSeq <= no
    ensures i < n && records[i].startSeq <= no && forall k :: i < k < n ==> records[k].startSeq > no
  {
    if records[n - 1].startSeq <= no then n - 1 else Owner(records, n - 1, no)
  }

  predicate InTurn(records: seq<TurnRecord>, events: seq<Event>, i: nat, no: int)
    requires i < |records|
  {
    records[i].startSeq <= no <= EndSeq(records, events, i)
  }

  lemma {:induction false} RangeMember(events: seq<Event>, lo: int, hi: int, k: nat)
    requires k < |events| && lo <= events[k].seqNo <= hi
    ensures events[k] in Range(events, lo, hi)
  {
    if k > 0 {
      RangeMember(events[1..], lo, hi, k - 1);
    }
  }

  /** In an aggregated history every event from the first start on is in exactly one turn and carries its ID. */
  lemma EveryEventInOneTurn(records: seq<TurnRecord>, events: seq<Event>, no: int)
    requires Contiguous(events) && Legal(records, events) && 1 <= no <= |events| && records[0].startSeq <= no
    ensures var i := Owner(records, |records|, no);
            && InTurn(records, events, i, no) && events[no - 1].turnId == records[i].turnId
            && events[no - 1] in TurnEvents(records, events, i)
            && forall x :: 0 <= x < |records| && InTurn(records, events, x, no) ==> x == i
  {
    var i := Owner(records, |records|, no);
    assert LegalTurn(records, events, i);
    RangeMember(events, records[i].startSeq, EndSeq(records, events, i), no - 1);
    assert Sound(events[no - 1], records[i].turnId);
    forall x | 0 <= x < i ensures !InTurn(records, events, x, no) {
      StartsOrdered(records, events, x + 1, i);
    }
  }

  /** Events before the first start are in no turn: the pass skips them silently. */
  lemma EarlyEventsInNoTurn(records: seq<TurnRecord>, events: seq<Event>, k: nat, i: nat)
    requires Contiguous(events) && Legal(records, events) && k < |events| && i < |records|
    requires k + 1 < records[0].startSeq
    ensures !InTurn(records, events, i, k + 1)
  {
    StartsOrdered(records, events, 0, i);
  }

  // ---------------------------------------------------------------------------------------
  // Appending
  // ---------------------------------------------------------------------------------------

  lemma {:induction false} MessagesConcat(a: seq<Event>, b: seq<Event>, kind: string)
    ensures Messages(a + b, kind) == Messages(a, kind) + Messages(b, kind)
  {
    if a == [] {
      assert a + b == b;
    } else {
      assert (a + b)[1..] == a[1..] + b;
      MessagesConcat(a[1..], b, kind);
    }
  }

  /** History after more events and more turns: the same turns, and the last of them only longer. */
  lemma AppendedRange(records: seq<TurnRecord>, events: seq<Event>, recs: seq<TurnRecord>, more: seq<Event>, i: nat)
    requires Contiguous(events + more) && events != [] && i < |records|
    requires Started(records) && Legal(records, events)
    requires forall k :: 0 <= k < |recs| ==> recs[k].startSeq >= |events| + 1
    ensures i + 1 < |records| ==> TurnEvents(records + recs, events + more, i) == TurnEvents(records, events, i)
                                  && EndSeq(records + recs, events + more, i) == EndSeq(records, events, i)
    ensures TurnEvents(records, events, i) <= TurnEvents(records + recs, events + more, i)
  {
    hide Range, Sound;
    assert forall k :: 0 <= k < |events| ==> (events + more)[k] == events[k];
    assert Contiguous(events);
    var lo, hi, hi' := records[i].startSeq, EndSeq(records, events, i), EndSeq(records + recs, events + more, i);
    RangeContiguous(events, lo, hi);
    RangeContiguous(events + more, lo, hi');
    StartsOrdered(records, events, i, i);
    if i + 1 < |records| {
      StartsOrdered(records, events, i, i + 1);
    }
    var a := Clamp(lo - 1, 0, |events|);
    assert events[a..Clamp(hi, a, |events|)] == (events + more)[a..Clamp(hi, a, |events|)];
  }

  /** Append stability: finished turns never change, and the last one's messages only grow. */
  lemma AppendIsStable(records: seq<TurnRecord>, events: seq<Event>, recs: seq<TurnRecord>, more: seq<Event>, i: nat)
    requires Contiguous(events + more) && Contiguous(events) && events != [] && i < |records|
    requires Started(records) && Started(records + recs)
    requires forall k :: 0 <= k < |recs| ==> recs[k].startSeq >= |events| + 1
    requires Merge(records, events, 0, 0).Ok? && Merge(records + recs, events + more, 0, 0).Ok?
    ensures var was, now := Merge(records, events, 0, 0).value, Merge(records + recs, events + more, 0, 0).value;
            && i < |was| && i < |now| && (i + 1 < |records| ==> now[i] == was[i])
            && was[i].inputs <= now[i].inputs && was[i].outputs <= now[i].outputs
  {
    hide Merge, Legal, TurnEvents, EndSeq, StateOf, ResultOf, ErrorOf, Messages, Contiguous;
    AggregationIsSummary(records, events);
    AggregationIsSummary(records + recs, events + more);
    AppendedRange(records, events, recs, more, i);
    var was, now := TurnEvents(records, events, i), TurnEvents(records + recs, events + more, i);
    assert now == was + now[|was|..];
    MessagesConcat(was, now[|was|..], "input.message");
    MessagesConcat(was, now[|was|..], "output.message");
  }

  /** On an empty log it fails: the first event can complete a turn that is not the last. */
  lemma AppendToEmptyLogCanChangeATurn(a: TurnRecord, b: TurnRecord, e: Event)
    requires a.startSeq == 1 && b.startSeq == 2 && e.seqNo == 1 && Sound(e, a.turnId) && e.kind == "turn.completed"
    ensures var was, now := Merge([a, b], [], 0, 0), Merge([a, b], [e], 0, 0);
            was.Ok? && now.Ok? && |was.value| == |now.value| == 2 && was.value[0] != now.value[0]
  {
    hide Merge, ApplyRange, ApplyEvent, Summaries, Relevant, StateOf, ResultOf, ErrorOf, Messages;
    var records := [a, b];
    assert Range([e], 1, 1) == [e] && Range([e], 2, 1) == [];
    assert LegalTurn(records, [], 0) && LegalTurn(records, [], 1);
    assert LegalTurn(records, [e], 0) && LegalTurn(records, [e], 1);
    AggregationIsSummary(records, []);
    AggregationIsSummary(records, [e]);
    DifferentState([e]);
  }

  lemma DifferentState(events: seq<Event>)
    requires |events| == 1 && events[0].kind == "turn.completed"
    ensures StateOf(events) != StateOf([])
  {
    assert LastIndex(events, 1, TERMINAL + {"input.message"}) == 0;
  }

  // ---------------------------------------------------------------------------------------
  // Exactly when appending changes no finished turn
  // ---------------------------------------------------------------------------------------

  /** More turns and events after a history, such that the whole aggregates. */
  ghost predicate Extends(records: seq<TurnRecord>, events: seq<Event>, recs: seq<TurnRecord>, more: seq<Event>) {
    && Contiguous(events + more) && Started(records + recs)
    && (forall k :: 0 <= k < |recs| ==> recs[k].startSeq >= |events| + 1)
    && Merge(records + recs, events + more, 0, 0).Ok?
  }

  /** The i-th turn is the same before and after. */
  ghost predicate SameTurn(records: seq<TurnRecord>, events: seq<Event>, recs: seq<TurnRecord>, more: seq<Event>,
                           i: nat)
  {
    var was, now := Merge(records, events, 0, 0), Merge(records + recs, events + more, 0, 0);
    was.Ok? && now.Ok? && i < |was.value| && i < |now.value| && was.value[i] == now.value[i]
  }

  /** Whatever is appended, no turn but the last changes. */
  ghost predicate FinishedTurnsStay(records: seq<TurnRecord>, events: seq<Event>) {
    forall recs, more, i: nat :: Extends(records, events, recs, more) && i + 1 < |records| ==>
      SameTurn(records, events, recs, more, i)
  }

  ghost predicate SameStarts(records: seq<TurnRecord>) {
    forall i, j :: 0 <= i < j < |records| ==> records[i].startSeq == records[j].startSeq
  }

  lemma {:induction false} EmptyRange(events: seq<Event>, lo: int, hi: int)
    requires hi < lo
    ensures Range(events, lo, hi) == []
  {
    if events != [] {
      EmptyRange(events[1..], lo, hi);
    }
  }

  /** A turn before the last whose successor starts where it does has no events, before or after. */
  lemma {:induction false} SameStartStays(records: seq<TurnRecord>, events: seq<Event>, recs: seq<TurnRecord>,
                                          more: seq<Event>, i: nat)
    requires Contiguous(events) && Started(records) && Merge(records, events, 0, 0).Ok?
    requires Extends(records, events, recs, more) && i + 1 < |records| && SameStarts(records)
    ensures SameTurn(records, events, recs, more, i)
  {
    hide Merge, Legal, Summary;
    AggregationIsSummary(records, events);
    AggregationIsSummary(records + recs, events + more);
    var lo := records[i].startSeq;
    assert records[i + 1].startSeq == lo;
    EmptyRange(events, lo, lo - 1);
    EmptyRange(events + more, lo, lo - 1);
  }

  // --- a log that completes every turn it reaches ---

  function Completion(records: seq<TurnRecord>, no: int): Event
    requires records != []
  {
    var owner := if records[0].startSeq <= no then Owner(records, |records|, no) else 0;
    Event(1, "session", "event", no, records[owner].turnId, "SDK", "turn.completed", "time", Object(map[]))
  }

  function CompletionLog(records: seq<TurnRecord>, n: nat): (log: seq<Event>)
    requires records != []
    ensures |log| == n && forall k :: 0 <= k < n ==> log[k] == Completion(records, k + 1)
  {
    if n == 0 then [] else CompletionLog(records, n - 1) + [Completion(records, n)]
  }

  lemma {:induction false} RangeOrigin(events: seq<Event>, lo: int, hi: int, e: Event)
    requires e in Range(events, lo, hi)
    ensures e in events && lo <= e.seqNo <= hi
  {
    if events != [] && e in Range(events[1..], lo, hi) {
      RangeOrigin(events[1..], lo, hi, e);
    }
  }

  /** In a log of ordered starts the owner of a number is the turn whose range it is in. */
  lemma {:induction false} OwnerInRange(records: seq<TurnRecord>, i: nat, no: int)
    requires i + 1 < |records| && records[i].startSeq <= no < records[i + 1].startSeq
    requires forall x, y :: 0 <= x < y < |records| ==> records[x].startSeq <= records[y].startSeq
    ensures records[0].startSeq <= no && Owner(records, |records|, no) == i
  {
    assert records[0].startSeq <= records[i].startSeq;
    assert forall y :: i < y < |records| ==> records[i + 1].startSeq <= records[y].startSeq;
  }

  ghost predicate OrderedStarts(records: seq<TurnRecord>) {
    forall x, y :: 0 <= x < y < |records| ==> records[x].startSeq <= records[y].startSeq
  }

  /** The completions that a turn before the last gets are its own. */
  lemma {:induction false} OwnCompletions(records: seq<TurnRecord>, n: nat, i: nat, e: Event)
    requires OrderedStarts(records) && i + 1 < |records|
    requires e in Range(CompletionLog(records, n), records[i].startSeq, records[i + 1].startSeq - 1)
    ensures Sound(e, records[i].turnId) && e.kind == "turn.completed"
  {
    hide Range, CompletionLog;
    var log := CompletionLog(records, n);
    RangeOrigin(log, records[i].startSeq, records[i + 1].startSeq - 1, e);
    var k :| 0 <= k < |log| && log[k] == e;
    assert e == Completion(records, k + 1);
    OwnerInRange(records, i, e.seqNo);
  }

  /** The completions up to the last start make a history that aggregates. */
  lemma {:induction false} CompletionsAggregate(records: seq<TurnRecord>, log: seq<Event>)
    requires Started(records) && records != [] && OrderedStarts(records)
    requires log == CompletionLog(records, records[|records| - 1].startSeq - 1)
    ensures Contiguous(log) && Legal(records, log)
  {
    hide CompletionLog, Range;
    var last := |records| - 1;
    assert forall k :: 0 <= k < |log| ==> log[k] == Completion(records, k + 1);
    forall i | 0 <= i < |records| ensures LegalTurn(records, log, i) {
      if i == last {
        EmptyRange(log, records[i].startSeq, records[i].startSeq - 1);
        assert EndSeq(records, log, i) == records[i].startSeq - 1;
      } else {
        forall e | e in TurnEvents(records, log, i) ensures Sound(e, records[i].turnId) {
          OwnCompletions(records, |log|, i, e);
        }
      }
    }
  }

  /** A non-empty run of completions completes. */
  lemma {:induction false} CompletionsComplete(events: seq<Event>)
    requires events != [] && forall e :: e in events ==> e.kind == "turn.completed"
    ensures StateOf(events) == "COMPLETED" != StateOf([])
  {
    var n := |events|;
    assert events[n - 1] in events;
    assert LastIndex(events, n, TERMINAL + {"input.message"}) == n - 1;
  }

  /** Where a turn starts before its successor, it can be completed. */
  lemma {:induction false} TurnIsCompleted(records: seq<TurnRecord>, log: seq<Event>, i: nat)
    requires Started(records) && OrderedStarts(records) && i + 1 < |records|
    requires records[i].startSeq < records[i + 1].startSeq
    requires log == CompletionLog(records, records[|records| - 1].startSeq - 1)
    ensures StateOf(TurnEvents(records, log, i)) == "COMPLETED"
  {
    hide CompletionLog, Range, StateOf;
    var own := TurnEvents(records, log, i);
    assert records[i + 1].startSeq <= records[|records| - 1].startSeq;
    var k := records[i].startSeq - 1;
    assert log[k] == Completion(records, k + 1);
    RangeMember(log, records[i].startSeq, EndSeq(records, log, i), k);
    forall e | e in own ensures e.kind == "turn.completed" {
      OwnCompletions(records, |log|, i, e);
    }
    CompletionsComplete(own);
  }

  /** So appending to the empty log changes it. */
  lemma {:induction false} EarlierStartCanChange(records: seq<TurnRecord>, i: nat)
    requires Started(records) && Merge(records, [], 0, 0).Ok?
    requires i + 1 < |records| && records[i].startSeq < records[i + 1].startSeq
    ensures !FinishedTurnsStay(records, [])
  {
    hide Merge, StateOf, Messages, ResultOf, ErrorOf, CompletionLog, Range, LegalTurn, TurnEvents, EndSeq;
    AggregationIsSummary(records, []);
    forall x, y | 0 <= x < y < |records| ensures records[x].startSeq <= records[y].startSeq {
      StartsOrdered(records, [], x, y);
    }
    var log := CompletionLog(records, records[|records| - 1].startSeq - 1);
    CompletionsAggregate(records, log);
    AggregationIsSummary(records, log);
    TurnIsCompleted(records, log, i);
    NothingHappened(records, i);
    assert [] + log == log && records + [] == records;
    assert Extends(records, [], [], log);
    assert !SameTurn(records, [], [], log, i);
  }

  lemma NothingHappened(records: seq<TurnRecord>, i: nat)
    requires i < |records|
    ensures StateOf(TurnEvents(records, [], i)) == "WORKING"
  {
    assert TurnEvents(records, [], i) == [];
    assert LastIndex([], 0, TERMINAL + {"input.message"}) == -1;
  }

  lemma {:induction false} DifferentStarts(records: seq<TurnRecord>, i: nat, j: nat) returns (k: nat)
    requires i < j < |records| && records[i].startSeq < records[j].startSeq
    ensures k + 1 < |records| && records[k].startSeq < records[k + 1].startSeq
    decreases j - i
  {
    if records[i].startSeq < records[i + 1].startSeq {
      k := i;
    } else {
      k := DifferentStarts(records, i + 1, j);
    }
  }

  /**
   Appending to a history that aggregates never changes a finished turn if and only if its log is
   not empty or all its turns start at the same event.
   */
  lemma {:induction false} FinishedTurnsStayExactly(records: seq<TurnRecord>, events: seq<Event>)
    requires Contiguous(events) && Started(records) && Merge(records, events, 0, 0).Ok?
    ensures FinishedTurnsStay(records, events) <==> events != [] || SameStarts(records)
  {
    hide Merge;
    if events != [] || SameStarts(records) {
      forall recs, more, i: nat | Extends(records, events, recs, more) && i + 1 < |records|
        ensures SameTurn(records, events, recs, more, i)
      {
        if events != [] {
          AppendIsStable(records, events, recs, more, i);
        } else {
          SameStartStays(records, events, recs, more, i);
        }
      }
    } else {
      AggregationIsSummary(records, []);
      var i, j :| 0 <= i < j < |records| && records[i].startSeq != records[j].startSeq;
      StartsOrdered(records, [], i, j);
      var k := DifferentStarts(records, i, j);
      EarlierStartCanChange(records, k);
    }
  }
}
