/**
 What is in an aggregated turn, read off the event log position by position and field by field, and
 which error a history gets that does not aggregate.
 */
module SessionTurns {
  import opened Sequences
  import opened SessionHistory

  /** The number of the last event of the i-th turn, in a log of events 1, 2, 3 and so on. */
  function LastNo(records: seq<TurnRecord>, events: seq<Event>, i: nat): int
    requires i < |records|
  {
    if i + 1 < |records| then records[i + 1].startSeq - 1
    else if |events| > 0 then |events|
    else records[i].startSeq - 1
  }

  /** The event at position `k` is of the `kind` and has a message. */
  predicate Carries(events: seq<Event>, k: int, kind: string) {
    && 0 <= k < |events| && events[k].kind == kind && events[k].data.Object?
    && "message" in events[k].data.fields
  }

  /** `places` are exactly the positions of the messages of a `kind` among the events `lo` to `hi`, in order. */
  ghost predicate Places(events: seq<Event>, lo: int, hi: int, kind: string, places: seq<int>) {
    && (forall x, y :: 0 <= x < y < |places| ==> places[x] < places[y])
    && (forall k :: k in places <==> Carries(events, k, kind) && lo <= k + 1 <= hi)
  }

  /** `list` is exactly the messages of a `kind` among the events numbered `lo` to `hi`, in the order of the log. */
  ghost predicate Collects(list: seq<Json>, events: seq<Event>, lo: int, hi: int, kind: string) {
    exists places :: Places(events, lo, hi, kind, places) && Reads(list, events, kind, places)
  }

  ghost predicate Reads(list: seq<Json>, events: seq<Event>, kind: string, places: seq<int>) {
    && |list| == |places|
    && forall x :: 0 <= x < |places| ==>
         Carries(events, places[x], kind) && list[x] == events[places[x]].data.fields["message"]
  }

  /** The event at `k` is the last of the events `lo` to `hi` that ends a turn. */
  ghost predicate Ends(events: seq<Event>, lo: int, hi: int, k: int) {
    && 0 <= k < |events| && lo <= k + 1 <= hi && EndKind(events[k].kind)
    && forall x :: k < x < |events| && x + 1 <= hi ==> !EndKind(events[x].kind)
  }

  predicate EndKind(kind: string) {
    kind == "turn.completed" || kind == "turn.failed" || kind == "turn.input_required"
  }

  /** The same for the events that set a turn's state. */
  ghost predicate Sets(events: seq<Event>, lo: int, hi: int, k: int) {
    && 0 <= k < |events| && lo <= k + 1 <= hi && (EndKind(events[k].kind) || events[k].kind == "input.message")
    && forall x :: k < x < |events| && x + 1 <= hi ==> !EndKind(events[x].kind) && events[x].kind != "input.message"
  }

  /** A field of the event's data, or null if it has none. */
  ghost predicate IsField(value: Json, e: Event, name: string) {
    e.data.Object? && if name in e.data.fields then value == e.data.fields[name] else value == Null
  }

  /** Result and error of a turn. */
  ghost predicate Outcome(turn: Turn, events: seq<Event>, lo: int, hi: int) {
    && ((forall k :: !Ends(events, lo, hi, k)) ==> turn.result == Null && turn.error == Null)
    && (forall k :: Ends(events, lo, hi, k) && events[k].kind == "turn.failed" ==>
          turn.result == Null && IsField(turn.error, events[k], "error"))
    && (forall k :: Ends(events, lo, hi, k) && events[k].kind != "turn.failed" ==>
          turn.error == Null && IsField(turn.result, events[k], "output"))
  }

  ghost predicate State(turn: Turn, events: seq<Event>, lo: int, hi: int) {
    && ((forall k :: !Sets(events, lo, hi, k)) ==> turn.state == "WORKING")
    && (forall k :: Sets(events, lo, hi, k) ==>
          && (events[k].kind == "input.message" ==> turn.state == "WORKING")
          && (events[k].kind == "turn.input_required" ==> turn.state == "INPUT_REQUIRED")
          && (events[k].kind == "turn.completed" ==> turn.state == "COMPLETED")
          && (events[k].kind == "turn.failed" ==> turn.state == "FAILED"))
  }

  // ---------------------------------------------------------------------------------------
  // Messages
  // ---------------------------------------------------------------------------------------

  /** The positions from `a` to `b` that carry a message. */
  function PlacesIn(events: seq<Event>, a: nat, b: nat, kind: string): (r: seq<int>)
    requires a <= b <= |events|
    ensures forall x, y :: 0 <= x < y < |r| ==> r[x] < r[y]
    ensures forall k :: k in r <==> a <= k < b && Carries(events, k, kind)
    decreases b - a
  {
    if a == b then []
    else
      var rest := PlacesIn(events, a + 1, b, kind);
      assert forall y :: 0 <= y < |rest| ==> rest[y] in rest;
      if Carries(events, a, kind) then [a as int] + rest else rest
  }

  lemma {:induction false} MessagesRead(events: seq<Event>, a: nat, b: nat, kind: string)
    requires a <= b <= |events|
    ensures Reads(Messages(events[a..b], kind), events, kind, PlacesIn(events, a, b, kind))
    decreases b - a
  {
    if a == b {
      assert events[a..b] == [];
    } else {
      assert events[a..b] == [events[a]] + events[a + 1..b];
      assert events[a..b][1..] == events[a + 1..b];
      MessagesRead(events, a + 1, b, kind);
    }
  }

  // ---------------------------------------------------------------------------------------
  // Last events
  // ---------------------------------------------------------------------------------------

  /** The last of a slice is the last of the range, or there is none in either. */
  lemma LastInSlice(events: seq<Event>, a: nat, b: nat, kinds: set<string>) returns (k: int)
    requires a <= b <= |events|
    ensures a - 1 <= k < b && (k >= a ==> events[k].kind in kinds)
    ensures LastOf(events[a..b], kinds) == if k < a then None else Some(events[k])
    ensures forall x :: (if k < a then a else k + 1) <= x < b ==> events[x].kind !in kinds
  {
    var slice := events[a..b];
    k := a + LastIndex(slice, |slice|, kinds);
    forall x | (if k < a then a else k + 1) <= x < b ensures events[x].kind !in kinds {
      assert slice[x - a] == events[x];
    }
    if k < a {
      k := a - 1;
    }
  }

  lemma OutcomeOf(turn: Turn, events: seq<Event>, lo: int, hi: int, a: nat, b: nat)
    requires a <= b <= |events| && 1 <= lo && a == Clamp(lo - 1, 0, |events|) && b == Clamp(hi, a, |events|)
    requires turn.result == ResultOf(events[a..b]) && turn.error == ErrorOf(events[a..b])
    requires forall k :: a <= k < b && EndKind(events[k].kind) ==> events[k].data.Object?
    ensures Outcome(turn, events, lo, hi)
  {
    hide LastOf;
    var last := LastInSlice(events, a, b, TERMINAL);
    forall k | Ends(events, lo, hi, k) ensures k == last {
      assert events[k].kind in TERMINAL;
    }
    if last >= a {
      assert Ends(events, lo, hi, last);
    }
  }

  lemma StateIs(turn: Turn, events: seq<Event>, lo: int, hi: int, a: nat, b: nat)
    requires a <= b <= |events| && 1 <= lo && a == Clamp(lo - 1, 0, |events|) && b == Clamp(hi, a, |events|)
    requires turn.state == StateOf(events[a..b])
    ensures State(turn, events, lo, hi)
  {
    hide LastOf;
    var last := LastInSlice(events, a, b, TERMINAL + {"input.message"});
    forall k | Sets(events, lo, hi, k) ensures k == last {
      assert events[k].kind in TERMINAL + {"input.message"};
    }
    if last >= a {
      assert Sets(events, lo, hi, last);
    }
  }

  // ---------------------------------------------------------------------------------------
  // The turns
  // ---------------------------------------------------------------------------------------

  /** A turn, as the log says. */
  ghost predicate ReadOff(turn: Turn, records: seq<TurnRecord>, events: seq<Event>, i: nat)
    requires i < |records|
  {
    var lo, hi := records[i].startSeq, LastNo(records, events, i);
    && turn.turnId == records[i].turnId && turn.turnIndex == records[i].turnIndex
    && turn.createdAt == records[i].createdAt && turn.startSeq == lo && turn.endSeq == hi
    && Collects(turn.inputs, events, lo, hi, "input.message")
    && Collects(turn.outputs, events, lo, hi, "output.message")
    && Outcome(turn, events, lo, hi) && State(turn, events, lo, hi)
  }

  lemma CollectsSlice(events: seq<Event>, lo: int, hi: int, a: nat, b: nat, kind: string)
    requires a <= b <= |events| && 1 <= lo && a == Clamp(lo - 1, 0, |events|) && b == Clamp(hi, a, |events|)
    ensures Collects(Messages(events[a..b], kind), events, lo, hi, kind)
  {
    hide Messages, PlacesIn;
    MessagesRead(events, a, b, kind);
    var places := PlacesIn(events, a, b, kind);
    assert Places(events, lo, hi, kind, places);
  }

  lemma SummaryIsReadOff(records: seq<TurnRecord>, events: seq<Event>, i: nat)
    requires Contiguous(events) && Started(records) && i < |records| && LegalTurn(records, events, i)
    ensures ReadOff(Summary(records[i], EndSeq(records, events, i), TurnEvents(records, events, i)), records, events, i)
  {
    hide Range, Messages, ResultOf, ErrorOf, StateOf, Collects, Outcome, State;
    var lo, hi := records[i].startSeq, EndSeq(records, events, i);
    RangeContiguous(events, lo, hi);
    var a := Clamp(lo - 1, 0, |events|);
    var b := Clamp(hi, a, |events|);
    var turn := Summary(records[i], hi, TurnEvents(records, events, i));
    CollectsSlice(events, lo, hi, a, b, "input.message");
    CollectsSlice(events, lo, hi, a, b, "output.message");
    forall k | a <= k < b && EndKind(events[k].kind) ensures events[k].data.Object? {
      assert events[a..b][k - a] == events[k] && events[k] in events[a..b];
      assert Sound(events[k], records[i].turnId);
    }
    OutcomeOf(turn, events, lo, hi, a, b);
    StateIs(turn, events, lo, hi, a, b);
  }

  /**
   Every turn of an aggregated history, read off the log: its inputs and outputs are the messages of its
   events, in order and no others; its last event of the kind decides result, error and state.
   */
  lemma TurnsReadTheLog(records: seq<TurnRecord>, events: seq<Event>)
    requires Contiguous(events) && Started(records) && Merge(records, events, 0, 0).Ok?
    ensures var turns := Merge(records, events, 0, 0).value;
            |turns| == |records| && forall i :: 0 <= i < |records| ==> ReadOff(turns[i], records, events, i)
  {
    hide Merge, LegalTurn, Summary, ReadOff, TurnEvents, EndSeq;
    AggregationIsSummary(records, events);
    var turns := Summaries(records, events, 0);
    forall i | 0 <= i < |records| ensures ReadOff(turns[i], records, events, i) {
      SummaryIsReadOff(records, events, i);
      assert turns[i] == Summary(records[0 + i], EndSeq(records, events, 0 + i), TurnEvents(records, events, 0 + i));
    }
  }

  // ---------------------------------------------------------------------------------------
  // The error of a history that does not aggregate
  // ---------------------------------------------------------------------------------------

  /** The event at `k` cannot be part of turn `turnId`. */
  predicate Wrong(e: Event, turnId: string) {
    || e.turnId != turnId
    || ((EndKind(e.kind) || e.kind == "input.message" || e.kind == "output.message") && e.data.NotObject?)
  }

  /** The error that the event at `k` of turn `turnId` causes. */
  ghost predicate Blames(error: Corruption, events: seq<Event>, k: nat, turnId: string) {
    && k < |events| && Wrong(events[k], turnId)
    && error == if events[k].turnId != turnId then UnexpectedTurn(k + 1) else DataNotObject(k + 1)
  }

  /** The error of the i-th turn: its range, or the first of its events that is wrong. */
  ghost predicate TurnError(error: Corruption, records: seq<TurnRecord>, events: seq<Event>, i: nat)
    requires i < |records|
  {
    var lo, hi := records[i].startSeq, LastNo(records, events, i);
    if lo > hi + 1 then error == InvalidRange(records[i].turnId)
    else
      exists k: nat :: Blames(error, events, k, records[i].turnId) && lo <= k + 1 <= hi
                       && forall x :: 0 <= x < k && lo <= x + 1 ==> !Wrong(events[x], records[i].turnId)
  }

  lemma {:induction false} RangeError(turn: Turn, events: seq<Event>, j: nat, k: nat) returns (x: nat)
    requires Contiguous(events) && j <= k <= |events| && ApplyRange(turn, events, j, k).Err?
    ensures j <= x < k && Blames(ApplyRange(turn, events, j, k).error, events, x, turn.turnId)
    ensures forall y :: j <= y < x ==> !Wrong(events[y], turn.turnId)
    decreases k - j
  {
    hide Contiguous;
    assert events[j].seqNo == j + 1 by {
      NumberOf(events, j);
    }
    if events[j].turnId != turn.turnId || ApplyEvent(turn, events[j]).Err? {
      x := j;
    } else {
      x := RangeError(ApplyEvent(turn, events[j]).value, events, j + 1, k);
    }
  }

  lemma NumberOf(events: seq<Event>, j: nat)
    requires Contiguous(events) && j < |events|
    ensures events[j].seqNo == j + 1
  {
  }

  lemma LastNoIsEndSeq(records: seq<TurnRecord>, events: seq<Event>, i: nat)
    requires Contiguous(events) && i < |records|
    ensures LastNo(records, events, i) == EndSeq(records, events, i)
  {
  }

  lemma {:induction false} ErrorFrom(records: seq<TurnRecord>, events: seq<Event>, i: nat, j: nat) returns (n: nat)
    requires Contiguous(events) && Started(records) && i <= |records| && Consumed(records, events, i, j)
    requires (i == |records| ==> j == |events|) && Merge(records, events, i, j).Err?
    ensures i <= n < |records| && (forall k :: i <= k < n ==> LegalTurn(records, events, k))
    ensures TurnError(Merge(records, events, i, j).error, records, events, n)
    decreases |records| - i
  {
    hide ApplyRange, EmptyTurn, Seek, LegalTurn, TurnError, Contiguous, EndSeq, LastNo;
    var end := EndSeq(records, events, i);
    if records[i].startSeq > end + 1 {
      n := i;
      BadRange(records, events, i);
    } else {
      OneTurn(records, events, i, j);
      var first := Seek(events, j, records[i].startSeq);
      var past := Seek(events, first, end + 1);
      var turn := ApplyRange(EmptyTurn(records[i], end), events, first, past);
      if turn.Err? {
        n := i;
        BadEvent(records, events, i, j);
      } else {
        n := ErrorFrom(records, events, i + 1, past);
      }
    }
  }

  lemma BadRange(records: seq<TurnRecord>, events: seq<Event>, i: nat)
    requires Contiguous(events) && i < |records| && records[i].startSeq > EndSeq(records, events, i) + 1
    ensures TurnError(InvalidRange(records[i].turnId), records, events, i)
  {
  }

  lemma BadEvent(records: seq<TurnRecord>, events: seq<Event>, i: nat, j: nat)
    requires Contiguous(events) && Started(records) && i < |records| && Consumed(records, events, i, j)
    requires records[i].startSeq <= EndSeq(records, events, i) + 1
    requires var end := EndSeq(records, events, i);
             var first := Seek(events, j, records[i].startSeq);
             ApplyRange(EmptyTurn(records[i], end), events, first, Seek(events, first, end + 1)).Err?
    ensures var end := EndSeq(records, events, i);
            var first := Seek(events, j, records[i].startSeq);
            TurnError(ApplyRange(EmptyTurn(records[i], end), events, first, Seek(events, first, end + 1)).error,
                      records, events, i)
  {
    hide ApplyRange, Blames, Wrong;
    var end := EndSeq(records, events, i);
    var first := Seek(events, j, records[i].startSeq);
    SeekContiguous(events, j, records[i].startSeq);
    SeekContiguous(events, first, end + 1);
    var x := RangeError(EmptyTurn(records[i], end), events, first, Seek(events, first, end + 1));
  }

  /** The pass reports the first turn that is wrong, and of it the range or the first event that is. */
  lemma FirstErrorIsReported(records: seq<TurnRecord>, events: seq<Event>)
    requires Contiguous(events) && Started(records) && Merge(records, events, 0, 0).Err?
    ensures var error := Merge(records, events, 0, 0).error;
            if records == [] then error == OutsideTurns && events != []
            else exists n: nat :: n < |records| && TurnError(error, records, events, n)
                                  && forall k :: 0 <= k < n ==> LegalTurn(records, events, k)
  {
    hide TurnError, LegalTurn;
    if records != [] {
      var n := ErrorFrom(records, events, 0, 0);
    }
  }
}
