/**
 Pages of turns and of sessions (sessioncontext/service.go): offset tokens, the newest first, and
 what a client collects that follows the tokens over an unchanged store.
 */
module SessionPaging {
  import opened Sequences
  import opened Text
  import opened SessionHistory
  import opened SessionReading
  import opened SessionTurns

  // ---------------------------------------------------------------------------------------
  // Page tokens.  JSON and base64 are taken as an encoding that can be undone: a token is
  // absent, malformed, or holds a scope and an offset
  // ---------------------------------------------------------------------------------------

  datatype Token = NoToken | Malformed | Token(scope: string, offset: int)

  /** pageScope */
  function PageScope(functionUrn: string, resource: string, version: string, session: string): string {
    Join([functionUrn, resource, version, session], '\0')
  }

  function EncodeToken(scope: string, offset: int): Token {
    Token(scope, offset)
  }

  function DecodeToken(token: Token, scope: string, size: nat): (r: Answer<int>)
    ensures r.Success? ==> 0 <= r.value <= size
  {
    if token.NoToken? then Success(0)
    else if token.Malformed? || token.scope != scope || token.offset < 0 || token.offset > size
    then Failure(InvalidQuery)
    else Success(token.offset)
  }

  /** A token serves the query it was made for and no other, and gives the offset back. */
  lemma TokenServesItsQuery(urn: string, resource: string, version: string, session: string, offset: int,
                            urn': string, resource': string, version': string, session': string, size: nat)
    requires AllFree([urn, resource, version, session], '\0') && AllFree([urn', resource', version', session'], '\0')
    ensures var token := EncodeToken(PageScope(urn, resource, version, session), offset);
            DecodeToken(token, PageScope(urn', resource', version', session'), size) ==
              if urn == urn' && resource == resource' && version == version' && session == session'
                 && 0 <= offset <= size
              then Success(offset) else Failure(InvalidQuery)
  {
    var a, b := [urn, resource, version, session], [urn', resource', version', session'];
    if Join(a, '\0') == Join(b, '\0') {
      JoinInjective(a, b, '\0');
      assert a[0] == b[0] && a[1] == b[1] && a[2] == b[2] && a[3] == b[3];
    }
  }

  datatype ItemPage<+T> = ItemPage(items: seq<T>, next: Token)

  /** The end of ListSessions and ListTurns: the slice a token asks for and the token after it. */
  function ListPage<T>(items: seq<T>, limit: nat, token: Token, scope: string): Answer<ItemPage<T>> {
    var offset := DecodeToken(token, scope, |items|);
    if offset.Failure? then Failure(offset.failure)
    else
      var end := if offset.value + limit < |items| then offset.value + limit else |items|;
      Success(ItemPage(items[offset.value..end], if end < |items| then EncodeToken(scope, end) else NoToken))
  }

  function Offset(token: Token): int {
    if token.Token? then token.offset else 0
  }

  /** A client that follows the tokens to the end. */
  function FollowTokens<T>(items: seq<T>, limit: nat, token: Token, scope: string): Answer<seq<seq<T>>>
    requires limit >= 1
    decreases |items| - Offset(token)
  {
    var page := ListPage(items, limit, token, scope);
    if page.Failure? then Failure(page.failure)
    else if page.value.next.NoToken? then Success([page.value.items])
    else
      var rest := FollowTokens(items, limit, page.value.next, scope);
      if rest.Failure? then rest else Success([page.value.items] + rest.value)
  }

  function Flatten<T>(pages: seq<seq<T>>): seq<T> {
    if pages == [] then [] else pages[0] + Flatten(pages[1..])
  }

  /** Following tokens yields the items from the offset on, in pages that are full but for the last. */
  lemma {:induction false} TokensCoverTheItems<T>(items: seq<T>, limit: nat, token: Token, scope: string)
    requires limit >= 1 && DecodeToken(token, scope, |items|).Success?
    ensures var r := FollowTokens(items, limit, token, scope);
            && r.Success? && r.value != [] && Flatten(r.value) == items[Offset(token)..]
            && (forall i :: 0 <= i < |r.value| - 1 ==> |r.value[i]| == limit)
            && |r.value[|r.value| - 1]| <= limit
    decreases |items| - Offset(token)
  {
    var page := ListPage(items, limit, token, scope);
    var r := FollowTokens(items, limit, token, scope);
    if page.value.next.NoToken? {
      assert Flatten(r.value) == page.value.items + Flatten([]);
    } else {
      TokensCoverTheItems(items, limit, page.value.next, scope);
      var rest := FollowTokens(items, limit, page.value.next, scope).value;
      assert Flatten([page.value.items] + rest) == page.value.items + Flatten(rest);
    }
  }

  /** With a limit of zero the next token is the one just used: no progress is made. */
  lemma ZeroLimitMakesNoProgress<T>(items: seq<T>, scope: string, offset: nat)
    requires offset < |items|
    ensures ListPage(items, 0, EncodeToken(scope, offset), scope) == Success(ItemPage([], EncodeToken(scope, offset)))
  {
    assert items[offset..offset] == [];
  }

  // ---------------------------------------------------------------------------------------
  // Newest first
  // ---------------------------------------------------------------------------------------

  function Reversed<T>(s: seq<T>): (r: seq<T>)
    ensures |r| == |s| && forall i :: 0 <= i < |s| ==> r[i] == s[|s| - 1 - i]
  {
    if s == [] then [] else Reversed(s[1..]) + [s[0]]
  }

  method ReverseTurns(turns: array<Turn>)
    modifies turns
    ensures turns[..] == Reversed(old(turns[..]))
  {
    hide Reversed;
    var left, right := 0, turns.Length - 1;
    while left < right
      invariant 0 <= left && left + right == turns.Length - 1 && right >= left - 1
      invariant forall i :: 0 <= i < left ==> turns[i] == old(turns[turns.Length - 1 - i])
      invariant forall i :: right < i < turns.Length ==> turns[i] == old(turns[turns.Length - 1 - i])
      invariant forall i :: left <= i <= right ==> turns[i] == old(turns[i])
    {
      turns[left], turns[right] := turns[right], turns[left];
      left, right := left + 1, right - 1;
    }
    assert forall i :: 0 <= i < turns.Length ==> turns[i] == old(turns[turns.Length - 1 - i]);
  }

  // ---------------------------------------------------------------------------------------
  // Turns
  // ---------------------------------------------------------------------------------------

  /** The stored history aggregates. */
  ghost predicate Aggregates(turns: Turns, events: Events, session: string) {
    Readable(turns, events, session) && Legal(Records(turns, session), Log(events, session))
  }

  /** The turns of a stored history, newest first. */
  ghost function NewestFirst(turns: Turns, events: Events, session: string): (r: seq<Turn>)
    requires Readable(turns, events, session)
    ensures |r| == |Records(turns, session)|
  {
    Reversed(Summaries(Records(turns, session), Log(events, session), 0))
  }

  /** What ListTurns answers. */
  ghost function TurnsAnswer(turns: Turns, events: Events, session: string, limit: nat, token: Token, scope: string)
    : Answer<ItemPage<Turn>>
  {
    var badTurn, badEvent := FirstFailure(turns, TurnOf(session), 1), FirstFailure(events, EventOf(session), 1);
    if badTurn.Some? then Failure(badTurn.value)
    else if badEvent.Some? then Failure(badEvent.value)
    else if 1 !in turns && 1 !in events then Failure(NotFound)
    else if !Aggregates(turns, events, session) then Failure(Corrupted)
    else ListPage(NewestFirst(turns, events, session), limit, token, scope)
  }

  method ListTurns(turns: Turns, events: Events, session: string, limit: nat, token: Token, scope: string)
    returns (r: Answer<ItemPage<Turn>>)
    ensures r == TurnsAnswer(turns, events, session, limit, token, scope)
  {
    hide FirstFailure, Values, Legal, Summaries, Reversed;
    var history := ReadHistory(turns, events, session);
    if history.Failure? {
      return Failure(history.failure);
    }
    StoredHistory(turns, events, session);
    if |history.value.0| == 0 && |history.value.1| == 0 {
      return Failure(NotFound);
    }
    var aggregated := AggregateTurns(history.value.0, history.value.1);
    AggregationIsSummary(history.value.0, history.value.1);
    if aggregated.Err? {
      return Failure(Corrupted);
    }
    var list := new Turn[|aggregated.value|](i requires 0 <= i < |aggregated.value| => aggregated.value[i]);
    assert list[..] == aggregated.value;
    ReverseTurns(list);
    return ListPage(list[..], limit, token, scope);
  }

  /** A client that follows the tokens of ListTurns to the end. */
  ghost function FollowTurns(turns: Turns, events: Events, session: string, limit: nat, token: Token, scope: string)
    : Answer<seq<seq<Turn>>>
    requires limit >= 1
    decreases RunEnd(turns, 1) - Offset(token)
  {
    var page := TurnsAnswer(turns, events, session, limit, token, scope);
    if page.Failure? then Failure(page.failure)
    else if page.value.next.NoToken? then Success([page.value.items])
    else
      var rest := FollowTurns(turns, events, session, limit, page.value.next, scope);
      if rest.Failure? then rest else Success([page.value.items] + rest.value)
  }

  lemma {:induction false} FollowsTheList(turns: Turns, events: Events, session: string, limit: nat, token: Token,
                                          scope: string)
    requires limit >= 1 && Aggregates(turns, events, session) && (1 in turns || 1 in events)
    ensures FollowTurns(turns, events, session, limit, token, scope)
         == FollowTokens(NewestFirst(turns, events, session), limit, token, scope)
    decreases RunEnd(turns, 1) - Offset(token)
  {
    hide FirstFailure, Values, Legal, NewestFirst;
    var page := TurnsAnswer(turns, events, session, limit, token, scope);
    if page.Success? && !page.value.next.NoToken? {
      FollowsTheList(turns, events, session, limit, page.value.next, scope);
    }
  }

  /**
   Over an unchanged store the pages of turns are full but for the last and together are exactly
   the summaries of the stored turns, newest first.  The client fails exactly if the store cannot be
   read, has neither turn nor event, or its history does not aggregate.
   */
  lemma TurnPagesCoverTheHistory(turns: Turns, events: Events, session: string, limit: nat, scope: string)
    requires limit >= 1
    ensures var r := FollowTurns(turns, events, session, limit, NoToken, scope);
            && (r.Success? <==> Aggregates(turns, events, session) && (1 in turns || 1 in events))
            && (r.Success? ==> r.value != [] && Flatten(r.value) == NewestFirst(turns, events, session)
                               && (forall i :: 0 <= i < |r.value| - 1 ==> |r.value[i]| == limit)
                               && |r.value[|r.value| - 1]| <= limit)
  {
    hide FirstFailure, Values, Legal, NewestFirst, Flatten;
    if Aggregates(turns, events, session) && (1 in turns || 1 in events) {
      FollowsTheList(turns, events, session, limit, NoToken, scope);
      TokensCoverTheItems(NewestFirst(turns, events, session), limit, NoToken, scope);
    }
  }

  /** And each of them reads off the stored log, the newest first. */
  lemma ListedTurnsReadTheLog(turns: Turns, events: Events, session: string)
    requires Aggregates(turns, events, session)
    ensures var list, records := NewestFirst(turns, events, session), Records(turns, session);
            |list| == |records|
            && forall i :: 0 <= i < |list| ==>
                 ReadOff(list[i], records, Log(events, session), |records| - 1 - i)
  {
    hide Merge, Legal, Summaries, ReadOff, Values, FirstFailure;
    StoredHistory(turns, events, session);
    AggregationIsSummary(Records(turns, session), Log(events, session));
    TurnsReadTheLog(Records(turns, session), Log(events, session));
  }

  // ---------------------------------------------------------------------------------------
  // The order of sessions: newest first, then by ID
  // ---------------------------------------------------------------------------------------

  datatype Entry = Entry(id: string, createdAt: string, state: string)

  predicate Before(a: Entry, b: Entry) {
    if a.createdAt == b.createdAt then Less(a.id, b.id) else Less(b.createdAt, a.createdAt)
  }

  /** What sorting with this comparison leaves: no later entry belongs before an earlier one. */
  ghost predicate Ordered(s: seq<Entry>) {
    forall i, j :: 0 <= i < j < |s| ==> !Before(s[j], s[i])
  }

  ghost predicate DistinctKeys(s: seq<Entry>) {
    forall i, j :: 0 <= i < j < |s| ==> (s[i].createdAt, s[i].id) != (s[j].createdAt, s[j].id)
  }

  lemma BeforeTotal(a: Entry, b: Entry)
    ensures Before(a, b) || Before(b, a) || (a.createdAt, a.id) == (b.createdAt, b.id)
  {
    LessTotal(a.createdAt, b.createdAt);
    LessTotal(a.id, b.id);
  }

  lemma FirstIsLeast(s: seq<Entry>, x: Entry)
    requires Ordered(s) && DistinctKeys(s) && x in s
    ensures x == s[0] || Before(s[0], x)
  {
    var i :| 0 <= i < |s| && s[i] == x;
    BeforeTotal(s[0], x);
  }

  lemma BeforeAsymmetric(a: Entry, b: Entry)
    ensures Before(a, b) ==> !Before(b, a)
  {
    LessAsymmetric(a.id, b.id);
    LessAsymmetric(a.createdAt, b.createdAt);
  }

  /** However it is sorted, a registry with distinct keys has one order: pages of repeated calls fit together. */
  lemma {:induction false} SessionOrderIsUnique(a: seq<Entry>, b: seq<Entry>)
    requires Ordered(a) && Ordered(b) && DistinctKeys(a) && DistinctKeys(b) && multiset(a) == multiset(b)
    ensures a == b
    decreases |a|
  {
    hide Ordered, DistinctKeys;
    assert |a| == |multiset(a)| && |b| == |multiset(b)|;
    if a != [] {
      SameHead(a, b);
      Tail(a);
      Tail(b);
      SessionOrderIsUnique(a[1..], b[1..]);
      assert a == [a[0]] + a[1..] && b == [b[0]] + b[1..];
    }
  }

  /** What is left of a sequence without its head. */
  lemma Tail(s: seq<Entry>)
    requires s != []
    ensures multiset(s) == multiset{s[0]} + multiset(s[1..]) && multiset(s[1..]) == multiset(s) - multiset{s[0]}
    ensures Ordered(s) ==> Ordered(s[1..])
    ensures DistinctKeys(s) ==> DistinctKeys(s[1..])
  {
    assert s == [s[0]] + s[1..];
  }

  lemma SameHead(a: seq<Entry>, b: seq<Entry>)
    requires Ordered(a) && Ordered(b) && DistinctKeys(a) && DistinctKeys(b) && multiset(a) == multiset(b)
    requires a != [] && b != []
    ensures a[0] == b[0]
  {
    assert a[0] in multiset(b) && b[0] in multiset(a);
    FirstIsLeast(a, b[0]);
    FirstIsLeast(b, a[0]);
    BeforeAsymmetric(a[0], b[0]);
  }

  /** A result that sorting may have: entries with the same time and ID may come in any order. */
  ghost predicate SortOf(sorted: seq<Entry>, entries: seq<Entry>) {
    Ordered(sorted) && multiset(sorted) == multiset(entries)
  }

  /** sort.Slice with this comparison: not stable, but one fixed function of the slice. */
  ghost predicate Sorts(sort: seq<Entry> -> seq<Entry>) {
    forall s :: SortOf(sort(s), s)
  }

  /** One such function: insertion, which is what sort.Slice does to a short slice. */
  function SortEntries(s: seq<Entry>): seq<Entry> {
    if s == [] then [] else InsertEntry(SortEntries(s[1..]), s[0])
  }

  function InsertEntry(s: seq<Entry>, x: Entry): (r: seq<Entry>)
    ensures multiset(r) == multiset(s) + multiset{x}
  {
    if s == [] then [x]
    else if Before(s[0], x) then
      assert s == [s[0]] + s[1..];
      [s[0]] + InsertEntry(s[1..], x)
    else [x] + s
  }

  lemma BeforeTransitive(a: Entry, b: Entry, c: Entry)
    ensures Before(a, b) && Before(b, c) ==> Before(a, c)
    ensures !Before(b, a) && !Before(c, b) ==> !Before(c, a)
  {
    TextOrder(a.createdAt, b.createdAt, c.createdAt);
    TextOrder(a.id, b.id, c.id);
  }

  /** All that two comparisons of three strings can say. */
  lemma TextOrder(a: string, b: string, c: string)
    ensures Less(a, b) && Less(b, c) ==> Less(a, c)
    ensures Less(c, b) && Less(b, a) ==> Less(c, a)
    ensures !Less(a, a) && (a == b || Less(a, b) || Less(b, a)) && (b == c || Less(b, c) || Less(c, b))
    ensures (Less(a, b) ==> !Less(b, a)) && (Less(b, c) ==> !Less(c, b)) && (Less(a, c) ==> !Less(c, a))
  {
    if Less(a, b) && Less(b, c) {
      LessTransitive(a, b, c);
    }
    if Less(c, b) && Less(b, a) {
      LessTransitive(c, b, a);
    }
    LessIrreflexive(a);
    LessTotal(a, b);
    LessTotal(b, c);
    LessAsymmetric(a, b);
    LessAsymmetric(b, c);
    LessAsymmetric(a, c);
  }

  lemma {:induction false} InsertOrdered(s: seq<Entry>, x: Entry)
    requires Ordered(s)
    ensures Ordered(InsertEntry(s, x))
  {
    hide Before;
    var r := InsertEntry(s, x);
    if s != [] && Before(s[0], x) {
      InsertOrdered(s[1..], x);
      var rest := InsertEntry(s[1..], x);
      forall j | 0 <= j < |rest| ensures !Before(rest[j], s[0]) {
        assert rest[j] in multiset(rest);
        if rest[j] == x {
          BeforeAsymmetric(s[0], x);
        } else {
          var i :| 0 <= i < |s| - 1 && s[1..][i] == rest[j];
        }
      }
    } else if s != [] {
      forall j | 0 <= j < |s| ensures !Before(s[j], x) {
        BeforeTransitive(x, s[0], s[j]);
      }
    }
  }

  lemma {:induction false} SortSorts(s: seq<Entry>)
    ensures SortOf(SortEntries(s), s)
  {
    hide Ordered, InsertEntry, DistinctKeys;
    if s == [] {
      NothingIsOrdered();
    } else {
      SortSorts(s[1..]);
      InsertOrdered(SortEntries(s[1..]), s[0]);
      Tail(s);
    }
  }

  lemma NothingIsOrdered()
    ensures Ordered([])
  {
  }

  /** Hence there is such a function. */
  lemma SomeFunctionSorts()
    ensures Sorts(SortEntries)
  {
    hide SortOf;
    forall s ensures SortOf(SortEntries(s), s) {
      SortSorts(s);
    }
  }

  /** ListSessions, once the registered entries of the function version are loaded: it always sorts them by `sort`. */
  method ListSessions(sort: seq<Entry> -> seq<Entry>, entries: seq<Entry>, limit: nat, token: Token, scope: string)
    returns (r: Answer<ItemPage<Entry>>)
    requires Sorts(sort)
    ensures r == ListPage(sort(entries), limit, token, scope) && SortOf(sort(entries), entries)
  {
    var sorted := sort(entries);
    r := ListPage(sorted, limit, token, scope);
  }

  /**
   Over an unchanged registry the pages of sessions are full but for the last and together are the
   sorted list: every registered entry once, newest first and then by ID.
   */
  lemma SessionPagesCoverTheRegistry(sort: seq<Entry> -> seq<Entry>, entries: seq<Entry>, limit: nat, scope: string)
    requires Sorts(sort) && limit >= 1
    ensures var r := FollowTokens(sort(entries), limit, NoToken, scope);
            && r.Success? && r.value != [] && Flatten(r.value) == sort(entries)
            && Ordered(Flatten(r.value)) && multiset(Flatten(r.value)) == multiset(entries)
            && (forall i :: 0 <= i < |r.value| - 1 ==> |r.value[i]| == limit)
            && |r.value[|r.value| - 1]| <= limit
  {
    hide Ordered, Flatten, FollowTokens;
    TokensCoverTheItems(sort(entries), limit, NoToken, scope);
    assert SortOf(sort(entries), entries);
  }

  /** The list goes from the newest to the oldest, and by ID among sessions of the same time. */
  lemma NewestComeFirst(sort: seq<Entry> -> seq<Entry>, entries: seq<Entry>, i: nat, j: nat)
    requires Sorts(sort) && i < j < |sort(entries)|
    ensures var a, b := sort(entries)[i], sort(entries)[j];
            && (a.createdAt == b.createdAt || Less(b.createdAt, a.createdAt))
            && (a.createdAt == b.createdAt ==> a.id == b.id || Less(a.id, b.id))
  {
    var a, b := sort(entries)[i], sort(entries)[j];
    assert SortOf(sort(entries), entries);
    LessTotal(a.createdAt, b.createdAt);
    LessTotal(a.id, b.id);
  }

  lemma DistinctMembers(a: seq<Entry>, b: seq<Entry>)
    requires DistinctKeys(a) && multiset(a) == multiset(b)
    ensures DistinctKeys(b)
  {
    DistinctPermutation(a, b);
    forall i, j | 0 <= i < j < |b| ensures (b[i].createdAt, b[i].id) != (b[j].createdAt, b[j].id) {
      assert b[i] in multiset(a) && b[j] in multiset(a);
      assert b[i] != b[j];
    }
  }

  /** With distinct keys it does not even matter in which order the registry stores its entries. */
  lemma StoredOrderIsIrrelevant(sort: seq<Entry> -> seq<Entry>, a: seq<Entry>, b: seq<Entry>)
    requires Sorts(sort) && DistinctKeys(a) && multiset(a) == multiset(b)
    ensures sort(a) == sort(b)
  {
    hide Ordered, DistinctKeys;
    assert SortOf(sort(a), a) && SortOf(sort(b), b);
    DistinctMembers(a, sort(a));
    DistinctMembers(a, sort(b));
    SessionOrderIsUnique(sort(a), sort(b));
  }
}
