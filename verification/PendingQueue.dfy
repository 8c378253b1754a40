/**
 Requests that wait for an instance (reqQueue in wisecloud/queue.go).  A send on a request's result
 channel is an entry of `sent`; the ghost fields remember what was accepted and how.
 */
module PendingQueue {
  import opened Sequences

  const CAPACITY := 100
  const NANOS_PER_MILLI := 1_000_000

  /** Times and durations in nanoseconds, as time.Time and time.Duration have them. */
  datatype Request = Request(id: nat, created: int, timeout: int)

  datatype Answer = TooMany | Instance(name: string) | Failed(error: string) | TimedOut

  datatype Sent = Sent(request: Request, answer: Answer)

  /** Duration.Milliseconds, which truncates towards zero. */
  function Millis(d: int): int {
    if d >= 0 then d / NANOS_PER_MILLI else -(-d / NANOS_PER_MILLI)
  }

  predicate Expired(r: Request, now: int) {
    Millis(now - r.created) > Millis(r.timeout)
  }

  /** A request expires with the first whole millisecond beyond its timeout, and only its age matters. */
  lemma ExpiresByAge(r: Request, now: int, shift: int)
    requires r.timeout >= 0
    ensures Expired(r, now) <==> now - r.created >= 1_000_000 * (r.timeout / 1_000_000 + 1)
    ensures Expired(r, now) ==> now > r.created + r.timeout
    ensures now >= r.created + r.timeout + 1_000_000 ==> Expired(r, now)
    ensures Expired(r.(created := r.created + shift), now + shift) <==> Expired(r, now)
  {
    var age, n := now - r.created, r.timeout / 1_000_000;
    assert r.timeout == 1_000_000 * n + r.timeout % 1_000_000;
    if age >= 0 {
      assert age == 1_000_000 * (age / 1_000_000) + age % 1_000_000;
    }
    assert (now + shift) - (r.created + shift) == age;
  }

  // ---------------------------------------------------------------------------------------
  // The two kinds of answers
  // ---------------------------------------------------------------------------------------

  /** The requests answered because they left the queue, in that order. */
  function Served(sent: seq<Sent>): seq<Request> {
    if sent == [] then []
    else Served(sent[..|sent| - 1]) + (if sent[|sent| - 1].answer.TooMany? then [] else [sent[|sent| - 1].request])
  }

  /** The requests answered because the queue was full when they came. */
  function Refused(sent: seq<Sent>): seq<Request> {
    if sent == [] then []
    else Refused(sent[..|sent| - 1]) + (if sent[|sent| - 1].answer.TooMany? then [sent[|sent| - 1].request] else [])
  }

  /** The accepted requests that met a full queue. */
  function Overflowed(accepted: seq<Request>, full: seq<bool>): seq<Request>
    requires |full| == |accepted|
  {
    if accepted == [] then []
    else
      var n := |accepted| - 1;
      Overflowed(accepted[..n], full[..n]) + if full[n] then [accepted[n]] else []
  }

  function Answers(sent: seq<Sent>, r: Request): nat {
    if sent == [] then 0
    else Answers(sent[..|sent| - 1], r) + if sent[|sent| - 1].request == r then 1 else 0
  }

  lemma SentSnoc(sent: seq<Sent>, s: Sent)
    ensures Served(sent + [s]) == Served(sent) + if s.answer.TooMany? then [] else [s.request]
    ensures Refused(sent + [s]) == Refused(sent) + if s.answer.TooMany? then [s.request] else []
  {
    assert (sent + [s])[..|sent|] == sent;
  }

  lemma OverflowedSnoc(accepted: seq<Request>, full: seq<bool>, r: Request, b: bool)
    requires |full| == |accepted|
    ensures Overflowed(accepted + [r], full + [b]) == Overflowed(accepted, full) + if b then [r] else []
  {
    assert (accepted + [r])[..|accepted|] == accepted && (full + [b])[..|full|] == full;
  }

  // ---------------------------------------------------------------------------------------
  // The queue
  // ---------------------------------------------------------------------------------------

  /** What was accepted is what was served and what is queued, in order; the rest of the answers are refusals. */
  ghost predicate Conserved(items: seq<Request>, sent: seq<Sent>, accepted: seq<Request>, full: seq<bool>) {
    && |full| == |accepted|
    && accepted == Served(sent) + items
    && Refused(sent) == Overflowed(accepted, full)
  }

  /** The first requests that have expired, up to the first that has not. */
  function ExpiredPrefix(items: seq<Request>, now: int): (k: nat)
    ensures k <= |items| && (forall i :: 0 <= i < k ==> Expired(items[i], now))
    ensures (k < |items| ==> !Expired(items[k], now))
  {
    if items == [] || !Expired(items[0], now) then 0 else 1 + ExpiredPrefix(items[1..], now)
  }

  /** How many requests an instance update serves: one for each instance found, until none is. */
  function Offered(offers: seq<Option<string>>): (k: nat)
    ensures k <= |offers| && (forall i :: 0 <= i < k ==> offers[i].Some?) && (k < |offers| ==> offers[k].None?)
  {
    if offers == [] || offers[0].None? then 0 else 1 + Offered(offers[1..])
  }

  class ReqQueue {
    var items: seq<Request>
    var sent: seq<Sent>
    var running: bool
    ghost var accepted: seq<Request>
    ghost var full: seq<bool>

    ghost predicate Valid()
      reads this
    {
      Conserved(items, sent, accepted, full)
    }

    constructor ()
      ensures Valid() && items == [] && sent == [] && accepted == [] && full == [] && running
    {
      items, sent, running, accepted, full := [], [], true, [], [];
    }

    method Destroy()
      modifies this`running
      ensures !running
    {
      if !running {
        return;
      }
      running := false;
    }

    /** addPendingRequest: a request that meets a full queue is answered, and queued all the same. */
    method AddPendingRequest(r: Request)
      requires Valid()
      modifies this`items, this`sent, this`accepted, this`full
      ensures Valid() && items == old(items) + [r] && accepted == old(accepted) + [r]
      ensures full == old(full) + [|old(items)| >= 100]
      ensures sent == old(sent) + if |old(items)| >= 100 then [Sent(r, TooMany)] else []
    {
      hide Served, Refused, Overflowed;
      OverflowedSnoc(accepted, full, r, |items| >= CAPACITY);
      accepted, full := accepted + [r], full + [|items| >= CAPACITY];
      if |items| >= CAPACITY {
        SentSnoc(sent, Sent(r, TooMany));
        sent := sent + [Sent(r, TooMany)];
      }
      items := items + [r];
      assert Served(sent) + items == accepted;
    }

    /** One answered request leaves the front. */
    method ServeFront(answer: Answer)
      requires Valid() && items != [] && !answer.TooMany?
      modifies this`items, this`sent
      ensures Valid() && items == old(items)[1..] && sent == old(sent) + [Sent(old(items)[0], answer)]
    {
      hide Served, Refused, Overflowed;
      SentSnoc(sent, Sent(items[0], answer));
      sent := sent + [Sent(items[0], answer)];
      items := items[1..];
      assert Served(old(sent)) + old(items) == Served(sent) + items;
    }

    /** handleInstanceUpdate: the i-th look for an instance yields offers[i], and nothing beyond. */
    method HandleInstanceUpdate(offers: seq<Option<string>>)
      requires Valid()
      modifies this`items, this`sent
      ensures Valid()
      ensures var k := if Offered(offers) <= |old(items)| then Offered(offers) else |old(items)|;
              items == old(items)[k..] && |sent| == |old(sent)| + k && old(sent) <= sent
              && forall i :: 0 <= i < k ==> sent[|old(sent)| + i] == Sent(old(items)[i], Instance(offers[i].value))
    {
      var i := 0;
      while |items| != 0
        invariant Valid() && i <= Offered(offers) && i <= |old(items)| && items == old(items)[i..]
        invariant |sent| == |old(sent)| + i && old(sent) <= sent
        invariant forall j :: 0 <= j < i ==> sent[|old(sent)| + j] == Sent(old(items)[j], Instance(offers[j].value))
        decreases |items|
      {
        if i >= |offers| || offers[i].None? {
          break;
        }
        ServeFront(Instance(offers[i].value));
        i := i + 1;
      }
    }

    /** clearQueueWithError: everybody is answered. */
    method ClearQueueWithError(error: string)
      requires Valid()
      modifies this`items, this`sent
      ensures Valid() && items == [] && |sent| == |old(sent)| + |old(items)| && old(sent) <= sent
      ensures forall i :: 0 <= i < |old(items)| ==> sent[|old(sent)| + i] == Sent(old(items)[i], Failed(error))
    {
      ghost var i := 0;
      while |items| != 0
        invariant Valid() && i <= |old(items)| && items == old(items)[i..]
        invariant |sent| == |old(sent)| + i && old(sent) <= sent
        invariant forall j :: 0 <= j < i ==> sent[|old(sent)| + j] == Sent(old(items)[j], Failed(error))
        decreases |items|
      {
        ServeFront(Failed(error));
        i := i + 1;
      }
    }

    /** checkQueueTimeout: expired requests leave until the first that has not expired. */
    method CheckQueueTimeout(now: int)
      requires Valid()
      modifies this`items, this`sent
      ensures Valid() && items == old(items)[ExpiredPrefix(old(items), now)..]
      ensures |sent| == |old(sent)| + ExpiredPrefix(old(items), now) && old(sent) <= sent
      ensures forall i :: 0 <= i < ExpiredPrefix(old(items), now) ==>
                sent[|old(sent)| + i] == Sent(old(items)[i], TimedOut)
    {
      hide Expired;
      ghost var i := 0;
      while |items| != 0
        invariant Valid() && i <= ExpiredPrefix(old(items), now) && items == old(items)[i..]
        invariant |sent| == |old(sent)| + i && old(sent) <= sent
        invariant forall j :: 0 <= j < i ==> sent[|old(sent)| + j] == Sent(old(items)[j], TimedOut)
        decreases |items|
      {
        assert items[0] == old(items)[i];
        if Expired(items[0], now) {
          ServeFront(TimedOut);
          i := i + 1;
          continue;
        }
        break;
      }
    }
  }

  // ---------------------------------------------------------------------------------------
  // What conservation means for one request
  // ---------------------------------------------------------------------------------------

  function Count(s: seq<Request>, r: Request): nat {
    if s == [] then 0 else Count(s[..|s| - 1], r) + if s[|s| - 1] == r then 1 else 0
  }

  lemma {:induction false} CountConcat(a: seq<Request>, b: seq<Request>, r: Request)
    ensures Count(a + b, r) == Count(a, r) + Count(b, r)
    decreases |b|
  {
    if b == [] {
      assert a + b == a;
    } else {
      assert (a + b)[..|a + b| - 1] == a + b[..|b| - 1];
      CountConcat(a, b[..|b| - 1], r);
    }
  }

  /** Answers are servings and refusals. */
  lemma {:induction false} AnswersSplit(sent: seq<Sent>, r: Request)
    ensures Answers(sent, r) == Count(Served(sent), r) + Count(Refused(sent), r)
  {
    if sent != [] {
      var init, last := sent[..|sent| - 1], sent[|sent| - 1];
      AnswersSplit(init, r);
      CountConcat(Served(init), [last.request], r);
      CountConcat(Refused(init), [last.request], r);
      assert Served(init) + [] == Served(init) && Refused(init) + [] == Refused(init);
      assert [last.request][..0] == [];
    }
  }

  lemma {:induction false} CountDistinct(s: seq<Request>, r: Request)
    requires Distinct(s)
    ensures Count(s, r) == if r in s then 1 else 0
  {
    if s != [] {
      CountDistinct(s[..|s| - 1], r);
      assert s == s[..|s| - 1] + [s[|s| - 1]];
    }
  }

  lemma {:induction false} OverflowedCount(accepted: seq<Request>, full: seq<bool>, k: nat)
    requires Distinct(accepted) && |full| == |accepted| && k < |accepted|
    ensures Count(Overflowed(accepted, full), accepted[k]) == if full[k] then 1 else 0
  {
    var n := |accepted| - 1;
    var init := Overflowed(accepted[..n], full[..n]);
    CountConcat(init, [accepted[n]], accepted[k]);
    assert [accepted[n]][..0] == [];
    assert init + [] == init;
    if k < n {
      OverflowedCount(accepted[..n], full[..n], k);
    } else {
      OverflowedMembers(accepted[..n], full[..n]);
      CountAbsent(init, accepted[n]);
    }
  }

  lemma {:induction false} OverflowedMembers(accepted: seq<Request>, full: seq<bool>)
    requires |full| == |accepted|
    ensures forall x :: x in Overflowed(accepted, full) ==> x in accepted
  {
    if accepted != [] {
      OverflowedMembers(accepted[..|accepted| - 1], full[..|accepted| - 1]);
    }
  }

  lemma {:induction false} CountAbsent(s: seq<Request>, r: Request)
    requires r !in s
    ensures Count(s, r) == 0
  {
    if s != [] {
      CountAbsent(s[..|s| - 1], r);
    }
  }

  /**
   In every state the k-th accepted request has one answer if it has left the queue and one more
   if it met a full queue: nobody is answered twice exactly if no request that left had overflowed.
   */
  lemma EachIsAnsweredOnceButForOverflow(items: seq<Request>, sent: seq<Sent>, accepted: seq<Request>,
                                         full: seq<bool>, k: nat)
    requires Conserved(items, sent, accepted, full) && Distinct(accepted) && k < |accepted|
    ensures Answers(sent, accepted[k]) == (if k < |accepted| - |items| then 1 else 0) + if full[k] then 1 else 0
  {
    hide Served, Refused, Overflowed, Count, Answers;
    AnswersSplit(sent, accepted[k]);
    OverflowedCount(accepted, full, k);
    var served := Served(sent);
    assert served == accepted[..|served|];
    CountDistinct(served, accepted[k]);
    assert accepted[k] in served <==> k < |served|;
  }

  lemma {:induction false} NoOverflow(accepted: seq<Request>, full: seq<bool>)
    requires |full| == |accepted|
    ensures Overflowed(accepted, full) == [] <==> forall k :: 0 <= k < |full| ==> !full[k]
  {
    if accepted != [] {
      var n := |accepted| - 1;
      NoOverflow(accepted[..n], full[..n]);
      assert forall k :: 0 <= k < n ==> full[..n][k] == full[k];
    }
  }

  lemma {:induction false} NoRefusal(sent: seq<Sent>)
    requires Refused(sent) == []
    ensures |Served(sent)| == |sent| && forall i :: 0 <= i < |sent| ==> Served(sent)[i] == sent[i].request
  {
    if sent != [] {
      NoRefusal(sent[..|sent| - 1]);
    }
  }

  /** If nobody met a full queue, the answers are those of the first accepted requests, one each and in order. */
  lemma AnswersAreFifo(items: seq<Request>, sent: seq<Sent>, accepted: seq<Request>, full: seq<bool>)
    requires Conserved(items, sent, accepted, full) && forall k :: 0 <= k < |full| ==> !full[k]
    ensures |sent| + |items| == |accepted|
    ensures forall i :: 0 <= i < |sent| ==> sent[i].request == accepted[i]
  {
    hide Served, Refused, Overflowed;
    NoOverflow(accepted, full);
    NoRefusal(sent);
  }

  // ---------------------------------------------------------------------------------------
  // What a timeout check leaves
  // ---------------------------------------------------------------------------------------

  /** Whoever has expired, everybody before has too. */
  ghost predicate ExpiredInFront(items: seq<Request>, now: int) {
    forall i, j :: 0 <= i < j < |items| && Expired(items[j], now) ==> Expired(items[i], now)
  }

  /** A check leaves no expired request exactly if the expired ones were in front. */
  lemma TimeoutCheckIsComplete(items: seq<Request>, now: int)
    ensures (forall r :: r in items[ExpiredPrefix(items, now)..] ==> !Expired(r, now)) <==> ExpiredInFront(items, now)
  {
    hide Expired, ExpiredPrefix;
    var k := ExpiredPrefix(items, now);
    var left := items[k..];
    forall j | k <= j < |items| ensures items[j] in left {
      assert items[j] == left[j - k];
    }
    if ExpiredInFront(items, now) {
      forall r | r in left ensures !Expired(r, now) {
        var j :| 0 <= j < |left| && left[j] == r;
        assert r == items[k + j] && !Expired(items[k], now);
      }
    }
    if forall r :: r in left ==> !Expired(r, now) {
      forall i, j | 0 <= i < j < |items| && Expired(items[j], now) ensures Expired(items[i], now) {
        assert j < k;
      }
    }
  }

  /** A request that has not expired shields every expired one behind it. */
  lemma ExpiredSurvivesBehind(front: Request, behind: Request, now: int)
    requires !Expired(front, now) && Expired(behind, now)
    ensures behind in [front, behind][ExpiredPrefix([front, behind], now)..]
  {
    hide Expired;
    assert ExpiredPrefix([front, behind], now) == 0;
    assert [front, behind][0..][1] == behind;
  }

  /** So it can be even if requests are queued in order of creation: the older one has the longer timeout. */
  lemma ExpiredRequestCanSurvive()
    ensures exists items: seq<Request>, now :: |items| == 2 && items[0].created <= items[1].created
              && items[1] in items[ExpiredPrefix(items, now)..] && Expired(items[1], now)
  {
    var front := Request(0, 0, 60_000 * NANOS_PER_MILLI);
    var behind := Request(1, 0, 1_000 * NANOS_PER_MILLI);
    var now := 2_000 * NANOS_PER_MILLI;
    assert Millis(now) == 2_000 && Millis(front.timeout) == 60_000 && Millis(behind.timeout) == 1_000;
    ExpiredSurvivesBehind(front, behind, now);
    assert [front, behind][1] == behind && [front, behind][0] == front;
  }

  /** That is so if the timeouts are equal and the requests queued in the order of creation. */
  lemma CreationOrderSuffices(items: seq<Request>, now: int)
    requires forall i, j :: 0 <= i < j < |items| ==>
               items[i].timeout == items[j].timeout && items[i].created <= items[j].created
    ensures ExpiredInFront(items, now)
  {
    forall i, j | 0 <= i < j < |items| && Expired(items[j], now) ensures Expired(items[i], now) {
      MillisMonotone(now - items[j].created, now - items[i].created);
    }
  }

  lemma MillisMonotone(a: int, b: int)
    requires a <= b
    ensures Millis(a) <= Millis(b)
  {
  }
}
