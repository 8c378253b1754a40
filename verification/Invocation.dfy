/**
 The retry loop of an invocation (invocation/function_invoke_for_kernel.go).  What one round meets
 (clock, ring, scheduler, instance cache, reply) is an Attempt; the loop runs over any sequence
 of them and leaves a trace of what it acquired, sent and released.
 */
module Invocation {
  import opened Sequences

  datatype Ring = Blue | Green

  datatype Acquired = Allocation(id: nat, instance: string) | NoAllocation | AllUnavailable | AcquireFailed

  datatype Reply = Success | DirectError(code: int, retryable: bool) | Failure(code: int)

  datatype Attempt = Attempt(
    elapsed: nat,                  // whole seconds since the request began
    ring: Option<Ring>,            // none if the session header cannot be parsed
    legacy: bool,                  // schedulers are reached through the runtime library
    schedulerFound: bool,          // legacy: the proxy manager named a scheduler
    schedulersEmpty: bool,         // legacy: no scheduler instance exists
    acquired: Acquired,
    chosen: Option<string>,        // what chooseInstance would return
    convertible: bool,
    reply: Reply)

  datatype Action =
    | Acquire(ring: Ring, id: nat, instance: string)
    | Downgrade
    | Send(count: nat, timeout: int, instance: string, allocation: Option<nat>, reply: Reply)
    | Release(ring: Ring, id: nat, abnormal: bool)

  datatype Verdict = Running | Finished | TimedOut | RingFailed | MakeFailed | Errored(code: int, retryOutside: bool)

  /** The mutable part of kernelRequestHandler and its context. */
  datatype Handler = Handler(timeout: int, downgrade: bool, held: Option<nat>, unexpected: seq<string>,
                             legacyScheduler: bool, count: nat)

  const TRAFFIC_LIMIT := 6037
  const INTERNAL_ERROR := 200500
  const ALL_SCHEDULERS_UNAVAILABLE := 9009

  predicate NeedRetry(code: int) {
    code in {1003, 1007, 1009, 1013, 3001, 3002, 3008, 4202, 4203, 4204, 9000}
  }

  predicate Fatal(code: int) {
    code in {1003, 1007, 1013, 2002}
  }

  predicate Abnormal(reply: Reply) {
    !reply.Success? && Fatal(reply.code)
  }

  // ---------------------------------------------------------------------------------------
  // One round
  // ---------------------------------------------------------------------------------------

  /** makeReqCompatible: the handler after it, what it did, and the target if it succeeded. */
  function Make(h: Handler, ring: Ring, a: Attempt): (Handler, seq<Action>, Option<string>) {
    if a.legacy then
      var h1 := h.(legacyScheduler := !h.downgrade && a.schedulerFound);
      if h.downgrade || !h1.legacyScheduler || a.schedulersEmpty
      then Choose(h1, a) else Convert(h1, a, [], "")
    else if h.downgrade then Choose(h, a)
    else match a.acquired
      case AcquireFailed => (h, [], None)
      case AllUnavailable => Choose(h, a)
      case NoAllocation => Convert(h, a, [], "")
      case Allocation(id, instance) => Convert(h.(held := Some(id)), a, [Acquire(ring, id, instance)], instance)
  }

  /** The lease-free way: the handler is downgraded and an instance is chosen directly. */
  function Choose(h: Handler, a: Attempt): (Handler, seq<Action>, Option<string>) {
    var h' := h.(downgrade := true);
    if a.chosen.None? then (h', [Downgrade], None) else Convert(h', a, [Downgrade], a.chosen.value)
  }

  function Convert(h: Handler, a: Attempt, acts: seq<Action>, instance: string): (Handler, seq<Action>,
                                                                                  Option<string>) {
    (h, acts, if a.convertible then Some(instance) else None)
  }

  /** handleInvokeError */
  function Judge(h: Handler, reply: Reply, instance: string): (Handler, seq<Action>, Verdict) {
    match reply
    case Success => (h, [], Finished)
    case DirectError(code, retryable) => (h, [], Errored(code, retryable))
    case Failure(code) =>
      if code == TRAFFIC_LIMIT && h.legacyScheduler then (h, [], Running)
      else if code == INTERNAL_ERROR then (h, [], Errored(code, false))
      else if code == ALL_SCHEDULERS_UNAVAILABLE then (h.(downgrade := true), [Downgrade], Running)
      else if NeedRetry(code) then
        (h.(unexpected := if instance == "" then h.unexpected else h.unexpected + [instance]), [], Running)
      else (h, [], Errored(code, false))
  }

  function ReleaseHeld(h: Handler, ring: Ring, reply: Reply): seq<Action> {
    if h.held.Some? then [Release(ring, h.held.value, Abnormal(reply))] else []
  }

  /** One round of the loop. */
  function Round(h: Handler, a: Attempt): (Handler, seq<Action>, Verdict) {
    var h0 := h.(count := h.count + 1, timeout := h.timeout - a.elapsed);
    if h0.timeout <= 0 then (h0, [], TimedOut)
    else if a.ring.None? then (h0, [], RingFailed)
    else
      var (h1, made, target) := Make(h0, a.ring.value, a);
      if target.None? then (h1, made, MakeFailed)
      else
        var sent := [Send(h1.count, h1.timeout, target.value, h1.held, a.reply)];
        var (h2, judged, verdict) := Judge(h1.(held := None), a.reply, target.value);
        (h2, made + sent + ReleaseHeld(h1, a.ring.value, a.reply) + judged, verdict)
  }

  function Run(h: Handler, attempts: seq<Attempt>): (Handler, seq<Action>, Verdict)
    decreases |attempts|
  {
    if attempts == [] then (h, [], Running)
    else
      var (h1, acts, verdict) := Round(h, attempts[0]);
      if !verdict.Running? then (h1, acts, verdict)
      else
        var (h2, more, last) := Run(h1, attempts[1..]);
        (h2, acts + more, last)
  }

  // ---------------------------------------------------------------------------------------
  // The handler object
  // ---------------------------------------------------------------------------------------

  class KernelRequestHandler {
    var invokeTimeout: int
    var downgrade: bool
    var allocation: Option<nat>
    var unexpectedInstances: seq<string>
    var legacyScheduler: bool
    var count: nat

    function View(): Handler
      reads this
    {
      Handler(invokeTimeout, downgrade, allocation, unexpectedInstances, legacyScheduler, count)
    }

    constructor (timeout: int, withoutScheduler: bool)
      ensures View() == Handler(timeout, withoutScheduler, None, [], false, 0)
    {
      invokeTimeout, downgrade, allocation, unexpectedInstances := timeout, withoutScheduler, None, [];
      legacyScheduler, count := false, 0;
    }

    method MakeReq(ring: Ring, a: Attempt) returns (made: seq<Action>, target: Option<string>)
      modifies this
      ensures (View(), made, target) == Make(old(View()), ring, a)
      ensures target.Some? && Direct(old(View()), a) ==> target == a.chosen
      ensures target.Some? && !Direct(old(View()), a) ==>
                target.value == if Leased(old(View()), a).Some? then Leased(old(View()), a).value.1 else ""
    {
      made := [];
      var instance := "";
      var choose := false;
      if a.legacy {
        legacyScheduler := false;
        if !downgrade {
          legacyScheduler := a.schedulerFound;
        }
        choose := downgrade || !legacyScheduler || a.schedulersEmpty;
      } else if !downgrade {
        if a.acquired.AcquireFailed? {
          return made, None;
        } else if a.acquired.AllUnavailable? {
          choose := true;
        } else if a.acquired.Allocation? {
          allocation := Some(a.acquired.id);
          instance := a.acquired.instance;
          made := [Acquire(ring, a.acquired.id, instance)];
        }
      } else {
        choose := true;
      }
      if choose {
        downgrade := true;
        made := [Downgrade];
        if a.chosen.None? {
          return made, None;
        }
        instance := a.chosen.value;
      }
      if !a.convertible {
        return made, None;
      }
      return made, Some(instance);
    }

    method HandleInvokeError(reply: Reply, instance: string) returns (acts: seq<Action>, verdict: Verdict)
      modifies this
      ensures (View(), acts, verdict) == Judge(old(View()), reply, instance)
    {
      if reply.Success? {
        return [], Finished;
      }
      if reply.DirectError? {
        return [], Errored(reply.code, reply.retryable);
      }
      if reply.code == TRAFFIC_LIMIT && legacyScheduler {
        return [], Running;
      } else if reply.code == INTERNAL_ERROR {
        return [], Errored(reply.code, false);
      } else if reply.code == ALL_SCHEDULERS_UNAVAILABLE {
        downgrade := true;
        return [Downgrade], Running;
      } else if NeedRetry(reply.code) {
        if instance != "" {
          unexpectedInstances := unexpectedInstances + [instance];
        }
        return [], Running;
      }
      return [], Errored(reply.code, false);
    }

    /** The body of the loop. */
    method OneRound(a: Attempt) returns (acts: seq<Action>, verdict: Verdict)
      modifies this
      ensures (View(), acts, verdict) == Round(old(View()), a)
    {
      hide Make, Judge;
      count := count + 1;
      invokeTimeout := invokeTimeout - a.elapsed;
      if invokeTimeout <= 0 {
        return [], TimedOut;
      }
      if a.ring.None? {
        return [], RingFailed;
      }
      var made, target := MakeReq(a.ring.value, a);
      if target.None? {
        return made, MakeFailed;
      }
      acts := made + [Send(count, invokeTimeout, target.value, allocation, a.reply)];
      if allocation.Some? {
        acts := acts + [Release(a.ring.value, allocation.value, Abnormal(a.reply))];
        allocation := None;
      } else {
        assert acts + [] == acts;
      }
      var judged;
      judged, verdict := HandleInvokeError(a.reply, target.value);
      acts := acts + judged;
    }

    method Invoke(attempts: seq<Attempt>) returns (trace: seq<Action>, verdict: Verdict)
      modifies this
      ensures (View(), trace, verdict) == Run(old(View()), attempts)
    {
      hide Round, Run;
      trace, verdict := [], Running;
      assert attempts[0..] == attempts;
      BehindNothing(Run(View(), attempts));
      for i := 0 to |attempts|
        invariant verdict == Running
        invariant Run(old(View()), attempts) == Behind(trace, Run(View(), attempts[i..]))
      {
        RunOne(View(), attempts, i, trace);
        var acts;
        acts, verdict := OneRound(attempts[i]);
        trace := trace + acts;
        if !verdict.Running? {
          return;
        }
      }
      RunNone(View(), attempts, trace);
    }
  }

  lemma BehindNothing(r: (Handler, seq<Action>, Verdict))
    ensures Behind([], r) == r
  {
    assert [] + r.1 == r.1;
  }

  lemma RunNone(h: Handler, attempts: seq<Attempt>, done: seq<Action>)
    ensures Behind(done, Run(h, attempts[|attempts|..])) == (h, done, Running)
  {
    assert done + [] == done;
  }

  ghost function Behind(acts: seq<Action>, r: (Handler, seq<Action>, Verdict)): (Handler, seq<Action>, Verdict) {
    (r.0, acts + r.1, r.2)
  }

  lemma RunOne(h: Handler, attempts: seq<Attempt>, i: nat, done: seq<Action>)
    requires i < |attempts|
    ensures var (h1, acts, verdict) := Round(h, attempts[i]);
            Behind(done, Run(h, attempts[i..])) ==
              if verdict.Running? then Behind(done + acts, Run(h1, attempts[i + 1..])) else (h1, done + acts, verdict)
  {
    hide Round;
    var (h1, acts, verdict) := Round(h, attempts[i]);
    assert attempts[i..][1..] == attempts[i + 1..];
    assert done + (acts + Run(h1, attempts[i + 1..]).1) == done + acts + Run(h1, attempts[i + 1..]).1;
  }

  // ---------------------------------------------------------------------------------------
  // Allocations are paired
  // ---------------------------------------------------------------------------------------

  /** A reply that says the instance is gone, exited or evicted, or that the user's function failed. */
  predicate Broken(reply: Reply) {
    !reply.Success? && (reply.code == 1003 || reply.code == 1007 || reply.code == 1013 || reply.code == 2002)
  }

  /** The action sent at `i` used the allocation acquired just before, and it is given back just after. */
  ghost predicate PairedAt(trace: seq<Action>, i: nat)
    requires i < |trace|
  {
    match trace[i]
    case Send(_, _, instance, allocation, reply) =>
      allocation.Some? ==>
        && 0 < i < |trace| - 1 && trace[i - 1].Acquire? && trace[i - 1].id == allocation.value
        && trace[i - 1].instance == instance
        && trace[i + 1] == Release(trace[i - 1].ring, allocation.value, Broken(reply))
    case Release(_, id, _) => i > 0 && trace[i - 1].Send? && trace[i - 1].allocation == Some(id)
    case Acquire(_, id, _) => i + 1 < |trace| ==> trace[i + 1].Send? && trace[i + 1].allocation == Some(id)
    case Downgrade => true
  }

  ghost predicate Paired(trace: seq<Action>) {
    forall i :: 0 <= i < |trace| ==> PairedAt(trace, i)
  }

  /** The trace ends in an acquisition that nothing follows. */
  predicate Dangling(trace: seq<Action>) {
    trace != [] && trace[|trace| - 1].Acquire?
  }

  lemma PairedConcat(a: seq<Action>, b: seq<Action>)
    requires Paired(a) && Paired(b) && !Dangling(a)
    ensures Paired(a + b) && (b != [] ==> (Dangling(a + b) <==> Dangling(b)))
  {
    var t := a + b;
    forall i | 0 <= i < |t| ensures PairedAt(t, i) {
      if i < |a| {
        assert PairedAt(a, i);
      } else {
        assert PairedAt(b, i - |a|) && t[i] == b[i - |a|];
      }
    }
  }

  /** An allocation that is acquired but never sent: the request could not be converted. */
  predicate Leaks(h: Handler, a: Attempt) {
    && h.timeout - a.elapsed > 0 && a.ring.Some? && !a.legacy && !h.downgrade
    && a.acquired.Allocation? && !a.convertible
  }

  /** The rest of a round that begins with an acquisition, or with a downgrade or nothing. */
  lemma MakeShape(h: Handler, ring: Ring, a: Attempt)
    requires h.held == None
    ensures var (h1, made, target) := Make(h, ring, a);
            if !a.legacy && !h.downgrade && a.acquired.Allocation?
            then h1.held == Some(a.acquired.id) && made == [Acquire(ring, a.acquired.id, a.acquired.instance)]
                 && target == if a.convertible then Some(a.acquired.instance) else None
            else h1.held == None && (made == [] || made == [Downgrade])
  {
  }

  lemma JudgeShape(h: Handler, reply: Reply, instance: string)
    ensures var (h1, judged, verdict) := Judge(h, reply, instance);
            h1.held == h.held && (judged == [] || judged == [Downgrade])
  {
  }

  lemma RoundPaired(h: Handler, a: Attempt)
    requires h.held == None
    ensures var (h', acts, verdict) := Round(h, a);
            && Paired(acts) && (Dangling(acts) <==> Leaks(h, a))
            && (h'.held == None <==> !Leaks(h, a)) && (Leaks(h, a) ==> verdict == MakeFailed)
  {
    hide Make, Judge;
    var h0 := h.(count := h.count + 1, timeout := h.timeout - a.elapsed);
    if h0.timeout > 0 && a.ring.Some? {
      MakeShape(h0, a.ring.value, a);
      var (h1, made, target) := Make(h0, a.ring.value, a);
      if target.Some? {
        JudgeShape(h1.(held := None), a.reply, target.value);
        var acts := Round(h, a).1;
        assert |acts| <= 4;
      }
    }
  }

  /**
   In every run each allocation that reaches dispatch is released once, by the ring it came from,
   right after the reply and as abnormal exactly for a fatal one; the run ends with an allocation
   in hand exactly if its last round leaks one.
   */
  lemma {:induction false} AllocationsArePaired(h: Handler, attempts: seq<Attempt>)
    requires h.held == None
    ensures var (h', trace, verdict) := Run(h, attempts);
            && Paired(trace) && (Dangling(trace) <==> h'.held.Some?)
            && (h'.held.Some? ==> verdict == MakeFailed)
    decreases |attempts|
  {
    hide Round, PairedAt;
    if attempts != [] {
      RoundPaired(h, attempts[0]);
      var (h1, acts, verdict) := Round(h, attempts[0]);
      if verdict.Running? {
        AllocationsArePaired(h1, attempts[1..]);
        PairedConcat(acts, Run(h1, attempts[1..]).1);
      }
    }
  }

  // ---------------------------------------------------------------------------------------
  // When a round is followed by another
  // ---------------------------------------------------------------------------------------

  /** The codes that blame the instance and say to try another. */
  predicate BlamesInstance(reply: Reply) {
    reply.Failure?
    && (reply.code == 1003 || reply.code == 1007 || reply.code == 1009 || reply.code == 1013 || reply.code == 3001
        || reply.code == 3002 || reply.code == 3008 || reply.code == 4202 || reply.code == 4203
        || reply.code == 4204 || reply.code == 9000)
  }

  /** What a reply leaves to be tried again: 9009 is that no scheduler is available, 6037 a traffic limit. */
  predicate Retryable(reply: Reply, legacyScheduler: bool) {
    reply.Failure? && (BlamesInstance(reply) || reply.code == 9009 || (reply.code == 6037 && legacyScheduler))
  }

  /** Another round follows exactly if the request was sent and the reply can be retried. */
  lemma RetriesExactly(h: Handler, a: Attempt)
    ensures var (h', acts, verdict) := Round(h, a);
            && (verdict.Running? <==>
                exists i :: 0 <= i < |acts| && acts[i].Send? && Retryable(a.reply, h'.legacyScheduler))
            && (verdict.Finished? <==> exists i :: 0 <= i < |acts| && acts[i].Send? && a.reply.Success?)
  {
    SentIn(h, a);
  }

  /** A round sends once or not at all, and what it sends is what it was asked to. */
  lemma SentIn(h: Handler, a: Attempt)
    ensures var (h', acts, verdict) := Round(h, a);
            verdict.Running? || verdict.Finished? || verdict.Errored? <==> exists i :: 0 <= i < |acts| && acts[i].Send?
  {
    var h0 := h.(count := h.count + 1, timeout := h.timeout - a.elapsed);
    var (h', acts, verdict) := Round(h, a);
    if h0.timeout > 0 && a.ring.Some? {
      var (h1, made, target) := Make(h0, a.ring.value, a);
      assert forall i :: 0 <= i < |made| ==> !made[i].Send?;
      if target.Some? {
        assert acts[|made|].Send?;
      }
    }
  }

  // ---------------------------------------------------------------------------------------
  // What is sent, and to whom
  // ---------------------------------------------------------------------------------------

  /** The round goes without a lease: it was downgraded, or no scheduler can be had. */
  predicate Direct(h: Handler, a: Attempt) {
    h.downgrade || (if a.legacy then !a.schedulerFound || a.schedulersEmpty else a.acquired.AllUnavailable?)
  }

  /** The round reaches the making of a request. */
  predicate Starts(h: Handler, a: Attempt) {
    h.timeout - a.elapsed > 0 && a.ring.Some?
  }

  /** The round sends. */
  predicate Sends(h: Handler, a: Attempt) {
    Starts(h, a) && a.convertible && if Direct(h, a) then a.chosen.Some? else a.legacy || !a.acquired.AcquireFailed?
  }

  /** The allocation the round works with. */
  function Leased(h: Handler, a: Attempt): Option<(nat, string)> {
    if !a.legacy && !h.downgrade && a.acquired.Allocation? then Some((a.acquired.id, a.acquired.instance)) else None
  }

  /** The instance a round sends to: the chosen one without a lease, the allocated one with it, else the scheduler's. */
  function Target(h: Handler, a: Attempt): string
    requires Sends(h, a)
  {
    if Direct(h, a) then a.chosen.value else if Leased(h, a).Some? then Leased(h, a).value.1 else ""
  }

  ghost predicate SentAs(h: Handler, a: Attempt, act: Action) {
    && Sends(h, a)
    && act == Send(h.count + 1, h.timeout - a.elapsed, Target(h, a),
                   if Leased(h, a).Some? then Some(Leased(h, a).value.0) else None, a.reply)
  }

  lemma MakeTarget(h: Handler, ring: Ring, a: Attempt)
    requires h.held == None && h.timeout > 0 && a.ring == Some(ring)
    ensures var (h1, made, target) := Make(h, ring, a); var a0 := a.(elapsed := 0);
            && (target.Some? <==> Sends(h, a0)) && (target.Some? ==> target.value == Target(h, a0))
            && h1.held == (if Leased(h, a).Some? then Some(Leased(h, a).value.0) else None)
            && h1.downgrade == (h.downgrade || Direct(h, a))
            && h1.legacyScheduler == (if a.legacy then !h.downgrade && a.schedulerFound else h.legacyScheduler)
            && h1.count == h.count && h1.timeout == h.timeout && h1.unexpected == h.unexpected
            && forall i :: 0 <= i < |made| ==> !made[i].Send?
  {
  }

  lemma JudgeMemory(h: Handler, reply: Reply, instance: string)
    ensures var (h1, judged, verdict) := Judge(h, reply, instance);
            && h1.unexpected == h.unexpected + (if BlamesInstance(reply) && instance != "" then [instance] else [])
            && h1.downgrade == (h.downgrade || reply == Failure(9009)) && h1.legacyScheduler == h.legacyScheduler
            && forall i :: 0 <= i < |judged| ==> !judged[i].Send?
  {
    assert h.unexpected + [] == h.unexpected;
  }

  /**
   A round sends exactly under its condition, once and to its target, with the allocation it acquired; it
   excludes exactly the instance it sent to if the reply blames it, and is downgraded exactly if it went
   without a lease or the reply says that no scheduler is available.
   */
  lemma RoundSends(h: Handler, a: Attempt)
    requires h.held == None
    ensures var (h', acts, verdict) := Round(h, a);
            && ((exists i :: 0 <= i < |acts| && acts[i].Send?) <==> Sends(h, a))
            && (forall i :: 0 <= i < |acts| && acts[i].Send? ==> SentAs(h, a, acts[i]))
            && (forall i, j :: 0 <= i < j < |acts| && acts[i].Send? ==> !acts[j].Send?)
            && h'.unexpected == h.unexpected + Excluded(h, a)
            && h'.downgrade == (h.downgrade || (Starts(h, a) && Direct(h, a))
                                || (Sends(h, a) && a.reply == Failure(9009)))
            && h'.legacyScheduler == (if Starts(h, a) && a.legacy then !h.downgrade && a.schedulerFound
                                      else h.legacyScheduler)
  {
    hide Make, Judge, Direct;
    var h0 := h.(count := h.count + 1, timeout := h.timeout - a.elapsed);
    assert h.unexpected + [] == h.unexpected;
    if Starts(h, a) {
      MakeTarget(h0, a.ring.value, a);
      SameCase(h, h0, a);
      var (h1, made, target) := Make(h0, a.ring.value, a);
      if target.Some? {
        JudgeMemory(h1.(held := None), a.reply, target.value);
        var released := ReleaseHeld(h1, a.ring.value, a.reply);
        assert |released| <= 1 && forall i :: 0 <= i < |released| ==> !released[i].Send?;
        var acts := Round(h, a).1;
        assert acts[|made|].Send?;
      }
    }
  }

  /** A round acquires exactly the allocation it works with, from the ring it was given. */
  lemma RoundAcquires(h: Handler, a: Attempt)
    requires h.held == None
    ensures var acts := Round(h, a).1;
            && ((exists i :: 0 <= i < |acts| && acts[i].Acquire?) <==> Starts(h, a) && Leased(h, a).Some?)
            && forall i :: 0 <= i < |acts| && acts[i].Acquire? ==>
                 && Starts(h, a) && Leased(h, a).Some?
                 && acts[i] == Acquire(a.ring.value, Leased(h, a).value.0, Leased(h, a).value.1)
  {
    hide Make, Judge;
    var h0 := h.(count := h.count + 1, timeout := h.timeout - a.elapsed);
    if Starts(h, a) {
      MakeShape(h0, a.ring.value, a);
      var (h1, made, target) := Make(h0, a.ring.value, a);
      var acts := Round(h, a).1;
      if target.Some? {
        JudgeShape(h1.(held := None), a.reply, target.value);
      }
      assert made != [] ==> acts[0] == made[0];
    }
  }

  /** Why a run ends: no time, no ring, no request made, or a reply that ends it. */
  lemma RoundEnds(h: Handler, a: Attempt)
    requires h.held == None
    ensures var (h', acts, verdict) := Round(h, a);
            && (verdict == TimedOut <==> h.timeout <= a.elapsed)
            && (verdict == RingFailed <==> h.timeout > a.elapsed && a.ring.None?)
            && (verdict == MakeFailed <==> Starts(h, a) && !Sends(h, a))
            && (verdict == Finished <==> Sends(h, a) && a.reply.Success?)
            && (forall code, outside :: verdict == Errored(code, outside) <==>
                  Sends(h, a) && (a.reply == DirectError(code, outside)
                                  || (a.reply == Failure(code) && !outside && !Retryable(a.reply, h'.legacyScheduler))))
  {
    hide Make, Direct;
    var h0 := h.(count := h.count + 1, timeout := h.timeout - a.elapsed);
    if Starts(h, a) {
      MakeTarget(h0, a.ring.value, a);
      SameCase(h, h0, a);
      var (h1, made, target) := Make(h0, a.ring.value, a);
      if target.Some? {
        assert Round(h, a).2 == Judge(h1.(held := None), a.reply, target.value).2;
      } else {
        assert Round(h, a).2 == MakeFailed;
      }
    }
  }

  /** The instance that a round excludes from now on. */
  function Excluded(h: Handler, a: Attempt): seq<string> {
    if Sends(h, a) && BlamesInstance(a.reply) && Target(h, a) != "" then [Target(h, a)] else []
  }

  lemma SameCase(h: Handler, h0: Handler, a: Attempt)
    requires h0 == h.(count := h.count + 1, timeout := h.timeout - a.elapsed) && Starts(h, a)
    ensures Direct(h0, a) == Direct(h, a) && Leased(h0, a) == Leased(h, a)
    ensures Sends(h0, a.(elapsed := 0)) == Sends(h, a)
    ensures Sends(h, a) ==> Target(h0, a.(elapsed := 0)) == Target(h, a)
  {
  }

  /** The handler before the k-th round. */
  function HandlerAt(h: Handler, attempts: seq<Attempt>, k: nat): Handler
    requires k <= |attempts|
    decreases k
  {
    if k == 0 then h else HandlerAt(Round(h, attempts[0]).0, attempts[1..], k - 1)
  }

  /** In every run each request sent goes where the round that its count names says. */
  lemma {:induction false} EverySendHasItsTarget(h: Handler, attempts: seq<Attempt>, i: nat)
    requires h.held == None && i < |Run(h, attempts).1| && Run(h, attempts).1[i].Send?
    ensures var act := Run(h, attempts).1[i]; var k := act.count - h.count - 1;
            0 <= k < |attempts| && SentAs(HandlerAt(h, attempts, k), attempts[k], act)
    decreases |attempts|
  {
    hide Round, SentAs;
    RoundSends(h, attempts[0]);
    RoundBudget(h, attempts[0]);
    RoundPaired(h, attempts[0]);
    var (h1, acts, verdict) := Round(h, attempts[0]);
    if i >= |acts| {
      assert Run(h, attempts).1[i] == Run(h1, attempts[1..]).1[i - |acts|];
      EverySendHasItsTarget(h1, attempts[1..], i - |acts|);
    }
  }

  /** The instances that replies blame, in the order of the trace. */
  function Blamed(trace: seq<Action>): seq<string> {
    if trace == [] then []
    else
      (if trace[0].Send? && BlamesInstance(trace[0].reply) && trace[0].instance != "" then [trace[0].instance] else [])
      + Blamed(trace[1..])
  }

  lemma {:induction false} BlamedConcat(a: seq<Action>, b: seq<Action>)
    ensures Blamed(a + b) == Blamed(a) + Blamed(b)
  {
    if a == [] {
      assert a + b == b;
    } else {
      assert (a + b)[1..] == a[1..] + b;
      BlamedConcat(a[1..], b);
    }
  }

  lemma {:induction false} NobodyBlamed(a: seq<Action>)
    requires forall i :: 0 <= i < |a| ==> !a[i].Send?
    ensures Blamed(a) == []
  {
    if a != [] {
      NobodyBlamed(a[1..]);
    }
  }

  lemma RoundBlames(h: Handler, a: Attempt)
    requires h.held == None
    ensures Blamed(Round(h, a).1) == Excluded(h, a)
  {
    hide Round, BlamesInstance, Blamed;
    RoundSends(h, a);
    var acts := Round(h, a).1;
    if Sends(h, a) {
      var i :| 0 <= i < |acts| && acts[i].Send?;
      var before, behind := acts[..i], acts[i + 1..];
      assert acts == before + [acts[i]] + behind;
      NobodyBlamed(before);
      NobodyBlamed(behind);
      BlamedConcat(before + [acts[i]], behind);
      BlamedConcat(before, [acts[i]]);
      BlamedOne(acts[i]);
      assert SentAs(h, a, acts[i]);
    } else {
      NobodyBlamed(acts);
    }
  }

  lemma BlamedOne(act: Action)
    ensures Blamed([act]) ==
            if act.Send? && BlamesInstance(act.reply) && act.instance != "" then [act.instance] else []
  {
    assert Blamed([act][1..]) == [];
  }

  /** After every run the excluded instances are the former ones and those sent to and blamed, in order. */
  lemma {:induction false} ExcludedAreTheBlamed(h: Handler, attempts: seq<Attempt>)
    requires h.held == None
    ensures var (h', trace, _) := Run(h, attempts); h'.unexpected == h.unexpected + Blamed(trace)
    decreases |attempts|
  {
    hide Round, Excluded, BlamesInstance;
    if attempts == [] {
      assert h.unexpected + [] == h.unexpected;
    } else {
      var (h1, acts, verdict) := Round(h, attempts[0]);
      RoundSends(h, attempts[0]);
      RoundBlames(h, attempts[0]);
      RoundPaired(h, attempts[0]);
      if verdict.Running? {
        ExcludedAreTheBlamed(h1, attempts[1..]);
        BlamedConcat(acts, Run(h1, attempts[1..]).1);
      }
    }
  }

  // ---------------------------------------------------------------------------------------
  // Once downgraded, no lease is acquired
  // ---------------------------------------------------------------------------------------

  ghost predicate NoLeaseAfterDowngrade(trace: seq<Action>) {
    forall i, j :: 0 <= i < j < |trace| && trace[i].Downgrade? ==> !trace[j].Acquire?
  }

  lemma RoundDowngrade(h: Handler, a: Attempt)
    ensures var (h', acts, _) := Round(h, a);
            && NoLeaseAfterDowngrade(acts)
            && (h.downgrade ==> h'.downgrade && forall i :: 0 <= i < |acts| ==> !acts[i].Acquire?)
            && ((exists i :: 0 <= i < |acts| && acts[i].Downgrade?) ==> h'.downgrade)
  {
    var (h', acts, _) := Round(h, a);
    assert |acts| <= 5;
  }

  lemma {:induction false} DowngradeIsFinal(h: Handler, attempts: seq<Attempt>)
    ensures var (h', trace, _) := Run(h, attempts);
            && NoLeaseAfterDowngrade(trace)
            && (h.downgrade ==> h'.downgrade && forall i :: 0 <= i < |trace| ==> !trace[i].Acquire?)
    decreases |attempts|
  {
    hide Round;
    if attempts != [] {
      RoundDowngrade(h, attempts[0]);
      var (h1, acts, verdict) := Round(h, attempts[0]);
      if verdict.Running? {
        DowngradeIsFinal(h1, attempts[1..]);
        var more := Run(h1, attempts[1..]).1;
        forall i, j | 0 <= i < j < |acts + more| && (acts + more)[i].Downgrade? ensures !(acts + more)[j].Acquire? {
        }
      }
    }
  }

  // ---------------------------------------------------------------------------------------
  // The time budget
  // ---------------------------------------------------------------------------------------

  /** The elapsed seconds of the first `n` rounds, each counted from the start of the request. */
  function Spent(attempts: seq<Attempt>, n: nat): nat
    requires n <= |attempts|
  {
    if n == 0 then 0 else attempts[0].elapsed + Spent(attempts[1..], n - 1)
  }

  /** What is sent in round k has the budget less the elapsed seconds of rounds 1 to k. */
  ghost predicate Budgeted(h: Handler, attempts: seq<Attempt>, act: Action) {
    act.Send? ==> && h.count < act.count <= h.count + |attempts| && act.timeout > 0
                  && act.timeout == h.timeout - Spent(attempts, act.count - h.count)
  }

  lemma RoundBudget(h: Handler, a: Attempt)
    ensures var (h', acts, verdict) := Round(h, a);
            && h'.count == h.count + 1 && h'.timeout == h.timeout - a.elapsed
            && forall i :: 0 <= i < |acts| && acts[i].Send? ==>
                 acts[i].count == h.count + 1 && acts[i].timeout == h'.timeout > 0
  {
  }

  lemma {:induction false} TimeoutsAreBudgeted(h: Handler, attempts: seq<Attempt>)
    ensures forall i :: 0 <= i < |Run(h, attempts).1| ==> Budgeted(h, attempts, Run(h, attempts).1[i])
    decreases |attempts|
  {
    hide Round;
    if attempts != [] {
      RoundBudget(h, attempts[0]);
      var (h1, acts, verdict) := Round(h, attempts[0]);
      assert Spent(attempts[1..], 0) == 0;
      if verdict.Running? {
        TimeoutsAreBudgeted(h1, attempts[1..]);
        var more := Run(h1, attempts[1..]).1;
        forall i | 0 <= i < |more| ensures Budgeted(h, attempts, more[i]) {
          assert Budgeted(h1, attempts[1..], more[i]);
        }
      }
    }
  }

  lemma {:induction false} SpentAtLeastLast(attempts: seq<Attempt>, n: nat)
    requires 0 < n <= |attempts|
    ensures Spent(attempts, n) == Spent(attempts, n - 1) + attempts[n - 1].elapsed
    decreases n
  {
    if n > 1 {
      SpentAtLeastLast(attempts[1..], n - 1);
    }
  }

  /**
   Every timeout sent is positive and at most the budget less the seconds elapsed, and it is that
   difference exactly if the earlier rounds began within the first second: the loop subtracts the
   whole elapsed time again in every round.
   */
  lemma TimeoutIsWithinBudget(budget: int, withoutScheduler: bool, attempts: seq<Attempt>, i: nat)
    requires i < |Run(Handler(budget, withoutScheduler, None, [], false, 0), attempts).1|
    requires Run(Handler(budget, withoutScheduler, None, [], false, 0), attempts).1[i].Send?
    ensures var act := Run(Handler(budget, withoutScheduler, None, [], false, 0), attempts).1[i];
            && 0 < act.count <= |attempts| && 0 < act.timeout <= budget - attempts[act.count - 1].elapsed
            && (act.timeout == budget - attempts[act.count - 1].elapsed <==> Spent(attempts, act.count - 1) == 0)
  {
    hide Run;
    var h := Handler(budget, withoutScheduler, None, [], false, 0);
    TimeoutsAreBudgeted(h, attempts);
    var act := Run(h, attempts).1[i];
    assert Budgeted(h, attempts, act);
    SpentAtLeastLast(attempts, act.count);
  }
}
