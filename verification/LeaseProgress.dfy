/**
 Nobody in the lease protocol is ever stuck: a request can always be served and can always give its
 lease back, a retain pass can always end, and an idle lease can always expire.
 */
module LeaseProgress {
  import opened Sequences
  import opened LeaseModel
  import opened LeaseProtocol
  import opened LeaseSafety
  import opened LeaseTheorems
  import opened LeaseEffects
  import opened LeaseFates

  // ---------------------------------------------------------------------------------------
  // Requests
  // ---------------------------------------------------------------------------------------

  /** The request holds its lease, or is through. */
  predicate Arrived(s: State, r: ReqId, served: bool) {
    if served then r in s.reqs && s.reqs[r].Holding? else r !in s.reqs
  }

  ghost predicate OwnSteps(steps: seq<Step>, r: ReqId) {
    forall i :: 0 <= i < |steps| ==> RequestStep(steps[i]) && steps[i].r == r
  }

  /** By steps of its own alone the request gets there. */
  ghost predicate CanArrive(s: State, r: ReqId, served: bool) {
    exists steps, t :: Runs(s, steps, t) && OwnSteps(steps, r) && Arrived(t, r, served)
  }

  function Rank(ph: Phase): nat {
    match ph
    case Looked(_) => 7
    case Counted(_) => 6
    case Fetching(_) => 5
    case Claimed(_, _) => 4
    case Holding(_) => 3
    case Returning(_, _) => 2
    case Releasing(_, _, _) => 1
  }

  lemma ArrivesBefore(s: State, step: Step, r: ReqId, served: bool)
    requires Structure(s) && Enabled(s, step) && RequestStep(step) && step.r == r
    requires CanArrive(Apply(s, step), r, served)
    ensures CanArrive(s, r, served)
  {
    hide Structure, Enabled, Apply, Runs, Arrived;
    var steps, t :| Runs(Apply(s, step), steps, t) && OwnSteps(steps, r) && Arrived(t, r, served);
    RunsPrepend(s, step, steps, t);
  }

  lemma ArrivedNow(s: State, r: ReqId, served: bool)
    requires Arrived(s, r, served)
    ensures CanArrive(s, r, served)
  {
    assert Runs(s, [], s) && OwnSteps([], r);
  }

  /** There is always another lease ID. */
  lemma {:induction false} FreshId(taken: set<LeaseId>, n: nat) returns (id: LeaseId)
    ensures id !in taken && |id| >= n
    decreases |taken|
  {
    id := seq(n, _ => 'x');
    if id in taken {
      id := FreshId(taken - {id}, n + 1);
    }
  }

  /** The next step of a request; one that asks the scheduler gets an answer. */
  lemma NextStep(s: State, r: ReqId) returns (step: Step)
    requires r in s.reqs && !s.purging
    ensures Enabled(s, step) && RequestStep(step) && step.r == r && !step.Lookup? && !step.FetchFail?
  {
    hide Clearable;
    match s.reqs[r]
    case Looked(_) => step := Count(r);
    case Counted(_) => step := TryIdle(r, "");
    case Fetching(_) =>
      var id := FreshId(s.home.Keys, 0);
      step := FetchOk(r, id, true, "", "");
    case Claimed(_, _) => step := Publish(r);
    case Holding(_) => step := ReleaseBegin(r, false);
    case Returning(_, _) => step := ReleaseLookup(r);
    case Releasing(_, _, _) => step := ReleaseApply(r);
  }

  lemma StepMovesOn(s: State, step: Step, t: State)
    requires Ledger(s, step, t) && !step.Lookup? && !step.FetchFail?
    ensures step.r in s.reqs && t.purging == s.purging
    ensures step.r in t.reqs ==> Rank(t.reqs[step.r]) < Rank(s.reqs[step.r])
    ensures Rank(s.reqs[step.r]) > 3 ==> step.r in t.reqs && Rank(t.reqs[step.r]) >= 3
  {
    hide Counts, Found;
  }

  /** While no retain pass has the function's lock, a request can go all the way, whatever it has reached. */
  lemma {:induction false} RequestCanGoOn(s: State, r: ReqId, served: bool)
    requires Inv(s) && r in s.reqs && !s.purging && (served ==> Rank(s.reqs[r]) >= 3)
    ensures CanArrive(s, r, served)
    decreases Rank(s.reqs[r])
  {
    hide Inv, Structure, Enabled, Apply, CanArrive, Ledger;
    if Arrived(s, r, served) {
      ArrivedNow(s, r, served);
    } else {
      InvStructure(s);
      var step := NextStep(s, r);
      RequestStepLedger(s, step);
      StepMovesOn(s, step, Apply(s, step));
      StepKeeps(s, step);
      if r in Apply(s, step).reqs {
        RequestCanGoOn(Apply(s, step), r, served);
      } else {
        ArrivedNow(Apply(s, step), r, served);
      }
      ArrivesBefore(s, step, r, served);
    }
  }

  lemma RequestStepLedger(s: State, step: Step)
    requires Structure(s) && Enabled(s, step) && RequestStep(step)
    ensures Ledger(s, step, Apply(s, step))
  {
    hide Structure, Enabled, ApplyRequest, Ledger;
    RequestLedger(s, step);
  }

  // ---------------------------------------------------------------------------------------
  // The retain pass and the expiry loops
  // ---------------------------------------------------------------------------------------

  /** The pass that has the function's lock can give it back. */
  ghost predicate CanUnlock(s: State) {
    exists steps, t :: Runs(s, steps, t) && !t.purging && t.exits.None?
  }

  lemma UnlocksBefore(s: State, step: Step)
    requires Structure(s) && Enabled(s, step) && CanUnlock(Apply(s, step))
    ensures CanUnlock(s)
  {
    hide Structure, Enabled, Apply, Runs;
    var steps, t :| Runs(Apply(s, step), steps, t) && !t.purging && t.exits.None?;
    RunsPrepend(s, step, steps, t);
  }

  lemma {:induction false} PassCanEnd(s: State)
    requires Inv(s) && s.purging && s.exits.Some?
    ensures CanUnlock(s)
    decreases s.exits.value
  {
    hide Inv, Structure, ApplyRequest, ApplyBackground, CanUnlock;
    InvStructure(s);
    if s.exits.value == {} {
      EndPurgeOnly(s);
      UnlockedNow(Apply(s, EndPurge));
      UnlocksBefore(s, EndPurge);
    } else {
      var id :| id in s.exits.value;
      PurgeExitRemoves(s, id);
      StepKeeps(s, PurgeExit(id));
      PassCanEnd(Apply(s, PurgeExit(id)));
      UnlocksBefore(s, PurgeExit(id));
    }
  }

  lemma UnlockedNow(s: State)
    requires !s.purging && s.exits.None?
    ensures CanUnlock(s)
  {
    assert Runs(s, [], s);
  }

  /** Whenever a lease is free and its loop waits, the loop can end it. */
  lemma IdleLeaseCanExpire(s: State, id: LeaseId)
    requires Inv(s) && id in s.watch && s.watch[id].Watching? && id in s.store && s.store[id].available
    ensures exists t :: Runs(s, [IdleTimer(id), WatchRemove(id)], t) && OutOfUse(t, id)
  {
    hide Structure, Exclusive, Tracked, Guarded, Apply, OutOfUse, Owned, Clearable;
    var m := Apply(s, IdleTimer(id));
    assert Runs(m, [], m);
    ExpiredLeaseIsGone(s, id, [], m);
    var t := Apply(m, WatchRemove(id));
    assert Runs(t, [], t);
    RunsPrepend(m, WatchRemove(id), [], t);
    RunsPrepend(s, IdleTimer(id), [WatchRemove(id)], t);
    assert [IdleTimer(id)] + ([WatchRemove(id)] + []) == [IdleTimer(id), WatchRemove(id)];
  }

  // ---------------------------------------------------------------------------------------
  // Whoever comes next
  // ---------------------------------------------------------------------------------------

  /** While no pass has the lock, a new request, the next pass and the deletion of the function can begin. */
  lemma AnybodyCanBegin(s: State, r: ReqId, key: PoolKey)
    requires !s.purging && r !in s.reqs
    ensures exists p :: Enabled(s, Lookup(r, key, p))
    ensures s.exits.None? && !s.ended ==> Enabled(s, Collect)
    ensures Enabled(s, ClearFunction)
  {
    hide Clearable;
    var p := Unused(s.idle.Keys, 0);
    assert Enabled(s, Lookup(r, key, p));
  }

  /** An answer can reach the lease under the key of its pool. */
  predicate Answerable(s: State, key: PoolKey, id: LeaseId) {
    !s.purging && id in s.mapped && id in s.home && key in s.registry && s.registry[key] == s.home[id]
  }

  /** A renewal of a live lease, under the key of its pool, is heard. */
  lemma RenewalIsHeard(s: State, key: PoolKey, id: LeaseId, reacquire: bool, scheduler: string)
    requires Inv(s) && Answerable(s, key, id)
    ensures Enabled(s, Renew(key, id, reacquire, scheduler)) && id in s.store
    ensures var t := Apply(s, Renew(key, id, reacquire, scheduler));
            && id in t.mapped && id in t.store
            && t.store[id] == s.store[id].(reacquire := reacquire, scheduler := scheduler)
  {
    hide Structure, Exclusive, Tracked, Guarded, Apply, Clearable, IdleBecomes, FirstClaimable, Dead;
    var step := Renew(key, id, reacquire, scheduler);
    Basics(s);
    StepDoes(s, step);
    assert Becomes(s, step, id, Apply(s, step).store[id]);
  }

  /** So is it that the scheduler has given the lease up. */
  lemma GivingUpIsHeard(s: State, key: PoolKey, id: LeaseId)
    requires Inv(s) && Answerable(s, key, id)
    ensures Enabled(s, Decrease(key, id))
    ensures var t := Apply(s, Decrease(key, id));
            && id !in t.mapped && id in t.store && t.store[id].exited
            && forall p :: p in t.idle ==> id !in t.idle[p]
  {
    hide Structure, Exclusive, Tracked, Guarded, Apply, Clearable, IdleBecomes, FirstClaimable;
    var step := Decrease(key, id);
    Basics(s);
    StepDoes(s, step);
    StepKeeps(s, step);
    assert Becomes(s, step, id, Apply(s, step).store[id]);
    DroppedIsNotIdle(Apply(s, step), id);
  }

  lemma DroppedIsNotIdle(s: State, id: LeaseId)
    requires Inv(s) && id !in s.mapped
    ensures forall p :: p in s.idle ==> id !in s.idle[p]
  {
    hide Directory, Requests, Exclusive, Tracked, Guarded;
  }
}
