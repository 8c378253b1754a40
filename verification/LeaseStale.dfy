/**
 leaseIdToLeasePool after a scheduler gives a lease up.  The answer to a retain batch removes the
 lease from its pool and from globalLeaseList but not from this index, and a retain pass forgets
 only what it finds in globalLeaseList.  This module says exactly when the entry stays for good.
 */
module LeaseStale {
  import opened Sequences
  import opened LeaseModel
  import opened LeaseProtocol
  import opened LeaseSafety
  import opened LeaseTheorems

  // ---------------------------------------------------------------------------------------
  // An entry that is never cleared
  // ---------------------------------------------------------------------------------------

  /** Indexed, but unlisted, gone from its pool and with nobody who will publish it again. */
  ghost predicate Stale(s: State, id: LeaseId) {
    && id in s.index && id !in s.global && id !in s.mapped && !BeingPublished(s.reqs, id)
    && (s.exits.Some? ==> id !in s.exits.value)
  }

  /** A step of a request publishes, lists and maps only leases that some request was about to publish, or new ones. */
  lemma RequestPublishes(s: State, step: Step, t: State, id: LeaseId)
    requires Ledger(s, step, t) && id in s.home && id !in s.mapped && !BeingPublished(s.reqs, id)
    ensures !BeingPublished(t.reqs, id) && id !in t.mapped && (id in t.global ==> id in s.global)
    ensures s.index.Keys <= t.index.Keys && t.exits == s.exits
  {
    hide Counts, BeingPublished;
    OneRequestMoves(s, step, t);
    assert step.Publish? ==> s.reqs[step.r].lease != id by {
      Publisher(s.reqs, step.r, id);
    }
    assert !BeingPublished(t.reqs, id) by {
      NewPublisher(s.reqs, step.r, t.reqs, id);
    }
  }

  lemma Publisher(reqs: map<ReqId, Phase>, r: ReqId, id: LeaseId)
    ensures r in reqs && reqs[r].Claimed? && reqs[r].lease == id ==> BeingPublished(reqs, id)
  {
  }

  lemma NewPublisher(reqs: map<ReqId, Phase>, r: ReqId, reqs': map<ReqId, Phase>, id: LeaseId)
    requires reqs' == reqs - {r} || (r in reqs' && reqs' == reqs[r := reqs'[r]])
    requires r in reqs' && reqs'[r].Claimed? ==> reqs'[r].lease != id
    ensures BeingPublished(reqs', id) ==> BeingPublished(reqs, id)
  {
  }

  lemma StaleRequestStep(s: State, step: Step, id: LeaseId)
    requires Inv(s) && Enabled(s, step) && RequestStep(step) && Stale(s, id)
    ensures Stale(ApplyRequest(s, step), id)
  {
    hide Heap, Directory, Requests, Exclusive, Tracked, Guarded, ApplyRequest, Enabled, Ledger, BeingPublished;
    Basics(s);
    RequestLedger(s, step);
    RequestPublishes(s, step, ApplyRequest(s, step), id);
  }

  lemma StaleLoopStep(s: State, step: Step, id: LeaseId)
    requires Structure(s) && Enabled(s, step) && Stale(s, id)
    requires !RequestStep(step) && !LeaseStep(step) && !step.PurgeExit?
    ensures Stale(ApplyBackground(s, step), id)
  {
    hide Heap, Directory, Requests, Clearable, BeingPublished, DoIdleTick, DoIdleTimer, DoWatchRemove, DoDecrease,
      DoRenew, DoPurgeExit;
    Basics(s);
  }

  lemma StaleBackgroundStep(s: State, step: Step, id: LeaseId)
    requires Inv(s) && Enabled(s, step) && !RequestStep(step) && Stale(s, id)
    ensures Stale(ApplyBackground(s, step), id)
  {
    hide Structure, ApplyBackground, BeingPublished, Exclusive, Tracked, Guarded, Clearable;
    if LeaseStep(step) {
      LeaseStepOnly(s, step);
    } else if step.PurgeExit? {
      PurgeExitRemoves(s, step.id);
    } else {
      StaleLoopStep(s, step, id);
    }
  }

  lemma {:induction false} StaleIndexEntryStays(s: State, steps: seq<Step>, t: State, id: LeaseId)
    requires Inv(s) && Stale(s, id) && Runs(s, steps, t)
    ensures Stale(t, id)
    decreases |steps|
  {
    hide Inv, Structure, Enabled, ApplyRequest, ApplyBackground, Stale;
    if steps != [] {
      if RequestStep(steps[0]) {
        StaleRequestStep(s, steps[0], id);
      } else {
        StaleBackgroundStep(s, steps[0], id);
      }
      StepKeeps(s, steps[0]);
      StaleIndexEntryStays(Apply(s, steps[0]), steps[1..], t, id);
    }
  }

  /** When the loop of the retain passes has returned, no entry is cleared any more. */
  lemma EndedStep(s: State, step: Step)
    requires Structure(s) && Enabled(s, step) && s.ended
    ensures Apply(s, step).ended && s.index.Keys <= Apply(s, step).index.Keys
  {
    if RequestStep(step) {
      hide Structure, ApplyRequest;
      EndedRequestStep(s, step);
    } else if LeaseStep(step) {
      hide Structure, ApplyBackground;
      LeaseStepOnly(s, step);
    } else {
      hide Heap, Directory, Requests, Clearable, DoIdleTick, DoIdleTimer, DoWatchRemove, DoDecrease, DoRenew,
        DoPurgeExit;
    }
  }

  lemma EndedRequestStep(s: State, step: Step)
    requires Structure(s) && Enabled(s, step) && RequestStep(step)
    ensures ApplyRequest(s, step).ended == s.ended && s.index.Keys <= ApplyRequest(s, step).index.Keys
  {
    hide Structure, ApplyRequest;
    RequestLedger(s, step);
  }

  lemma {:induction false} EndedKeepsTheIndex(s: State, steps: seq<Step>, t: State)
    requires s.ended && Runs(s, steps, t)
    ensures s.index.Keys <= t.index.Keys
    decreases |steps|
  {
    hide Structure, Enabled, Apply;
    if steps != [] {
      EndedStep(s, steps[0]);
      EndedKeepsTheIndex(Apply(s, steps[0]), steps[1..], t);
    }
  }

  // ---------------------------------------------------------------------------------------
  // An entry that can be cleared
  // ---------------------------------------------------------------------------------------

  /** Some continuation clears the entry. */
  ghost predicate Clears(s: State, id: LeaseId) {
    exists steps, t :: Runs(s, steps, t) && id !in t.index
  }

  lemma ClearsBefore(s: State, step: Step, id: LeaseId)
    requires Structure(s) && Enabled(s, step) && Clears(Apply(s, step), id)
    ensures Clears(s, id)
  {
    hide Structure, Enabled, Apply, Runs;
    var steps, t :| Runs(Apply(s, step), steps, t) && id !in t.index;
    RunsPrepend(s, step, steps, t);
  }

  lemma ClearsNow(s: State, id: LeaseId)
    requires id !in s.index
    ensures Clears(s, id)
  {
    assert Runs(s, [], s);
  }

  lemma PurgeClears(s: State, id: LeaseId)
    requires Inv(s) && s.exits.Some? && id in s.exits.value && id in s.index && s.purging
    ensures Clears(s, id)
  {
    hide Heap, Directory, Requests, Exclusive, Tracked, Guarded, Apply;
    PurgeForgets(s, id);
    ClearsNow(Apply(s, PurgeExit(id)), id);
    ClearsBefore(s, PurgeExit(id), id);
  }

  lemma BeginPurgeOnly(s: State)
    requires Inv(s) && s.exits.Some? && !s.purging
    ensures Structure(s) && Enabled(s, BeginPurge) && Apply(s, BeginPurge) == s.(purging := true)
    ensures Inv(s.(purging := true))
  {
    hide Heap, Directory, Requests, Exclusive, Tracked, Guarded;
    StepKeeps(s, BeginPurge);
  }

  /** A retain pass that has the lease in hand clears it. */
  lemma PassClears(s: State, id: LeaseId)
    requires Inv(s) && s.exits.Some? && id in s.exits.value && id in s.index
    ensures Clears(s, id)
  {
    hide Inv, Structure, Apply, Clears;
    if s.purging {
      PurgeClears(s, id);
    } else {
      BeginPurgeOnly(s);
      PurgeClears(s.(purging := true), id);
      ClearsBefore(s, BeginPurge, id);
    }
  }

  /** So does the next pass if the lease is listed. */
  lemma NextPassClears(s: State, id: LeaseId)
    requires Inv(s) && s.exits.None? && !s.ended && id in s.global && id !in s.mapped
    ensures Clears(s, id)
  {
    hide Directory, Requests, Exclusive, Tracked, Guarded, Apply, Runs;
    Basics(s);
    CollectFacts(s, id);
    PassClears(Apply(s, Collect), id);
    ClearsBefore(s, Collect, id);
  }

  ghost function WithoutExit(s: State, id: LeaseId): State
    requires Structure(s) && Enabled(s, PurgeExit(id))
  {
    Apply(s, PurgeExit(id))
  }

  lemma PurgeSpares(s: State, gone: LeaseId, id: LeaseId)
    requires Structure(s) && Enabled(s, PurgeExit(gone)) && gone != id && id in s.global && id !in s.mapped && Inv(s)
    ensures WithoutExit(s, gone).exits.Some? && s.exits.Some?
    ensures WithoutExit(s, gone).exits.value == s.exits.value - {gone}
    ensures WithoutExit(s, gone).purging && WithoutExit(s, gone).ended == s.ended
    ensures id in WithoutExit(s, gone).global && id !in WithoutExit(s, gone).mapped
    ensures Inv(WithoutExit(s, gone))
  {
    hide Inv, Structure, ApplyBackground;
    PurgeExitRemoves(s, gone);
    StepKeeps(s, PurgeExit(gone));
  }

  /** A pass without the lease ends, and the next one clears it. */
  lemma {:induction false} PassEndsThenClears(s: State, id: LeaseId)
    requires Inv(s) && s.exits.Some? && s.purging && !s.ended
    requires id !in s.exits.value && id in s.global && id !in s.mapped
    ensures Clears(s, id)
    decreases s.exits.value
  {
    hide Inv, Structure, Apply, Clears;
    InvStructure(s);
    if s.exits.value == {} {
      EndPurgeOnly(s);
      StepKeeps(s, EndPurge);
      NextPassClears(Apply(s, EndPurge), id);
      ClearsBefore(s, EndPurge, id);
    } else {
      var gone :| gone in s.exits.value;
      PurgeSpares(s, gone, id);
      PassEndsThenClears(WithoutExit(s, gone), id);
      ClearsBefore(s, PurgeExit(gone), id);
    }
  }

  lemma ListedIsCleared(s: State, id: LeaseId)
    requires Inv(s) && !s.ended && !s.purging && id in s.global && id !in s.mapped
    requires s.exits.Some? ==> id !in s.exits.value
    ensures Clears(s, id)
  {
    hide Inv, Structure, Apply, Clears;
    if s.exits.Some? {
      BeginPurgeOnly(s);
      PassEndsThenClears(s.(purging := true), id);
      ClearsBefore(s, BeginPurge, id);
    } else {
      NextPassClears(s, id);
    }
  }

  /** A request that still publishes the lease lists it again. */
  lemma PublishLists(s: State, r: ReqId)
    requires Inv(s) && r in s.reqs && s.reqs[r].Claimed? && !s.purging
    ensures Enabled(s, Publish(r)) && Inv(Apply(s, Publish(r)))
    ensures var t := Apply(s, Publish(r));
            && s.reqs[r].lease in t.global && t.mapped == s.mapped && t.exits == s.exits && t.ended == s.ended
            && t.purging == s.purging
  {
    hide Heap, Directory, Requests, Exclusive, Tracked, Guarded;
    RequestBasics(s, r);
    StepKeeps(s, Publish(r));
  }

  lemma PublishedIsCleared(s: State, id: LeaseId)
    requires Inv(s) && !s.ended && !s.purging && id !in s.mapped && BeingPublished(s.reqs, id)
    requires s.exits.Some? ==> id !in s.exits.value
    ensures Clears(s, id)
  {
    hide Inv, Structure, Enabled, Apply, Clears;
    var r :| r in s.reqs && s.reqs[r].Claimed? && s.reqs[r].lease == id;
    PublishLists(s, r);
    InvStructure(s);
    ListedIsCleared(Apply(s, Publish(r)), id);
    ClearsBefore(s, Publish(r), id);
  }

  // ---------------------------------------------------------------------------------------
  // Exactly
  // ---------------------------------------------------------------------------------------

  ghost function Decreased(s: State, key: PoolKey, id: LeaseId): State
    requires Structure(s) && !s.purging
  {
    Apply(s, Decrease(key, id))
  }

  lemma DecreaseFacts(s: State, key: PoolKey, id: LeaseId)
    requires Structure(s) && !s.purging && Inv(s) && Reaches(s, key, id) && id in s.index
    ensures Enabled(s, Decrease(key, id))
    ensures var t := Decreased(s, key, id);
            && id in t.index && id !in t.global && id !in t.mapped && t.reqs == s.reqs && t.exits == s.exits
            && t.ended == s.ended && t.purging == s.purging && Inv(t)
  {
    hide Heap, Directory, Requests, Exclusive, Tracked, Guarded;
    StepKeeps(s, Decrease(key, id));
  }

  /**
   The entry of a lease the scheduler gives up is kept by every continuation if and only if no
   retain pass has the lease in hand and nobody lists it again before the passes end.
   */
  lemma DecreaseStrandsTheEntryExactly(s: State, key: PoolKey, id: LeaseId)
    requires Structure(s) && !s.purging && Inv(s) && Reaches(s, key, id) && id in s.index
    ensures !Clears(Decreased(s, key, id), id) <==>
            (s.exits.Some? ==> id !in s.exits.value) && (BeingPublished(s.reqs, id) ==> s.ended)
  {
    hide Inv, Structure, Decreased, BeingPublished, Clears;
    DecreaseFacts(s, key, id);
    var t := Decreased(s, key, id);
    if s.exits.Some? && id in s.exits.value {
      PassClears(t, id);
    } else if !BeingPublished(s.reqs, id) {
      StaleIsKept(t, id);
    } else if s.ended {
      EndedIsKept(t, id);
    } else {
      PublishedIsCleared(t, id);
    }
  }

  lemma StaleIsKept(s: State, id: LeaseId)
    requires Inv(s) && Stale(s, id)
    ensures !Clears(s, id)
  {
    hide Inv, Runs;
    forall steps, t | Runs(s, steps, t) ensures id in t.index {
      StaleIndexEntryStays(s, steps, t, id);
    }
  }

  lemma EndedIsKept(s: State, id: LeaseId)
    requires s.ended && id in s.index
    ensures !Clears(s, id)
  {
    hide Runs;
    forall steps, t | Runs(s, steps, t) ensures id in t.index {
      EndedKeepsTheIndex(s, steps, t);
    }
  }

  // ---------------------------------------------------------------------------------------
  // It happens: a lease is acquired, handed out and given up by its scheduler
  // ---------------------------------------------------------------------------------------

  const FOUND := INIT.(idle := map[0 := []], registry := map["key" := 0], pending := map[0 := 0],
                       inFlight := map[0 := 0], reqs := map[0 := Looked(0)])
  const COUNTED := FOUND.(reqs := map[0 := Counted(0)], pending := map[0 := 1])
  const ASKING := COUNTED.(reqs := map[0 := Fetching(0)], inFlight := map[0 := 1])
  const CLAIMED := COUNTED.(store := map["lease" := NewLease(true, "", "scheduler")], home := map["lease" := 0],
                            mapped := {"lease"}, reqs := map[0 := Claimed(0, "lease")],
                            watch := map["lease" := Watching])
  const HELD := CLAIMED.(reqs := map[0 := Holding("lease")], global := {"lease"}, index := map["lease" := 0],
                         pending := map[0 := 0])

  lemma FindAndCount()
    ensures Structure(INIT) ==> Enabled(INIT, Lookup(0, "key", 0)) && Apply(INIT, Lookup(0, "key", 0)) == FOUND
    ensures Structure(FOUND) ==> Enabled(FOUND, Count(0)) && Apply(FOUND, Count(0)) == COUNTED
  {
    hide Structure;
  }

  lemma Ask()
    ensures Structure(COUNTED) ==> Enabled(COUNTED, TryIdle(0, "")) && Apply(COUNTED, TryIdle(0, "")) == ASKING
  {
    hide Structure;
    assert Traverse(Pool(map[], {}, []), "") == (Pool(map[], {}, []), None);
  }

  lemma Issue(step: Step)
    requires step == FetchOk(0, "lease", true, "", "scheduler")
    ensures Structure(ASKING) ==> Enabled(ASKING, step) && Apply(ASKING, step) == CLAIMED
  {
    hide Structure;
  }

  lemma HandOut()
    ensures Structure(CLAIMED) ==> Enabled(CLAIMED, Publish(0)) && Apply(CLAIMED, Publish(0)) == HELD
  {
    hide Structure;
  }

  /** The lease is given up by its scheduler while it is held, and its entry stays for good. */
  lemma GivenUpLeaseCanStayIndexed()
    ensures exists steps, t :: Runs(INIT, steps, t) && "lease" !in t.mapped && "lease" in t.index && !Clears(t, "lease")
  {
    hide Structure, Enabled, Apply, Exclusive, Tracked, Guarded, Clears, Runs;
    InitHolds();
    FindAndCount();
    Ask();
    HandOut();
    var issue, drop := FetchOk(0, "lease", true, "", "scheduler"), Decrease("key", "lease");
    Issue(issue);
    StepKeeps(INIT, Lookup(0, "key", 0));
    StepKeeps(FOUND, Count(0));
    StepKeeps(COUNTED, TryIdle(0, ""));
    StepKeeps(ASKING, issue);
    StepKeeps(CLAIMED, Publish(0));
    DecreaseFacts(HELD, "key", "lease");
    DecreaseStrandsTheEntryExactly(HELD, "key", "lease");
    var t := Decreased(HELD, "key", "lease");
    RunsNone(t);
    RunsPrepend(HELD, drop, [], t);
    assert [drop] + [] == [drop];
    RunsPrepend(CLAIMED, Publish(0), [drop], t);
    RunsPrepend(ASKING, issue, [Publish(0), drop], t);
    RunsPrepend(COUNTED, TryIdle(0, ""), [issue, Publish(0), drop], t);
    RunsPrepend(FOUND, Count(0), [TryIdle(0, ""), issue, Publish(0), drop], t);
    RunsPrepend(INIT, Lookup(0, "key", 0), [Count(0), TryIdle(0, ""), issue, Publish(0), drop], t);
  }

  lemma RunsNone(t: State)
    ensures Runs(t, [], t)
  {
  }
}
