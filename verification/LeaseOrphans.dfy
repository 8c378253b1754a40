/**
 clearEmptyLeasePool against acquireInstance.  acquireInstance finds its pool under one lock
 and raises pendingNum under another, so a pool may be cleared in between.  This module shows
 that this window is the only way to lose a pool that is in use, and that it does lose it.
 */
module LeaseOrphans {
  import opened Sequences
  import opened LeaseModel
  import opened LeaseProtocol
  import opened LeaseSafety
  import opened LeaseTheorems

  predicate IsCounted(ph: Phase) {
    ph.Counted? || ph.Fetching? || ph.Claimed?
  }

  /** Does a request in phase `ph` weigh on pendingNum (or, with `inFlight`, on inFlightCount) of `p`? */
  predicate Weighs(ph: Phase, p: PoolId, inFlight: bool) {
    (if inFlight then ph.Fetching? else IsCounted(ph)) && ph.pool == p
  }

  function At(reqs: map<ReqId, Phase>, p: PoolId, inFlight: bool): set<ReqId> {
    set r | r in reqs && Weighs(reqs[r], p, inFlight)
  }

  /** pendingNum and inFlightCount count requests, and no two keys share a pool. */
  ghost predicate Books(s: State) {
    && (forall p :: p in s.pending ==> s.pending[p] == |At(s.reqs, p, false)|)
    && (forall p :: p in s.inFlight ==> s.inFlight[p] == |At(s.reqs, p, true)|)
    && Injective(s.registry)
  }

  ghost predicate Injective(registry: map<PoolKey, PoolId>) {
    forall k, l :: k in registry && l in registry && registry[k] == registry[l] ==> k == l
  }

  predicate Registered(registry: map<PoolKey, PoolId>, p: PoolId) {
    exists k :: k in registry && registry[k] == p
  }

  /** Every pool that an acquiring request uses or that has a lease is in leasePools. */
  ghost predicate NoOrphan(s: State) {
    && (forall r :: r in s.reqs && (s.reqs[r].Looked? || IsCounted(s.reqs[r])) ==>
          Registered(s.registry, s.reqs[r].pool))
    && (forall id :: id in s.mapped && id in s.home ==> Registered(s.registry, s.home[id]))
  }

  // ---------------------------------------------------------------------------------------
  // The counters
  // ---------------------------------------------------------------------------------------

  function Bit(b: bool): int {
    if b then 1 else 0
  }

  lemma AtPut(rest: map<ReqId, Phase>, r: ReqId, ph: Phase, p: PoolId, inFlight: bool)
    requires r !in rest
    ensures |At(rest[r := ph], p, inFlight)| == |At(rest, p, inFlight)| + Bit(Weighs(ph, p, inFlight))
  {
    assert At(rest[r := ph], p, inFlight) == At(rest, p, inFlight) + if Weighs(ph, p, inFlight) then {r} else {};
  }

  /** Changing or dropping one request changes a count by what that request contributed. */
  lemma AtChange(reqs: map<ReqId, Phase>, r: ReqId, ph: Phase, p: PoolId, inFlight: bool)
    ensures var before := Bit(r in reqs && Weighs(reqs[r], p, inFlight));
            && |At(reqs[r := ph], p, inFlight)| == |At(reqs, p, inFlight)| - before + Bit(Weighs(ph, p, inFlight))
            && |At(reqs - {r}, p, inFlight)| == |At(reqs, p, inFlight)| - before
  {
    hide At;
    var rest := reqs - {r};
    AtPut(rest, r, ph, p, inFlight);
    assert rest[r := ph] == reqs[r := ph];
    if r in reqs {
      AtPut(rest, r, reqs[r], p, inFlight);
      assert rest[r := reqs[r]] == reqs;
    } else {
      assert rest == reqs;
    }
  }

  lemma UnknownPoolIsUncounted(s: State, p: PoolId, inFlight: bool)
    requires Structure(s) && p !in s.idle
    ensures At(s.reqs, p, inFlight) == {}
  {
    hide Heap, Directory;
  }

  /** The counters a step leaves are those it found, corrected by the one request it moved. */
  lemma PendingBalances(s: State, step: Step, t: State, p: PoolId)
    requires Ledger(s, step, t) && s.pending.Keys == s.idle.Keys && s.inFlight.Keys == s.idle.Keys
    requires step.Lookup? ==> step.r !in s.reqs && step.newPool !in s.idle
    requires p in t.pending
    ensures var before := step.r in s.reqs && Weighs(s.reqs[step.r], p, false);
            t.pending[p] == (if p in s.idle then s.pending[p] else 0) - Bit(before)
                            + Bit(step.r in t.reqs && Weighs(t.reqs[step.r], p, false))
  {
  }

  lemma InFlightBalances(s: State, step: Step, t: State, p: PoolId)
    requires Ledger(s, step, t) && s.pending.Keys == s.idle.Keys && s.inFlight.Keys == s.idle.Keys
    requires step.Lookup? ==> step.r !in s.reqs && step.newPool !in s.idle
    requires p in t.inFlight
    ensures var before := step.r in s.reqs && Weighs(s.reqs[step.r], p, true);
            t.inFlight[p] == (if p in s.idle then s.inFlight[p] else 0) - Bit(before)
                             + Bit(step.r in t.reqs && Weighs(t.reqs[step.r], p, true))
  {
  }

  lemma BooksRequestStep(s: State, step: Step, t: State, p: PoolId)
    requires Structure(s) && Books(s) && RequestStep(step) && Ledger(s, step, t) && p in t.pending
    requires step.Lookup? ==> step.r !in s.reqs && step.newPool !in s.idle
    ensures t.pending.Keys == t.inFlight.Keys
    ensures t.pending[p] == |At(t.reqs, p, false)| && t.inFlight[p] == |At(t.reqs, p, true)|
  {
    hide Heap, Directory, Requests, At, Ledger, Weighs;
    var ph := if step.r in t.reqs then t.reqs[step.r] else Holding("");
    AtChange(s.reqs, step.r, ph, p, false);
    AtChange(s.reqs, step.r, ph, p, true);
    SameCounterKeys(s, step, t);
    OneRequestMoves(s, step, t);
    PendingBalances(s, step, t, p);
    InFlightBalances(s, step, t, p);
    if p !in s.idle {
      UnknownPoolIsUncounted(s, p, false);
      UnknownPoolIsUncounted(s, p, true);
    }
  }

  lemma InjectiveAfter(s: State, step: Step, t: State)
    requires Structure(s) && Injective(s.registry) && RequestStep(step) && Ledger(s, step, t)
    requires step.Lookup? ==> step.r !in s.reqs && step.newPool !in s.idle
    ensures Injective(t.registry)
  {
    hide Heap, Directory, Requests;
    Basics(s);
  }

  lemma BooksRequest(s: State, step: Step)
    requires Structure(s) && Books(s) && Enabled(s, step) && RequestStep(step)
    ensures Books(ApplyRequest(s, step))
  {
    hide Structure, ApplyRequest, Ledger, At, Injective;
    var t := ApplyRequest(s, step);
    RequestLedger(s, step);
    InjectiveAfter(s, step, t);
    forall p | p in t.pending || p in t.inFlight
      ensures p in t.pending ==> t.pending[p] == |At(t.reqs, p, false)|
      ensures p in t.inFlight ==> t.inFlight[p] == |At(t.reqs, p, true)|
    {
      SameCounterKeys(s, step, t);
      BooksRequestStep(s, step, t, p);
    }
  }

  lemma SameCounterKeys(s: State, step: Step, t: State)
    requires Structure(s) && RequestStep(step) && Ledger(s, step, t)
    ensures t.pending.Keys == t.inFlight.Keys
  {
    hide Heap, Directory, Requests;
  }

  lemma BooksBackground(s: State, step: Step)
    requires Structure(s) && Books(s) && Enabled(s, step) && !RequestStep(step)
    ensures Books(ApplyBackground(s, step))
  {
    hide Structure, Enabled, ApplyBackground, At;
    BackgroundBooks(s, step);
  }

  /** Requests and counters stay, and leases only leave; `registry` is the leasePools after the step. */
  ghost predicate Aside(s: State, t: State, registry: map<PoolKey, PoolId>) {
    && t.reqs == s.reqs && t.pending == s.pending && t.inFlight == s.inFlight && t.home == s.home
    && t.mapped <= s.mapped && t.registry == registry
  }

  lemma LoopAside(s: State, step: Step)
    requires Structure(s) && Enabled(s, step) && !RequestStep(step) && !LeaseStep(step) && !step.PurgeExit?
    ensures Aside(s, ApplyBackground(s, step), if step.ClearEmpty? then s.registry - {step.key} else s.registry)
  {
    hide Heap, Directory, Requests, Clearable, DoWatchRemove, DoDecrease, DoIdleTick, DoIdleTimer, DoRenew, DoPurgeExit;
  }

  /** Background steps leave requests and counters alone; only clearing a pool changes leasePools. */
  lemma BackgroundBooks(s: State, step: Step)
    requires Structure(s) && Enabled(s, step) && !RequestStep(step)
    ensures Aside(s, ApplyBackground(s, step), if step.ClearEmpty? then s.registry - {step.key} else s.registry)
  {
    hide Structure, Enabled, ApplyBackground;
    if LeaseStep(step) {
      LeaseStepOnly(s, step);
    } else if step.PurgeExit? {
      PurgeExitRemoves(s, step.id);
    } else {
      LoopAside(s, step);
    }
  }

  // ---------------------------------------------------------------------------------------
  // Orphans
  // ---------------------------------------------------------------------------------------

  lemma NoOrphanRequest(s: State, step: Step)
    requires Structure(s) && NoOrphan(s) && Enabled(s, step) && RequestStep(step)
    ensures NoOrphan(ApplyRequest(s, step))
  {
    hide Heap, Directory, Requests, ApplyRequest, Enabled, Registered, Ledger;
    var t := ApplyRequest(s, step);
    RequestLedger(s, step);
    StillRegistered(s, step, t);
    OneRequestMoves(s, step, t);
    if step.Lookup? {
      LeasesStay(s, step, t);
    } else {
      SamePool(s, step, t);
    }
  }

  lemma LeasesStay(s: State, step: Step, t: State)
    requires Ledger(s, step, t) && step.Lookup?
    ensures t.mapped <= s.mapped && t.home == s.home
  {
  }

  /** Only a lookup gives a request another pool, and a lease issued to it is in the pool it has. */
  lemma SamePool(s: State, step: Step, t: State)
    requires Ledger(s, step, t) && !step.Lookup?
    ensures step.r in s.reqs
    ensures step.r in t.reqs && (t.reqs[step.r].Looked? || IsCounted(t.reqs[step.r])) ==>
              (s.reqs[step.r].Looked? || IsCounted(s.reqs[step.r])) && t.reqs[step.r].pool == s.reqs[step.r].pool
    ensures forall id :: id in t.mapped && id in t.home ==>
              (id in s.mapped && id in s.home && t.home[id] == s.home[id])
              || (IsCounted(s.reqs[step.r]) && t.home[id] == s.reqs[step.r].pool)
  {
    hide Counts;
  }

  lemma StillRegistered(s: State, step: Step, t: State)
    requires Ledger(s, step, t)
    ensures forall p :: Registered(s.registry, p) ==> Registered(t.registry, p)
    ensures step.Lookup? ==> step.r in t.reqs && HasPool(t.reqs[step.r]) && Registered(t.registry, t.reqs[step.r].pool)
  {
    if step.Lookup? {
      assert step.key in t.registry && t.registry[step.key] == t.reqs[step.r].pool;
    }
    forall p | Registered(s.registry, p) ensures Registered(t.registry, p) {
      var k :| k in s.registry && s.registry[k] == p;
      assert k in t.registry && t.registry[k] == p;
    }
  }

  lemma NoOrphanBackground(s: State, step: Step)
    requires Structure(s) && NoOrphan(s) && Enabled(s, step) && !RequestStep(step) && !step.ClearEmpty?
    ensures NoOrphan(ApplyBackground(s, step))
  {
    hide Structure, Enabled, ApplyBackground, Registered;
    BackgroundBooks(s, step);
  }

  /** A request that found the pool of `key` and has not been counted yet. */
  ghost predicate Uncounted(s: State, key: PoolKey) {
    key in s.registry && exists r :: r in s.reqs && s.reqs[r] == Looked(s.registry[key])
  }

  lemma NobodyCounted(s: State, p: PoolId)
    requires Books(s) && p in s.pending && s.pending[p] <= 0
    ensures forall r :: r in s.reqs && IsCounted(s.reqs[r]) ==> s.reqs[r].pool != p
  {
    assert At(s.reqs, p, false) == {};
    assert forall r :: r in s.reqs && IsCounted(s.reqs[r]) && s.reqs[r].pool == p ==> r in At(s.reqs, p, false);
  }

  lemma RegistryAfterClear(registry: map<PoolKey, PoolId>, key: PoolKey)
    requires Injective(registry) && key in registry
    ensures forall q :: Registered(registry - {key}, q) <==> Registered(registry, q) && q != registry[key]
  {
    var left := registry - {key};
    forall q | q != registry[key] && Registered(registry, q) ensures Registered(left, q) {
      var k :| k in registry && registry[k] == q;
      assert k in left && left[k] == q;
    }
  }

  /**
   The window, exactly: clearing a pool orphans something if and only if some request has
   found the pool without being counted.  The counters protect everybody else.
   */
  lemma ClearingOrphansExactlyTheUncounted(s: State, key: PoolKey)
    requires Structure(s) && Books(s) && NoOrphan(s) && Enabled(s, ClearEmpty(key))
    ensures NoOrphan(Apply(s, ClearEmpty(key))) <==> !Uncounted(s, key)
  {
    hide Heap, Directory, Requests, Registered, At, Injective;
    NobodyCounted(s, s.registry[key]);
    RegistryAfterClear(s.registry, key);
  }

  /** No step of the run clears a pool that an uncounted request has found. */
  ghost predicate Careful(s: State, steps: seq<Step>)
    decreases |steps|
  {
    steps != [] && Structure(s) && Enabled(s, steps[0]) ==>
      && (steps[0].ClearEmpty? ==> !Uncounted(s, steps[0].key))
      && Careful(Apply(s, steps[0]), steps[1..])
  }

  lemma {:induction false} CarefulRunHasNoOrphan(s: State, steps: seq<Step>, t: State)
    requires Inv(s) && Books(s) && NoOrphan(s) && Runs(s, steps, t) && Careful(s, steps)
    ensures Books(t) && NoOrphan(t)
    decreases |steps|
  {
    hide Structure, Enabled, ApplyRequest, ApplyBackground, Books, NoOrphan, Exclusive, Tracked, Guarded, Uncounted;
    if steps != [] {
      var step := steps[0];
      StepKeeps(s, step);
      if RequestStep(step) {
        BooksRequest(s, step);
        NoOrphanRequest(s, step);
      } else {
        BooksBackground(s, step);
        if step.ClearEmpty? {
          ClearingOrphansExactlyTheUncounted(s, step.key);
        } else {
          NoOrphanBackground(s, step);
        }
      }
      CarefulRunHasNoOrphan(Apply(s, step), steps[1..], t);
    }
  }

  /** Without orphans a batch response can reach every live lease through leasePools. */
  lemma EveryLiveLeaseIsReachable(steps: seq<Step>, t: State, id: LeaseId)
    requires Runs(INIT, steps, t) && Careful(INIT, steps) && id in t.mapped
    ensures exists key :: Reaches(t, key, id)
  {
    hide Runs, Careful, Exclusive, Tracked, Guarded;
    InitHolds();
    RunKeeps(INIT, steps, t);
    CarefulRunHasNoOrphan(INIT, steps, t);
    Basics(t);
    var key :| key in t.registry && t.registry[key] == t.home[id];
    assert Reaches(t, key, id);
  }

  // The states of a run that falls into the window.

  const FOUND := INIT.(idle := map[0 := []], registry := map["key" := 0], pending := map[0 := 0],
                       inFlight := map[0 := 0], reqs := map[0 := Looked(0)])
  const CLEARED := FOUND.(registry := map[], stopped := {0})
  const COUNTED := CLEARED.(reqs := map[0 := Counted(0)], pending := map[0 := 1])
  const ASKING := COUNTED.(reqs := map[0 := Fetching(0)], inFlight := map[0 := 1])

  lemma FindThenClear()
    requires Structure(INIT)
    ensures Enabled(INIT, Lookup(0, "key", 0)) && Apply(INIT, Lookup(0, "key", 0)) == FOUND
    ensures Structure(FOUND) ==> Enabled(FOUND, ClearEmpty("key")) && Apply(FOUND, ClearEmpty("key")) == CLEARED
  {
    hide Structure;
  }

  lemma CountThenAsk()
    ensures Structure(CLEARED) ==> Enabled(CLEARED, Count(0)) && Apply(CLEARED, Count(0)) == COUNTED
    ensures Structure(COUNTED) ==> Enabled(COUNTED, TryIdle(0, "")) && Apply(COUNTED, TryIdle(0, "")) == ASKING
  {
    hide Structure;
    assert Traverse(Pool(map[], {}, []), "") == (Pool(map[], {}, []), None);
  }

  lemma LeaseForUnknownPool(last: Step)
    requires Structure(ASKING) && last == FetchOk(0, "lease", true, "", "scheduler")
    ensures Enabled(ASKING, last)
    ensures var t := Apply(ASKING, last); "lease" in t.mapped && t.registry == map[]
  {
    hide Structure;
  }

  /**
   The window is real: a request finds its pool, the pool is cleared, and the request then
   acquires a lease that no entry of leasePools leads to.
   */
  lemma UncountedRequestCanBeOrphaned()
    ensures exists steps, t :: Runs(INIT, steps, t) && "lease" in t.mapped && forall key :: !Reaches(t, key, "lease")
  {
    hide Structure, Enabled, Apply, Exclusive, Tracked, Guarded;
    InitHolds();
    FindThenClear();
    CountThenAsk();
    StepKeeps(INIT, Lookup(0, "key", 0));
    StepKeeps(FOUND, ClearEmpty("key"));
    StepKeeps(CLEARED, Count(0));
    StepKeeps(COUNTED, TryIdle(0, ""));
    var last := FetchOk(0, "lease", true, "", "scheduler");
    LeaseForUnknownPool(last);
    var t := Apply(ASKING, last);
    assert Runs(t, [], t);
    RunsPrepend(ASKING, last, [], t);
    RunsPrepend(COUNTED, TryIdle(0, ""), [last], t);
    RunsPrepend(CLEARED, Count(0), [TryIdle(0, ""), last], t);
    RunsPrepend(FOUND, ClearEmpty("key"), [Count(0), TryIdle(0, ""), last], t);
    RunsPrepend(INIT, Lookup(0, "key", 0), [ClearEmpty("key"), Count(0), TryIdle(0, ""), last], t);
  }
}
