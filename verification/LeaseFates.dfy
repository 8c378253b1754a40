/**
 What becomes of one lease over whole runs of the protocol: a release does what its caller said, a
 destroyed lease never comes back, an expired one is nobody's, a held one outlives its expiry loop,
 and a retain pass removes nothing that was alive when it looked.
 */
module LeaseFates {
  import opened Sequences
  import opened LeaseModel
  import opened LeaseProtocol
  import opened LeaseSafety
  import opened LeaseTheorems
  import opened LeaseOrphans
  import opened LeaseEffects

  // ---------------------------------------------------------------------------------------
  // A release does what its caller said
  // ---------------------------------------------------------------------------------------

  /** Whatever `r` is still doing, it gives `id` back with this flag. */
  ghost predicate GivingBack(s: State, r: ReqId, id: LeaseId, abnormal: bool) {
    r in s.reqs ==>
      && (s.reqs[r].Returning? || s.reqs[r].Releasing?)
      && s.reqs[r].lease == id && s.reqs[r].abnormal == abnormal
  }

  lemma OwnStepGivesBack(s: State, step: Step, t: State, r: ReqId, id: LeaseId, abnormal: bool)
    requires Ledger(s, step, t) && GivingBack(s, r, id, abnormal) && step.r == r && !step.Lookup?
    ensures GivingBack(t, r, id, abnormal)
  {
    hide Counts, Found, Tried;
  }

  lemma StepGivesBack(s: State, step: Step, r: ReqId, id: LeaseId, abnormal: bool)
    requires Structure(s) && Enabled(s, step) && GivingBack(s, r, id, abnormal)
    requires step.Lookup? ==> step.r != r
    ensures GivingBack(Apply(s, step), r, id, abnormal)
  {
    hide Structure, Enabled, ApplyRequest, ApplyBackground, Ledger;
    var t := Apply(s, step);
    if !RequestStep(step) {
      BackgroundBooks(s, step);
    } else {
      RequestLedger(s, step);
      if step.r == r {
        OwnStepGivesBack(s, step, t, r, id, abnormal);
      } else {
        OneRequestMoves(s, step, t);
      }
    }
  }

  lemma {:induction false} RunGivesBack(s: State, steps: seq<Step>, t: State, r: ReqId, id: LeaseId, abnormal: bool)
    requires Runs(s, steps, t) && GivingBack(s, r, id, abnormal)
    requires forall i :: 0 <= i < |steps| && steps[i].Lookup? ==> steps[i].r != r
    ensures GivingBack(t, r, id, abnormal)
    decreases |steps|
  {
    hide Structure, Enabled, Apply, GivingBack;
    if steps != [] {
      StepGivesBack(s, steps[0], r, id, abnormal);
      RunGivesBack(Apply(s, steps[0]), steps[1..], t, r, id, abnormal);
    }
  }

  /** Nobody can get at `id` any more. */
  ghost predicate OutOfUse(s: State, id: LeaseId) {
    && id in s.store && s.store[id].exited && id !in s.mapped && !Owned(s.reqs, id)
    && forall p :: p in s.idle ==> id !in s.idle[p]
  }

  /** `id` waits at the end of its pool's idle list `before + [id]` for the next request. */
  ghost predicate Ready(s: State, id: LeaseId, before: seq<LeaseId>) {
    && id in s.store && id in s.mapped && s.store[id].available && !s.store[id].exited && !Owned(s.reqs, id)
    && id in s.home && s.home[id] in s.idle && s.idle[s.home[id]] == before + [id]
  }

  /** Every other lease and every other list is as it was. */
  ghost predicate OnlyLease(s: State, t: State, id: LeaseId) {
    && t.store.Keys == s.store.Keys && (forall x :: x in s.store && x != id ==> t.store[x] == s.store[x])
    && (forall x :: x in s.store && x != id ==> (x in t.mapped <==> x in s.mapped))
    && t.idle.Keys == s.idle.Keys
    && (forall p :: p in s.idle && id in s.home && s.home[id] != p ==> t.idle[p] == s.idle[p])
  }

  /** The last section of a release, when `r` has `id` back with the flag. */
  lemma ReleaseEnds(s: State, r: ReqId)
    requires Inv(s) && Enabled(s, ReleaseApply(r))
    ensures var Releasing(p, id, abnormal) := s.reqs[r]; var t := Apply(s, ReleaseApply(r));
            && id in s.store && p in s.idle && OnlyLease(s, t, id) && t.reqs == s.reqs - {r}
            && if abnormal || !s.store[id].reusable || id !in s.mapped then OutOfUse(t, id) && t.idle[p] == s.idle[p]
               else Ready(t, id, s.idle[p])
  {
    hide Heap, Directory, Requests, Exclusive, Tracked, Guarded, Apply, Frees, Kills, Becomes, IdleBecomes, Does,
      OutOfUse, Ready, OnlyLease, Owned;
    var Releasing(p, id, abnormal) := s.reqs[r];
    var t := Apply(s, ReleaseApply(r));
    Basics(s);
    RequestBasics(s, r);
    StepKeeps(s, ReleaseApply(r));
    StepDoes(s, ReleaseApply(r));
    ApplyLedger(s, r);
    NobodyElse(s, r);
    SameLeaseKeys(s, r);
    ReleaseTouches(s, r, t);
    if abnormal || !s.store[id].reusable || id !in s.mapped {
      ReleasedIsOut(s, r, t);
    } else {
      ReleasedIsReady(s, r, t);
    }
  }

  lemma ApplyLedger(s: State, r: ReqId)
    requires Structure(s) && Enabled(s, ReleaseApply(r))
    ensures var t := Apply(s, ReleaseApply(r)); t.reqs == s.reqs - {r} && t.home == s.home
  {
    hide Structure, ApplyRequest;
    RequestLedger(s, ReleaseApply(r));
  }

  /** The lease is `r`'s alone. */
  lemma NobodyElse(s: State, r: ReqId)
    requires Exclusive(s.store, s.idle, s.reqs, s.watch) && r in s.reqs && HasLease(s.reqs[r])
    ensures !Owned(s.reqs - {r}, s.reqs[r].lease)
  {
  }

  lemma SameLeaseKeys(s: State, r: ReqId)
    requires Inv(s) && Enabled(s, ReleaseApply(r))
    ensures var t := Apply(s, ReleaseApply(r)); t.store.Keys == s.store.Keys && t.idle.Keys == s.idle.Keys
  {
    hide Heap, Directory, Requests, Exclusive, Tracked, Guarded, Release, WellFormed;
    Basics(s);
    RequestBasics(s, r);
    OwnedIsNotIdle(s, r);
    HeapView(s.store, s.home, s.mapped, s.idle, s.reqs[r].pool);
    ReleaseKeeps(View(s, s.reqs[r].pool), s.reqs[r].lease, s.reqs[r].abnormal);
  }

  /** A release touches its own lease and its own pool. */
  lemma ReleaseTouches(s: State, r: ReqId, t: State)
    requires r in s.reqs && s.reqs[r].Releasing? && Does(s, ReleaseApply(r), t)
    requires t.store.Keys == s.store.Keys && t.idle.Keys == s.idle.Keys
    requires s.reqs[r].lease in s.home && s.home[s.reqs[r].lease] == s.reqs[r].pool
    ensures OnlyLease(s, t, s.reqs[r].lease)
  {
    hide FirstClaimable, Dead, Loses;
  }

  lemma ReleasedIsOut(s: State, r: ReqId, t: State)
    requires Inv(t) && r in s.reqs && s.reqs[r].Releasing? && Does(s, ReleaseApply(r), t)
    requires s.reqs[r].lease in s.store && s.reqs[r].lease in s.home && s.reqs[r].pool in s.idle
    requires s.reqs[r].abnormal || !s.store[s.reqs[r].lease].reusable || s.reqs[r].lease !in s.mapped
    requires !Owned(t.reqs, s.reqs[r].lease)
    ensures OutOfUse(t, s.reqs[r].lease) && t.idle[s.reqs[r].pool] == s.idle[s.reqs[r].pool]
  {
    hide Directory, Requests, Exclusive, Tracked, Guarded, FirstClaimable, Dead, Loses, Owned, Becomes;
  }

  lemma ReleasedIsReady(s: State, r: ReqId, t: State)
    requires Inv(t) && r in s.reqs && s.reqs[r].Releasing? && Does(s, ReleaseApply(r), t) && t.home == s.home
    requires s.reqs[r].lease in s.mapped && s.reqs[r].lease in s.store && s.reqs[r].lease in s.home
    requires s.reqs[r].pool in s.idle && s.home[s.reqs[r].lease] == s.reqs[r].pool
    requires !s.reqs[r].abnormal && s.store[s.reqs[r].lease].reusable
    requires !Owned(t.reqs, s.reqs[r].lease)
    ensures Ready(t, s.reqs[r].lease, s.idle[s.reqs[r].pool])
  {
    hide Directory, Requests, Exclusive, Tracked, Guarded, FirstClaimable, Dead, Loses, Owned;
  }

  /** Out of use after an abnormal release or if it cannot be reused or is gone already, else ready for the next. */
  ghost predicate Honoured(t: State, u: State, id: LeaseId, abnormal: bool) {
    && id in t.store && id in t.home && t.home[id] in t.idle && OnlyLease(t, u, id)
    && if abnormal || !t.store[id].reusable || id !in t.mapped then OutOfUse(u, id)
       else Ready(u, id, t.idle[t.home[id]])
  }

  /**
   The flag a caller gives with a release decides the lease's fate, whatever runs until the pool takes
   it back: an abnormal release, or that of a lease that cannot be reused, ends it, and any other makes
   it the last of the idle list.  A lease that was destroyed meanwhile stays so.
   */
  lemma ReleaseIsHonoured(s: State, r: ReqId, id: LeaseId, abnormal: bool, steps: seq<Step>, t: State)
    requires Inv(s) && r in s.reqs && s.reqs[r] == Holding(id) && Follows(s, ReleaseBegin(r, abnormal), steps, t)
    requires forall i :: 0 <= i < |steps| && steps[i].Lookup? ==> steps[i].r != r
    requires Enabled(t, ReleaseApply(r))
    ensures Inv(t) && EndsHonoured(t, r, id, abnormal)
  {
    hide Inv, Structure, Apply, Runs, OutOfUse, Ready, OnlyLease;
    BeginGivesBack(s, r, abnormal);
    StepKeeps(s, ReleaseBegin(r, abnormal));
    RunKeeps(Apply(s, ReleaseBegin(r, abnormal)), steps, t);
    RunGivesBack(Apply(s, ReleaseBegin(r, abnormal)), steps, t, r, id, abnormal);
    InvStructure(t);
    Basics(t);
    RequestBasics(t, r);
    ReleaseEnds(t, r);
  }

  /** `steps` lead from the state after `step` to `t`. */
  ghost predicate Follows(s: State, step: Step, steps: seq<Step>, t: State) {
    Structure(s) && Enabled(s, step) && Runs(Apply(s, step), steps, t)
  }

  ghost predicate EndsHonoured(t: State, r: ReqId, id: LeaseId, abnormal: bool) {
    && Structure(t) && Enabled(t, ReleaseApply(r))
    && Honoured(t, Apply(t, ReleaseApply(r)), id, abnormal)
  }

  lemma BeginGivesBack(s: State, r: ReqId, abnormal: bool)
    requires Structure(s) && Enabled(s, ReleaseBegin(r, abnormal))
    ensures GivingBack(Apply(s, ReleaseBegin(r, abnormal)), r, s.reqs[r].lease, abnormal)
  {
    hide Structure, ApplyRequest;
    RequestLedger(s, ReleaseBegin(r, abnormal));
  }

  // ---------------------------------------------------------------------------------------
  // A destroyed lease never comes back
  // ---------------------------------------------------------------------------------------

  ghost predicate Gone(s: State, id: LeaseId) {
    id in s.home && id !in s.mapped && !Owned(s.reqs, id)
  }

  /** A request gets a lease only from a leaseMap, from the scheduler, or because it had it. */
  lemma WhereLeasesComeFrom(s: State, step: Step, t: State, r: ReqId)
    requires Ledger(s, step, t) && r in t.reqs && HasLease(t.reqs[r])
    ensures t.reqs[r].lease in s.mapped || t.reqs[r].lease !in s.home
            || (r in s.reqs && HasLease(s.reqs[r]) && s.reqs[r].lease == t.reqs[r].lease)
  {
    hide Counts;
  }

  lemma RequestKeepsGone(s: State, step: Step, t: State, id: LeaseId)
    requires Ledger(s, step, t) && Gone(s, id)
    ensures Gone(t, id)
  {
    hide Ledger;
    LookupAddsNoLease(s, step, t);
    forall r | r in t.reqs && HasLease(t.reqs[r]) ensures t.reqs[r].lease != id {
      WhereLeasesComeFrom(s, step, t, r);
    }
  }

  lemma StepKeepsGone(s: State, step: Step, id: LeaseId)
    requires Structure(s) && Enabled(s, step) && Gone(s, id)
    ensures Gone(Apply(s, step), id)
  {
    hide Structure, Enabled, ApplyRequest, ApplyBackground, Ledger, Owned;
    if RequestStep(step) {
      RequestLedger(s, step);
      RequestKeepsGone(s, step, Apply(s, step), id);
    } else {
      BackgroundBooks(s, step);
    }
  }

  lemma {:induction false} RunKeepsGone(s: State, steps: seq<Step>, t: State, id: LeaseId)
    requires Runs(s, steps, t) && Gone(s, id)
    ensures Gone(t, id)
    decreases |steps|
  {
    hide Structure, Enabled, Apply, Gone;
    if steps != [] {
      StepKeepsGone(s, steps[0], id);
      RunKeepsGone(Apply(s, steps[0]), steps[1..], t, id);
    }
  }

  lemma GoneIsOutOfUse(s: State, id: LeaseId)
    requires Inv(s) && Gone(s, id)
    ensures OutOfUse(s, id)
  {
    hide Directory, Requests, Exclusive, Tracked, Guarded, Owned;
  }

  /** A lease that is out of use stays so in every continuation: nobody is ever handed it again. */
  lemma OutOfUseForGood(s: State, steps: seq<Step>, t: State, id: LeaseId)
    requires Inv(s) && OutOfUse(s, id) && Runs(s, steps, t)
    ensures OutOfUse(t, id)
  {
    hide Runs, Heap, Directory, Requests, Exclusive, Tracked, Guarded, Owned;
    Basics(s);
    RunKeepsGone(s, steps, t, id);
    RunKeeps(s, steps, t);
    GoneIsOutOfUse(t, id);
  }

  // ---------------------------------------------------------------------------------------
  // Expiry loops
  // ---------------------------------------------------------------------------------------

  /** What a step does to the expiry loop of a lease. */
  ghost predicate LoopBecomes(s: State, step: Step, id: LeaseId, watch: map<LeaseId, Watch>)
    requires id in s.watch
  {
    if step == WatchRemove(id) then id !in watch
    else
      && id in watch
      && watch[id] == if step == IdleTimer(id) && id in s.store && s.store[id].available then Condemned(true)
                      else if step == WatchStop(id) then Condemned(false)
                      else s.watch[id]
  }

  /** The pools whose loops a step tells to stop. */
  function Stops(s: State, step: Step): set<PoolId> {
    if step.ClearEmpty? && step.key in s.registry then {s.registry[step.key]}
    else if step.ClearFunction? || step.EndLoop? then s.registry.Values
    else {}
  }

  ghost predicate LoopsDo(s: State, step: Step, t: State) {
    && t.stopped == s.stopped + Stops(s, step)
    && (forall id :: id in s.watch ==> LoopBecomes(s, step, id, t.watch))
    && (forall id :: id in t.watch && id !in s.watch ==> step.FetchOk? && step.id == id && t.watch[id] == Watching)
  }

  /** Loops and stopped pools are as they were. */
  predicate SameLoops(s: State, t: State) {
    t.watch == s.watch && t.stopped == s.stopped
  }

  lemma SameLoopsDo(s: State, step: Step, t: State)
    requires SameLoops(s, t) && Stops(s, step) == {} && !step.WatchRemove? && !step.WatchStop?
    requires step.IdleTimer? ==> step.id in s.store && !s.store[step.id].available
    ensures LoopsDo(s, step, t)
  {
  }

  lemma LedgerLoops(s: State, step: Step, t: State)
    requires Ledger(s, step, t) && Enabled(s, step) && (step.FetchOk? ==> step.id !in s.watch)
    ensures LoopsDo(s, step, t)
  {
    hide Counts, Found, Tried, Clearable;
  }

  lemma RequestLoops(s: State, step: Step)
    requires Structure(s) && Enabled(s, step) && RequestStep(step)
    ensures LoopsDo(s, step, Apply(s, step))
  {
    hide Heap, Directory, Requests, LoopsDo, Clearable, ApplyRequest, Ledger;
    RequestLedger(s, step);
    LedgerLoops(s, step, Apply(s, step));
  }

  lemma TimerLoops(s: State, id: LeaseId)
    requires id in s.store && id in s.watch
    ensures LoopsDo(s, IdleTimer(id), DoIdleTimer(s, id))
  {
  }

  lemma RemoveLoops(s: State, id: LeaseId)
    requires id in s.home && s.home[id] in s.idle && s.mapped <= s.store.Keys
    ensures LoopsDo(s, WatchRemove(id), DoWatchRemove(s, id))
  {
    hide Purge;
  }

  lemma AnswerLoops(s: State, key: PoolKey, id: LeaseId, reacquire: bool, scheduler: string)
    requires (key in s.registry ==> s.registry[key] in s.idle) && s.mapped <= s.store.Keys
    ensures SameLoops(s, DoDecrease(s, key, id)) && SameLoops(s, DoRenew(s, key, id, reacquire, scheduler))
  {
    hide Purge;
  }

  lemma PurgeLoops(s: State, id: LeaseId)
    requires s.exits.Some? && s.mapped <= s.store.Keys && (id in s.index ==> s.index[id] in s.idle)
    ensures SameLoops(s, DoPurgeExit(s, id))
  {
    hide Purge;
    var t := DoPurgeExit(s, id);
    if id in s.index {
      assert t == WithView(s, s.index[id], Purge(View(s, s.index[id]), {id})).(
        global := t.global, index := t.index, exits := t.exits);
    } else {
      assert t == s.(global := t.global, exits := t.exits);
    }
  }

  lemma PlainLoops(s: State, step: Step)
    requires Structure(s) && Enabled(s, step) && !RequestStep(step)
    requires step.WatchStop? || step.Collect? || step.BeginPurge? || step.EndPurge? || step.ClearEmpty?
             || step.ClearFunction? || step.EndLoop?
    ensures LoopsDo(s, step, Apply(s, step))
  {
    hide Heap, Directory, Requests, Clearable, DoIdleTick, DoIdleTimer, DoWatchRemove, DoDecrease, DoRenew, DoPurgeExit;
  }

  lemma BackgroundLoops(s: State, step: Step)
    requires Structure(s) && Enabled(s, step) && !RequestStep(step)
    ensures LoopsDo(s, step, Apply(s, step))
  {
    hide Heap, Directory, Requests, LoopsDo, SameLoops, Clearable, DoIdleTick, DoIdleTimer, DoWatchRemove, DoDecrease,
      DoRenew, DoPurgeExit;
    Basics(s);
    if step.IdleTimer? {
      TimerLoops(s, step.id);
    } else if step.WatchRemove? {
      RemoveLoops(s, step.id);
    } else if step.IdleTick? || step.Decrease? || step.Renew? || step.PurgeExit? {
      if step.IdleTick? {
        TickLoops(s, step.id);
      } else if step.Decrease? {
        AnswerLoops(s, step.key, step.id, false, "");
      } else if step.Renew? {
        AnswerLoops(s, step.key, step.id, step.reacquire, step.scheduler);
      } else {
        PurgeLoops(s, step.id);
      }
      SameLoopsDo(s, step, Apply(s, step));
    } else {
      PlainLoops(s, step);
    }
  }

  lemma TickLoops(s: State, id: LeaseId)
    requires id in s.store
    ensures SameLoops(s, DoIdleTick(s, id))
  {
  }

  lemma StepLoops(s: State, step: Step)
    requires Structure(s) && Enabled(s, step)
    ensures LoopsDo(s, step, Apply(s, step))
  {
    hide Structure, Enabled, LoopsDo, Apply;
    if RequestStep(step) {
      RequestLoops(s, step);
    } else {
      BackgroundLoops(s, step);
    }
  }

  // --- an expired lease ---

  lemma {:induction false} RunKeepsCondemned(s: State, steps: seq<Step>, t: State, id: LeaseId)
    requires Runs(s, steps, t) && id in s.watch && s.watch[id] == Condemned(true)
    requires forall i :: 0 <= i < |steps| ==> steps[i] != WatchRemove(id)
    ensures id in t.watch && t.watch[id] == Condemned(true)
    decreases |steps|
  {
    hide Structure, Apply;
    if steps != [] {
      StepLoops(s, steps[0]);
      assert LoopBecomes(s, steps[0], id, Apply(s, steps[0]).watch);
      RunKeepsCondemned(Apply(s, steps[0]), steps[1..], t, id);
    }
  }

  /**
   An idle lease whose timer fires is nobody's from then on, in every run, until its loop removes it;
   and then it is out of use.
   */
  lemma ExpiredLeaseIsGone(s: State, id: LeaseId, steps: seq<Step>, t: State)
    requires Inv(s) && Enabled(s, IdleTimer(id)) && id in s.store && s.store[id].available
    requires Runs(Apply(s, IdleTimer(id)), steps, t)
    requires forall i :: 0 <= i < |steps| ==> steps[i] != WatchRemove(id)
    ensures Inv(t) && !Owned(t.reqs, id) && id in t.store && !t.store[id].available && Enabled(t, WatchRemove(id))
    ensures OutOfUse(Apply(t, WatchRemove(id)), id)
  {
    hide Heap, Directory, Requests, Exclusive, Tracked, Guarded, Apply, Runs, OutOfUse, Owned, LoopsDo;
    StepKeeps(s, IdleTimer(id));
    StepLoops(s, IdleTimer(id));
    LoopOf(s, IdleTimer(id), Apply(s, IdleTimer(id)), id);
    RunKeepsCondemned(Apply(s, IdleTimer(id)), steps, t, id);
    RunKeeps(Apply(s, IdleTimer(id)), steps, t);
    CondemnedIsNobodys(t, id);
    LoopRemoves(t, id);
  }

  lemma LoopOf(s: State, step: Step, t: State, id: LeaseId)
    requires LoopsDo(s, step, t) && id in s.watch
    ensures LoopBecomes(s, step, id, t.watch)
  {
  }

  lemma CondemnedIsNobodys(s: State, id: LeaseId)
    requires Exclusive(s.store, s.idle, s.reqs, s.watch) && id in s.watch && s.watch[id] == Condemned(true)
    ensures !Owned(s.reqs, id) && id in s.store && !s.store[id].available
  {
  }

  /** A loop that ends takes its lease out of use, unless a request has it. */
  lemma LoopRemoves(s: State, id: LeaseId)
    requires Inv(s) && Enabled(s, WatchRemove(id)) && !Owned(s.reqs, id)
    ensures OutOfUse(Apply(s, WatchRemove(id)), id)
  {
    hide Heap, Directory, Requests, Exclusive, Tracked, Guarded, Apply, Owned, Becomes, IdleBecomes;
    Basics(s);
    StepDoes(s, WatchRemove(id));
    StepKeeps(s, WatchRemove(id));
    BackgroundAside(s, WatchRemove(id));
    GoneIsOutOfUse(Apply(s, WatchRemove(id)), id);
  }

  lemma BackgroundAside(s: State, step: Step)
    requires Structure(s) && Enabled(s, step) && !RequestStep(step)
    ensures Apply(s, step).reqs == s.reqs && Apply(s, step).home == s.home
  {
    hide Structure, Enabled, ApplyBackground;
    BackgroundBooks(s, step);
  }

  // --- a held lease ---

  /** A loop stops without having taken its lease only if the lease is dead or its pool was stopped. */
  ghost predicate StoppedForAReason(s: State) {
    forall id :: id in s.watch && s.watch[id] == Condemned(false) ==>
      id in s.store && id in s.home && (s.store[id].exited || s.home[id] in s.stopped)
  }

  lemma ReasonOf(s: State, step: Step, t: State, id: LeaseId)
    requires StoppedForAReason(s) && Enabled(s, step) && LoopsDo(s, step, t) && id in t.watch
    requires id in s.store ==> id in t.store && (s.store[id].exited ==> t.store[id].exited)
    requires id in s.home ==> id in t.home && t.home[id] == s.home[id]
    requires t.watch[id] == Condemned(false)
    ensures id in t.store && id in t.home && (t.store[id].exited || t.home[id] in t.stopped)
  {
    hide Clearable;
    if id in s.watch {
      assert LoopBecomes(s, step, id, t.watch);
    }
  }

  lemma ExitIsFinal(s: State, step: Step, t: State, id: LeaseId)
    requires Does(s, step, t) && id in s.store && s.store[id].exited
    ensures id in t.store && t.store[id].exited
  {
    hide FirstClaimable, IdleBecomes;
    assert Becomes(s, step, id, t.store[id]);
  }

  lemma HomesStay(s: State, step: Step)
    requires Structure(s) && Enabled(s, step)
    ensures forall id :: id in s.home ==> id in Apply(s, step).home && Apply(s, step).home[id] == s.home[id]
  {
    hide Structure, Enabled, ApplyRequest, ApplyBackground, Ledger;
    if RequestStep(step) {
      RequestLedger(s, step);
      RequestHomes(s, step, Apply(s, step));
    } else {
      BackgroundBooks(s, step);
    }
  }

  lemma RequestHomes(s: State, step: Step, t: State)
    requires Ledger(s, step, t)
    ensures forall id :: id in s.home ==> id in t.home && t.home[id] == s.home[id]
  {
    hide Counts, Found, Tried;
  }

  lemma StepKeepsReason(s: State, step: Step)
    requires Inv(s) && Enabled(s, step) && StoppedForAReason(s)
    ensures StoppedForAReason(Apply(s, step))
  {
    hide Inv, Structure, Enabled, Apply, Becomes, LoopsDo, StoppedForAReason;
    InvStructure(s);
    var t := Apply(s, step);
    StepDoes(s, step);
    StepLoops(s, step);
    HomesStay(s, step);
    forall id | id in t.watch && t.watch[id] == Condemned(false)
      ensures id in t.store && id in t.home && (t.store[id].exited || t.home[id] in t.stopped)
    {
      if id in s.store && s.store[id].exited {
        ExitIsFinal(s, step, t, id);
      }
      ReasonOf(s, step, t, id);
    }
    ReasonsMake(t);
  }

  lemma ReasonsMake(t: State)
    requires forall id :: id in t.watch && t.watch[id] == Condemned(false) ==>
               id in t.store && id in t.home && (t.store[id].exited || t.home[id] in t.stopped)
    ensures StoppedForAReason(t)
  {
  }

  lemma {:induction false} RunKeepsReason(s: State, steps: seq<Step>, t: State)
    requires Inv(s) && StoppedForAReason(s) && Runs(s, steps, t)
    ensures Inv(t) && StoppedForAReason(t)
    decreases |steps|
  {
    hide Inv, Structure, Enabled, Apply, StoppedForAReason;
    if steps != [] {
      StepKeepsReason(s, steps[0]);
      StepKeeps(s, steps[0]);
      RunKeepsReason(Apply(s, steps[0]), steps[1..], t);
    }
  }

  lemma HeldIsNotTaken(s: State, r: ReqId)
    requires Inv(s) && r in s.reqs && HasLease(s.reqs[r])
    ensures var id := s.reqs[r].lease;
            && id in s.store && (id in s.watch ==> s.watch[id] != Condemned(true))
            && (id in s.mapped ==> !s.store[id].exited)
  {
    hide Directory, Requests, Tracked, Guarded;
  }

  /** The expiry loop of a lease that a request has cannot remove it while the lease lives and its pool runs. */
  lemma HeldLeaseOutlivesItsLoop(steps: seq<Step>, t: State, r: ReqId)
    requires Runs(INIT, steps, t) && r in t.reqs && HasLease(t.reqs[r])
    requires var id := t.reqs[r].lease; id in t.mapped && id in t.home && t.home[id] !in t.stopped
    ensures !Enabled(t, WatchRemove(t.reqs[r].lease)) && !Enabled(t, WatchStop(t.reqs[r].lease))
  {
    hide Runs, Inv;
    InitHolds();
    RunKeepsReason(INIT, steps, t);
    HeldIsNotTaken(t, r);
  }

  /** Deleting a function, and clearing a pool, lets the loop of every lease of its pools end at any later time. */
  lemma {:induction false} StoppedPoolsStayStopped(s: State, steps: seq<Step>, t: State)
    requires Runs(s, steps, t)
    ensures s.stopped <= t.stopped
    decreases |steps|
  {
    hide Structure, Enabled, Apply;
    if steps != [] {
      StepLoops(s, steps[0]);
      StoppedPoolsStayStopped(Apply(s, steps[0]), steps[1..], t);
    }
  }

  lemma DeletedFunctionLetsGo(s: State, steps: seq<Step>, t: State, key: PoolKey, id: LeaseId)
    requires Inv(s) && Enabled(s, ClearFunction) && key in s.registry && Runs(Apply(s, ClearFunction), steps, t)
    requires id in t.watch && id in t.home && t.home[id] == s.registry[key]
    ensures t.watch[id].Watching? ==> Enabled(t, WatchStop(id))
    ensures t.watch[id].Condemned? ==> Enabled(t, WatchRemove(id))
  {
    hide Runs, Apply, Structure, Exclusive, Tracked, Guarded, LoopBecomes, Clearable;
    StepKeeps(s, ClearFunction);
    StepLoops(s, ClearFunction);
    RunKeeps(Apply(s, ClearFunction), steps, t);
    StoppedPoolsStayStopped(Apply(s, ClearFunction), steps, t);
    assert s.registry[key] in t.stopped;
    Basics(t);
  }

  // ---------------------------------------------------------------------------------------
  // A retain pass removes nothing that was alive when it looked
  // ---------------------------------------------------------------------------------------

  ghost predicate ExitsWithin(s: State, dead: set<LeaseId>) {
    s.exits.Some? && s.exits.value <= dead
  }

  lemma LoopKeepsWithin(s: State, step: Step, dead: set<LeaseId>)
    requires Structure(s) && Enabled(s, step) && !RequestStep(step) && !LeaseStep(step)
    requires !step.PurgeExit? && !step.EndPurge? && ExitsWithin(s, dead)
    ensures ExitsWithin(ApplyBackground(s, step), dead)
  {
    hide Heap, Directory, Requests, Clearable, DoIdleTick, DoIdleTimer, DoWatchRemove, DoDecrease, DoRenew, DoPurgeExit;
  }

  lemma StepKeepsWithin(s: State, step: Step, dead: set<LeaseId>)
    requires Structure(s) && Enabled(s, step) && !step.EndPurge? && ExitsWithin(s, dead)
    ensures ExitsWithin(Apply(s, step), dead)
  {
    hide Structure, Enabled, ApplyRequest, ApplyBackground;
    if RequestStep(step) {
      RequestLedger(s, step);
    } else if LeaseStep(step) {
      LeaseStepOnly(s, step);
    } else if step.PurgeExit? {
      PurgeExitRemoves(s, step.id);
    } else {
      LoopKeepsWithin(s, step, dead);
    }
  }

  lemma {:induction false} RunKeepsWithin(s: State, steps: seq<Step>, t: State, dead: set<LeaseId>)
    requires Runs(s, steps, t) && ExitsWithin(s, dead) && forall i :: 0 <= i < |steps| ==> !steps[i].EndPurge?
    ensures ExitsWithin(t, dead)
    decreases |steps|
  {
    hide Structure, Enabled, Apply, ExitsWithin;
    if steps != [] {
      StepKeepsWithin(s, steps[0], dead);
      RunKeepsWithin(Apply(s, steps[0]), steps[1..], t, dead);
    }
  }

  /** A lease that was alive and reusable at the snapshot of a pass, or not listed, is not removed by it. */
  lemma PassSparesTheLiving(s: State, steps: seq<Step>, t: State, id: LeaseId)
    requires Inv(s) && Enabled(s, Collect) && Runs(Apply(s, Collect), steps, t)
    requires forall i :: 0 <= i < |steps| ==> !steps[i].EndPurge?
    requires id !in s.global || (id in s.store && s.store[id].reusable && !s.store[id].exited)
    ensures !Enabled(t, PurgeExit(id))
  {
    hide Runs, Heap, Directory, Requests, Exclusive, Tracked, Guarded;
    Basics(s);
    RunKeepsWithin(Apply(s, Collect), steps, t, Apply(s, Collect).exits.value);
  }

  // ---------------------------------------------------------------------------------------
  // Every use is counted
  // ---------------------------------------------------------------------------------------

  /** A live lease has a claim time exactly while it is claimed. */
  ghost predicate Timed(s: State) {
    forall id :: id in s.mapped && id in s.store ==> (s.store[id].timed <==> !s.store[id].available)
  }

  lemma TimedLease(s: State, step: Step, t: State, id: LeaseId)
    requires Timed(s) && Does(s, step, t) && id in s.store && id in t.mapped
    ensures id in t.store && (t.store[id].timed <==> !t.store[id].available)
    ensures t.store[id].served == s.store[id].served + if Frees(s, step, id) && s.store[id].timed then 1 else 0
  {
    hide FirstClaimable, IdleBecomes;
    assert Becomes(s, step, id, t.store[id]);
  }

  lemma NewLeaseIsTimed(s: State, step: Step, id: LeaseId)
    requires Structure(s) && Enabled(s, step) && id !in s.store && id in Apply(s, step).mapped
    ensures id in Apply(s, step).store && Apply(s, step).store[id].timed && !Apply(s, step).store[id].available
  {
    hide Heap, Directory, Requests, Enabled, ApplyRequest, ApplyBackground, Ledger;
    Basics(s);
    if RequestStep(step) {
      RequestLedger(s, step);
      OnlyIssues(s, step, Apply(s, step), id);
      IssuedLease(s, step.r, step.id, step.reusable, step.sig, step.scheduler);
    } else {
      BackgroundBooks(s, step);
    }
  }

  lemma OnlyIssues(s: State, step: Step, t: State, id: LeaseId)
    requires Ledger(s, step, t) && id !in s.mapped && id in t.mapped
    ensures step.FetchOk? && step.id == id
  {
    hide Counts, Found, Tried;
  }

  lemma StepKeepsTimed(s: State, step: Step)
    requires Inv(s) && Enabled(s, step) && Timed(s)
    ensures Timed(Apply(s, step))
  {
    hide Inv, Structure, Enabled, Apply, Does;
    InvStructure(s);
    var t := Apply(s, step);
    StepDoes(s, step);
    forall id | id in t.mapped && id in t.store ensures t.store[id].timed <==> !t.store[id].available {
      if id in s.store {
        TimedLease(s, step, t, id);
      } else {
        NewLeaseIsTimed(s, step, id);
      }
    }
  }

  lemma {:induction false} RunKeepsTimed(s: State, steps: seq<Step>, t: State)
    requires Inv(s) && Timed(s) && Runs(s, steps, t)
    ensures Inv(t) && Timed(t)
    decreases |steps|
  {
    hide Inv, Structure, Enabled, Apply, Timed;
    if steps != [] {
      StepKeepsTimed(s, steps[0]);
      StepKeeps(s, steps[0]);
      RunKeepsTimed(Apply(s, steps[0]), steps[1..], t);
    }
  }

  /** How often a run puts `id` back for the next request. */
  ghost function Uses(s: State, steps: seq<Step>, id: LeaseId): nat
    decreases |steps|
  {
    if steps == [] || !Structure(s) || !Enabled(s, steps[0]) then 0
    else (if Frees(s, steps[0], id) then 1 else 0) + Uses(Apply(s, steps[0]), steps[1..], id)
  }

  lemma FreedIsHeld(s: State, step: Step, id: LeaseId)
    requires Inv(s) && Timed(s) && Frees(s, step, id)
    ensures s.store[id].timed
  {
    hide Structure, Tracked, Guarded;
  }

  lemma AliveBefore(s: State, step: Step, id: LeaseId)
    requires Inv(s) && Enabled(s, step) && id in s.store && id in Apply(s, step).mapped
    ensures id in s.mapped && id in Apply(s, step).store
  {
    hide Inv, Enabled, Apply, Becomes, IdleBecomes, Kills;
    StepDoes(s, step);
  }

  lemma {:induction false} ServedFrom(s: State, steps: seq<Step>, t: State, id: LeaseId)
    requires Inv(s) && Timed(s) && Runs(s, steps, t) && id in s.store && id in t.mapped
    ensures id in t.store && t.store[id].served == s.store[id].served + Uses(s, steps, id)
    decreases |steps|
  {
    hide Inv, Structure, Enabled, Apply, Does, Frees, Timed;
    if steps == [] {
      InvStructure(s);
      Basics(s);
    } else {
      var m := Apply(s, steps[0]);
      StepKeeps(s, steps[0]);
      StepKeepsTimed(s, steps[0]);
      StepDoes(s, steps[0]);
      DoesKeepsStore(s, steps[0], m, id);
      ServedFrom(m, steps[1..], t, id);
      MappedBefore(m, steps[1..], t, id);
      TimedLease(s, steps[0], m, id);
      if Frees(s, steps[0], id) {
        FreedIsHeld(s, steps[0], id);
      }
    }
  }

  lemma DoesKeepsStore(s: State, step: Step, t: State, id: LeaseId)
    requires Does(s, step, t) && id in s.store
    ensures id in t.store
  {
  }

  lemma {:induction false} MappedBefore(s: State, steps: seq<Step>, t: State, id: LeaseId)
    requires Inv(s) && Runs(s, steps, t) && id in s.store && id in t.mapped
    ensures id in s.mapped
    decreases |steps|
  {
    hide Inv, Structure, Enabled, Apply, Does;
    if steps != [] {
      StepKeeps(s, steps[0]);
      StepDoes(s, steps[0]);
      DoesKeepsStore(s, steps[0], Apply(s, steps[0]), id);
      MappedBefore(Apply(s, steps[0]), steps[1..], t, id);
      AliveBefore(s, steps[0], id);
    }
  }

  /** A live lease reports one served request for every release that put it back, in every run. */
  lemma ServedCountsTheUses(before: seq<Step>, s: State, steps: seq<Step>, t: State, id: LeaseId)
    requires Runs(INIT, before, s) && Runs(s, steps, t) && id in s.store && id in t.mapped
    ensures id in t.store && t.store[id].served == s.store[id].served + Uses(s, steps, id)
  {
    hide Runs, Uses, Inv;
    InitHolds();
    RunKeepsTimed(INIT, before, s);
    ServedFrom(s, steps, t, id);
  }
}
