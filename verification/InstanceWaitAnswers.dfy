/**
 What a waiter answers.  It answers with the instance exactly if it meets it where it looks, gives up
 only when its context ends, and while the instance is present and announced every step of its own
 brings it nearer to finding it.
 */
module InstanceWaitAnswers {
  import opened Sequences
  import opened InstanceWait
  import opened InstanceWaitTheorems

  /** waitInstanceByID has not returned. */
  predicate StillWaits(p: Proc) {
    p.Want? || p.Scan? || p.ScanEvicting? || p.Parked?
  }

  /** Evicting instances will do. */
  predicate Forced(p: Proc)
    requires StillWaits(p)
  {
    p.ScanEvicting? || p.force
  }

  /** In this step the waiter looks where `id` is: in a queue, among the route-only records or, forced, the evicting. */
  predicate Sees(s: State, step: Step, t: Thread, id: InstanceId, force: bool) {
    || (step.ReadQueue? && step.t == t && step.q in s.queues && id in s.queues[step.q])
    || (step == ReadHint(t) && id in s.hints)
    || (step == ReadEvicting(t) && force && id in s.evicting)
  }

  /** What the step makes of the waiter. */
  ghost predicate Answers(s: State, step: Step, t: Thread, s': State)
    requires t in s.procs && StillWaits(s.procs[t])
  {
    && t in s'.procs
    && (s'.procs[t] == Done(true) <==> Sees(s, step, t, s.procs[t].id, Forced(s.procs[t])))
    && (s'.procs[t] == Done(false) <==> step == Cancel(t))
    && (!s'.procs[t].Done? ==>
          && StillWaits(s'.procs[t]) && s'.procs[t].id == s.procs[t].id && Forced(s'.procs[t]) == Forced(s.procs[t])
          && (s'.procs[t] == s.procs[t] || (WaitStep(step) && step.t == t)))
  }

  /** Whose step it is; records are stored and dropped by nobody in particular. */
  function Mover(step: Step): Option<Thread> {
    if step.StoreHint? || step.DropHint? then None else Some(step.t)
  }

  /** A step leaves the processes of other threads alone. */
  lemma OthersStay(s: State, step: Step, t: Thread)
    requires Refs(s) && Enabled(s, step) && t in s.procs && Mover(step) != Some(t)
    ensures t in Apply(s, step).procs && Apply(s, step).procs[t] == s.procs[t]
  {
    hide HeapRefs, Add, Delete, Wait;
    if AddStep(step) {
      AddMovesOne(s, step);
    } else if DeleteStep(step) {
      DeleteMovesOne(s, step);
    } else if !OtherStep(step) {
      WaiterMoves(s, step);
    }
  }

  lemma OwnAnswer(s: State, step: Step)
    requires Refs(s) && Enabled(s, step) && WaitStep(step) && !step.BeginWait?
    ensures StillWaits(s.procs[step.t]) && Answers(s, step, step.t, Wait(s, step))
  {
    hide HeapRefs;
  }

  /**
   In every step a waiter answers "found" exactly if it looks where its instance is, gives up exactly if
   its context ends, and otherwise goes on waiting for the same instance in the same mode.
   */
  lemma AnswersExactly(s: State, step: Step, t: Thread)
    requires Refs(s) && Enabled(s, step) && t in s.procs && StillWaits(s.procs[t])
    ensures Answers(s, step, t, Apply(s, step))
  {
    hide Apply, Refs;
    if Mover(step) == Some(t) {
      OwnAnswer(s, step);
      ApplyIsWait(s, step);
    } else {
      OthersStay(s, step, t);
    }
  }

  /** A waiter that sleeps can be cancelled, and then answers without the instance. */
  lemma SleeperCanGiveUp(s: State, t: Thread)
    requires Refs(s) && t in s.procs && s.procs[t].Parked?
    ensures Enabled(s, Cancel(t)) && t in Apply(s, Cancel(t)).procs && Apply(s, Cancel(t)).procs[t] == Done(false)
  {
    hide Apply, Refs;
    AnswersExactly(s, Cancel(t), t);
  }

  lemma DoneStays(s: State, step: Step, t: Thread)
    requires Refs(s) && Enabled(s, step) && t in s.procs && s.procs[t].Done?
    ensures t in Apply(s, step).procs && Apply(s, step).procs[t] == s.procs[t]
  {
    hide Apply;
    OthersStay(s, step, t);
  }

  // ---------------------------------------------------------------------------------------
  // Over runs
  // ---------------------------------------------------------------------------------------

  /** Somewhere in the run the waiter looks where its instance is. */
  ghost predicate SeesIn(s: State, steps: seq<Step>, t: Thread, id: InstanceId, force: bool)
    decreases |steps|
  {
    steps != [] && Refs(s) && Enabled(s, steps[0])
    && (Sees(s, steps[0], t, id, force) || SeesIn(Apply(s, steps[0]), steps[1..], t, id, force))
  }

  lemma {:induction false} AnswerStays(s: State, steps: seq<Step>, s': State, t: Thread)
    requires Runs(s, steps, s') && t in s.procs && s.procs[t].Done?
    ensures t in s'.procs && s'.procs[t] == s.procs[t]
    decreases |steps|
  {
    hide Refs, Enabled, Apply;
    if steps != [] {
      DoneStays(s, steps[0], t);
      AnswerStays(Apply(s, steps[0]), steps[1..], s', t);
    }
  }

  /**
   Over every run a waiter that has answered "found" met its instance, one that has answered without it
   was cancelled, and any other still waits for that instance.
   */
  lemma {:induction false} AnswerIsJustified(s: State, steps: seq<Step>, s': State, t: Thread)
    requires Runs(s, steps, s') && t in s.procs && StillWaits(s.procs[t])
    ensures t in s'.procs
    ensures s'.procs[t] == Done(true) ==> SeesIn(s, steps, t, s.procs[t].id, Forced(s.procs[t]))
    ensures s'.procs[t] == Done(false) ==> Cancel(t) in steps
    ensures !s'.procs[t].Done? ==>
              StillWaits(s'.procs[t]) && s'.procs[t].id == s.procs[t].id && Forced(s'.procs[t]) == Forced(s.procs[t])
    decreases |steps|
  {
    hide Refs, Enabled, Apply, Sees;
    if steps != [] {
      AnswersExactly(s, steps[0], t);
      var m := Apply(s, steps[0]);
      if m.procs[t].Done? {
        AnswerStays(m, steps[1..], s', t);
        assert steps[0] in steps;
      } else {
        AnswerIsJustified(m, steps[1..], s', t);
        assert forall x :: x in steps[1..] ==> x in steps;
      }
    }
  }

  // ---------------------------------------------------------------------------------------
  // A present instance is found
  // ---------------------------------------------------------------------------------------

  /** The instance can be found and nobody has still to say so. */
  ghost predicate There(s: State, id: InstanceId, force: bool) {
    Present(s, id, force) && Announced(s, id)
  }

  /** How far the waiter is: asleep, before the mutex, looking, looking among the evicting. */
  function Stage(p: Proc): nat {
    if p.Parked? then 3 else if p.Want? then 2 else if p.Scan? then 1 else 0
  }

  /** Later in the loop, or with less to look at. */
  predicate Nearer(now: Proc, was: Proc) {
    || Stage(now) < Stage(was)
    || (now.Scan? && was.Scan? && (now.maps < was.maps || (now.maps == was.maps && now.queues < was.queues)))
  }

  /** A waiter on a present and announced instance sleeps on no open channel and has passed it nowhere. */
  lemma OnTrack(s: State, t: Thread)
    requires Inv(s) && t in s.procs && StillWaits(s.procs[t]) && There(s, s.procs[t].id, Forced(s.procs[t]))
    ensures var p := s.procs[t];
            && (p.Parked? ==> p.ch < s.gen)
            && (p.Scan? && p.maps == {} && p.queues == {} ==> p.force && p.id in s.evicting)
            && (p.ScanEvicting? ==> p.id in s.evicting)
  {
    hide Refs, Named, Locked;
    assert Watched(s, s.procs[t]);
    if f, r, m, q :| Holds(s, f, r, m, q, s.procs[t].id) {
      assert !Pending(s.procs, Written(InQueue(q), s.procs[t].id));
    }
    assert !Pending(s.procs, Written(InEvicting, s.procs[t].id));
  }

  lemma OwnProgress(s: State, step: Step)
    requires Inv(s) && Enabled(s, step) && WaitStep(step) && !step.BeginWait? && !step.Cancel?
    requires StillWaits(s.procs[step.t]) && There(s, s.procs[step.t].id, Forced(s.procs[step.t]))
    ensures var p := Wait(s, step).procs[step.t]; p == Done(true) || (StillWaits(p) && Nearer(p, s.procs[step.t]))
  {
    hide HeapRefs, Named, Locked, Watched, There;
    OnTrack(s, step.t);
    var p := s.procs[step.t];
    if step.OpenMap? {
      assert step.m in p.maps;
    } else if step.ReadQueue? {
      assert step.q in p.queues;
    }
  }

  /** Every step of its own but a cancellation answers or brings the waiter nearer; other steps leave it alone. */
  lemma StepBringsNearer(s: State, step: Step, t: Thread)
    requires Inv(s) && Enabled(s, step) && t in s.procs && StillWaits(s.procs[t]) && step != Cancel(t)
    requires There(s, s.procs[t].id, Forced(s.procs[t]))
    ensures t in Apply(s, step).procs
    ensures var p := Apply(s, step).procs[t];
            if Mover(step) == Some(t) then p == Done(true) || (StillWaits(p) && Nearer(p, s.procs[t]))
            else p == s.procs[t]
  {
    hide Named, Locked, There, Nearer;
    AnswersExactly(s, step, t);
    if Mover(step) == Some(t) {
      OwnProgress(s, step);
    } else {
      hide Apply, Refs;
      OthersStay(s, step, t);
    }
  }

  /** In every state of the run the instance is present and announced. */
  ghost predicate StaysThere(s: State, steps: seq<Step>, id: InstanceId, force: bool)
    decreases |steps|
  {
    && There(s, id, force)
    && (steps != [] && Refs(s) && Enabled(s, steps[0]) ==> StaysThere(Apply(s, steps[0]), steps[1..], id, force))
  }

  /** The waiter has an enabled step, or somebody else has the mutex it wants. */
  ghost predicate CanMove(s: State, t: Thread) {
    || (exists step :: WaitStep(step) && !step.BeginWait? && !step.Cancel? && step.t == t && Enabled(s, step))
    || (t in s.procs && s.procs[t].Want? && s.holder.Some?)
  }

  lemma HasAStep(s: State, t: Thread, step: Step)
    requires WaitStep(step) && !step.BeginWait? && !step.Cancel? && step.t == t && Enabled(s, step)
    ensures CanMove(s, t)
  {
  }

  lemma NeverStuck(s: State, t: Thread)
    requires Inv(s) && t in s.procs && StillWaits(s.procs[t]) && There(s, s.procs[t].id, Forced(s.procs[t]))
    ensures CanMove(s, t)
  {
    hide Refs, Named, Locked, Watched, There, CanMove;
    OnTrack(s, t);
    match s.procs[t]
    case Parked(_, _, _) => HasAStep(s, t, Wake(t));
    case Want(_, _) =>
      if s.holder == None {
        HasAStep(s, t, Lock(t));
      } else {
        WantsTheMutex(s, t);
      }
    case Scan(_, _, maps, queues) =>
      if maps != {} {
        var m :| m in maps;
        HasAStep(s, t, OpenMap(t, m));
      } else if queues != {} {
        var q :| q in queues;
        HasAStep(s, t, ReadQueue(t, q));
      } else {
        HasAStep(s, t, ReadHint(t));
      }
    case ScanEvicting(_) => HasAStep(s, t, ReadEvicting(t));
  }

  lemma WantsTheMutex(s: State, t: Thread)
    requires t in s.procs && s.procs[t].Want? && s.holder.Some?
    ensures CanMove(s, t)
  {
  }

  /** A waiter that has begun to look, or never slept, does not fall asleep again. */
  predicate NoFurther(now: Proc, was: Proc) {
    now == Done(true) || (StillWaits(now) && Stage(now) <= Stage(was) && (now.Parked? ==> now == was))
  }

  /**
   While the instance is present and announced, a waiter that is not cancelled finds it: in every run it
   has found it or can go on, never goes to sleep and, by `StepBringsNearer`, has ever less to do.
   */
  lemma {:induction false} PresentInstanceIsFound(s: State, steps: seq<Step>, s': State, t: Thread)
    requires Inv(s) && Runs(s, steps, s') && t in s.procs && StillWaits(s.procs[t]) && Cancel(t) !in steps
    requires StaysThere(s, steps, s.procs[t].id, Forced(s.procs[t]))
    ensures t in s'.procs && NoFurther(s'.procs[t], s.procs[t]) && (s'.procs[t] != Done(true) ==> CanMove(s', t))
    decreases |steps|
  {
    hide Inv, Refs, Enabled, Apply, There, CanMove, Nearer;
    if steps == [] {
      NeverStuck(s, t);
    } else {
      InvIsRefs(s);
      assert steps[0] in steps;
      StepBringsNearer(s, steps[0], t);
      AnswersExactly(s, steps[0], t);
      StepKeeps(s, steps[0]);
      var m := Apply(s, steps[0]);
      if m.procs[t].Done? {
        AnswerStays(m, steps[1..], s', t);
      } else {
        NearerIsNoFurther(m.procs[t], s.procs[t]);
        assert forall x :: x in steps[1..] ==> x in steps;
        PresentInstanceIsFound(m, steps[1..], s', t);
      }
    }
  }

  lemma InvIsRefs(s: State)
    requires Inv(s)
    ensures Refs(s)
  {
  }

  lemma NearerIsNoFurther(now: Proc, was: Proc)
    requires StillWaits(now) && (Nearer(now, was) || now == was)
    ensures NoFurther(now, was)
  {
  }

  // ---------------------------------------------------------------------------------------
  // The mutex is held only by somebody who looks and who can go on
  // ---------------------------------------------------------------------------------------

  ghost predicate HolderLooks(s: State) {
    s.holder.Some? ==>
      s.holder.value in s.procs && (s.procs[s.holder.value].Scan? || s.procs[s.holder.value].ScanEvicting?)
  }

  lemma WaitKeepsHolder(s: State, step: Step)
    requires Refs(s) && Locked(s) && HolderLooks(s) && Enabled(s, step) && WaitStep(step)
    ensures HolderLooks(Wait(s, step))
  {
    hide HeapRefs;
  }

  lemma WritersLeaveTheMutex(s: State, step: Step)
    requires Refs(s) && Enabled(s, step) && !WaitStep(step)
    ensures Apply(s, step).holder == s.holder
  {
    hide HeapRefs;
  }

  lemma StepKeepsHolder(s: State, step: Step)
    requires Refs(s) && Locked(s) && HolderLooks(s) && Enabled(s, step)
    ensures HolderLooks(Apply(s, step))
  {
    if WaitStep(step) {
      WaitKeepsHolder(s, step);
    } else {
      hide Apply, Refs;
      WritersLeaveTheMutex(s, step);
      if s.holder.Some? && Mover(step) != s.holder {
        OthersStay(s, step, s.holder.value);
      }
    }
  }

  lemma {:induction false} RunKeepsHolder(s: State, steps: seq<Step>, s': State)
    requires Inv(s) && HolderLooks(s) && Runs(s, steps, s')
    ensures Inv(s') && HolderLooks(s')
    decreases |steps|
  {
    hide Refs, Enabled, Apply, Watched, HolderLooks;
    if steps != [] {
      StepKeepsHolder(s, steps[0]);
      StepKeeps(s, steps[0]);
      RunKeepsHolder(Apply(s, steps[0]), steps[1..], s');
    }
  }

  /** In every reachable state whoever has the mutex can take a step: nobody waits for it in vain. */
  lemma MutexIsNotLost(steps: seq<Step>, s: State)
    requires Runs(INIT, steps, s) && s.holder.Some?
    ensures var u := s.holder.value;
            exists step :: Mover(step) == Some(u) && WaitStep(step) && !step.Cancel? && Enabled(s, step)
  {
    hide Runs, Inv;
    InitSerial();
    RunKeepsHolder(INIT, steps, s);
    var u := s.holder.value;
    if s.procs[u].ScanEvicting? {
      assert Enabled(s, ReadEvicting(u));
    } else if s.procs[u].maps != {} {
      var m :| m in s.procs[u].maps;
      assert Enabled(s, OpenMap(u, m));
    } else if s.procs[u].queues != {} {
      var q :| q in s.procs[u].queues;
      assert Enabled(s, ReadQueue(u, q));
    } else {
      assert Enabled(s, ReadHint(u));
    }
  }

  // ---------------------------------------------------------------------------------------
  // A waiter that is let run finishes
  // ---------------------------------------------------------------------------------------

  function Todo(p: Proc): (nat, nat) {
    if p.Scan? then (|p.maps|, |p.queues|) else (0, 0)
  }

  lemma SmallerSet(a: set<Ref>, b: set<Ref>)
    requires a < b
    ensures |a| < |b|
  {
    assert b == a + (b - a);
  }

  lemma NearerDecreases(now: Proc, was: Proc)
    requires Nearer(now, was)
    ensures Stage(now) < Stage(was)
            || (Stage(now) == Stage(was)
                && (Todo(now).0 < Todo(was).0 || (Todo(now).0 == Todo(was).0 && Todo(now).1 < Todo(was).1)))
  {
    if Stage(now) >= Stage(was) {
      if now.maps < was.maps {
        SmallerSet(now.maps, was.maps);
      } else {
        SmallerSet(now.queues, was.queues);
      }
    }
  }

  /** A waiter's step moves no instance and announces none. */
  lemma StillThere(s: State, step: Step, id: InstanceId, force: bool)
    requires Refs(s) && Enabled(s, step) && WaitStep(step) && There(s, id, force)
    ensures There(Wait(s, step), id, force)
  {
    hide HeapRefs, Wait;
    WaiterMoves(s, step);
    WaiterWaits(s, step);
    var s' := Wait(s, step);
    assert forall f, r, m, q :: Holds(s, f, r, m, q, id) ==> Holds(s', f, r, m, q, id);
    forall place ensures !Pending(s'.procs, Written(place, id)) {
      assert !Pending(s.procs, Written(place, id));
    }
  }

  lemma KeepsItsMutex(s: State, step: Step)
    requires Refs(s) && Enabled(s, step) && WaitStep(step) && (s.holder == None || s.holder == Some(step.t))
    ensures Wait(s, step).holder == None || Wait(s, step).holder == Some(step.t)
  {
    hide HeapRefs;
  }

  lemma ApplyIsWait(s: State, step: Step)
    requires Refs(s) && Enabled(s, step) && WaitStep(step)
    ensures Apply(s, step) == Wait(s, step)
  {
    hide Add, Delete, Other, Wait, Refs;
  }

  /** The waiter's next step, when the mutex is free or its own. */
  lemma NextStep(s: State, t: Thread) returns (step: Step)
    requires Inv(s) && HolderLooks(s) && t in s.procs && StillWaits(s.procs[t])
    requires There(s, s.procs[t].id, Forced(s.procs[t])) && (s.holder == None || s.holder == Some(t))
    ensures WaitStep(step) && !step.BeginWait? && !step.Cancel? && step.t == t && Enabled(s, step)
  {
    hide Inv, There;
    NeverStuck(s, t);
    step :| WaitStep(step) && !step.BeginWait? && !step.Cancel? && step.t == t && Enabled(s, step);
  }

  /** Let run when nobody else has the mutex, a waiter on a present and announced instance finds it. */
  lemma {:induction false} FindsItAlone(s: State, t: Thread) returns (steps: seq<Step>, s': State)
    requires Inv(s) && HolderLooks(s) && t in s.procs && StillWaits(s.procs[t])
    requires There(s, s.procs[t].id, Forced(s.procs[t])) && (s.holder == None || s.holder == Some(t))
    ensures Runs(s, steps, s') && t in s'.procs && s'.procs[t] == Done(true)
    ensures forall i :: 0 <= i < |steps| ==> Mover(steps[i]) == Some(t) && !steps[i].Cancel?
    decreases Stage(s.procs[t]), Todo(s.procs[t]).0, Todo(s.procs[t]).1
  {
    hide Refs, Named, Locked, Watched, Enabled, Apply, Wait, There, Nearer, HolderLooks;
    var step := NextStep(s, t);
    StepBringsNearer(s, step, t);
    AnswersExactly(s, step, t);
    StepKeeps(s, step);
    StepKeepsHolder(s, step);
    StillThere(s, step, s.procs[t].id, Forced(s.procs[t]));
    KeepsItsMutex(s, step);
    ApplyIsWait(s, step);
    var m := Apply(s, step);
    if m.procs[t].Done? {
      assert Runs(m, [], m);
      steps, s' := [step], m;
      assert [step][1..] == [];
    } else {
      NearerDecreases(m.procs[t], s.procs[t]);
      var rest;
      rest, s' := FindsItAlone(m, t);
      steps := [step] + rest;
      assert steps[1..] == rest;
    }
  }
}
