/**
 The pending queues of all functions (QueueManager in wisecloud/queue.go) as a state machine.  A
 step is one section under the manager's lock or the queue's.  Adding to a queue that exists is one
 section; a queue that has just been made is left unlocked for a moment before the request goes in.
 */
module QueueManager {
  import opened Sequences

  type Thread = nat
  type Key = string      // function and resource key
  type QueueId = nat     // a queue object
  type Request = nat

  /** `running` until it is destroyed, `looping` until its timeout loop has seen that and cleared it. */
  datatype Queue = Queue(items: seq<Request>, running: bool, looping: bool)

  datatype State = State(
    linked: map<Key, QueueId>,                 // queuesMap
    queues: map<QueueId, Queue>,               // every queue object
    adders: map<Thread, (QueueId, Request)>,   // requests between the making of a queue and the adding
    starting: multiset<QueueId>)               // cold starts under way, one occurrence each

  const INIT := State(map[], map[], map[], multiset{})

  datatype Step =
    | Enqueue(key: Key, r: Request)
    | FindOrMake(t: Thread, key: Key, made: QueueId, r: Request)
    | AddHeld(t: Thread)
    | Serve(key: Key, n: nat)
    | Unlink(key: Key)
    | Destroy(q: QueueId)
    | LoopExit(q: QueueId)
    | Timeout(q: QueueId, n: nat)
    | ColdStartOk(q: QueueId)
    | ColdStartFail(q: QueueId)

  predicate IsLinked(s: State, q: QueueId) {
    q in s.linked.Values
  }

  predicate Refs(s: State) {
    && s.linked.Values <= s.queues.Keys
    && (forall t :: t in s.adders ==> s.adders[t].0 in s.queues)
    && (forall q :: q in s.starting ==> q in s.queues)
  }

  predicate Enabled(s: State, step: Step) {
    match step
    case Enqueue(key, _) => key in s.linked
    case FindOrMake(t, _, made, _) => t !in s.adders && made !in s.queues
    case AddHeld(t) => t in s.adders
    case Serve(key, n) => key in s.linked && s.linked[key] in s.queues && n <= |s.queues[s.linked[key]].items|
    case Unlink(key) => key in s.linked
    case Destroy(q) => q in s.queues && !IsLinked(s, q)
    case LoopExit(q) => q in s.queues && s.queues[q].looping && !s.queues[q].running
    case Timeout(q, n) => q in s.queues && s.queues[q].looping && n <= |s.queues[q].items|
    case ColdStartOk(q) => q in s.starting
    case ColdStartFail(q) => q in s.starting
  }

  /** addPendingRequest on a queue object: the first request of a queue asks for a cold start. */
  function Added(s: State, q: QueueId, r: Request): State
    requires q in s.queues
  {
    s.(queues := s.queues[q := s.queues[q].(items := s.queues[q].items + [r])],
       starting := if s.queues[q].items == [] then s.starting + multiset{q} else s.starting)
  }

  function SetItems(s: State, q: QueueId, items: seq<Request>): State
    requires q in s.queues
  {
    s.(queues := s.queues[q := s.queues[q].(items := items)])
  }

  function Apply(s: State, step: Step): State
    requires Refs(s) && Enabled(s, step)
  {
    match step
    case Enqueue(key, r) => Added(s, s.linked[key], r)
    case FindOrMake(t, key, made, r) =>
      if key in s.linked then s.(adders := s.adders[t := (s.linked[key], r)])
      else s.(linked := s.linked[key := made], queues := s.queues[made := Queue([], true, true)],
              adders := s.adders[t := (made, r)])
    case AddHeld(t) => Added(s, s.adders[t].0, s.adders[t].1).(adders := s.adders - {t})
    case Serve(key, n) => SetItems(s, s.linked[key], s.queues[s.linked[key]].items[n..])
    case Unlink(key) => s.(linked := s.linked - {key})
    case Destroy(q) => s.(queues := s.queues[q := s.queues[q].(running := false)])
    case LoopExit(q) => s.(queues := s.queues[q := Queue([], false, false)])
    case Timeout(q, n) => SetItems(s, q, s.queues[q].items[n..])
    case ColdStartOk(q) => s.(starting := s.starting - multiset{q})
    case ColdStartFail(q) => SetItems(s, q, []).(starting := s.starting - multiset{q})
  }

  // ---------------------------------------------------------------------------------------
  // Who looks after a request
  // ---------------------------------------------------------------------------------------

  /** Linked queues run, each under one key, and a loop ends only after its queue was destroyed. */
  ghost predicate Lively(s: State) {
    Refs(s) && Alive(s.linked, s.queues)
  }

  ghost predicate Alive(linked: map<Key, QueueId>, queues: map<QueueId, Queue>) {
    && (forall k, l :: k in linked && l in linked && linked[k] == linked[l] ==> k == l)
    && (forall k :: k in linked && linked[k] in queues ==> queues[linked[k]].running)
    && (forall q :: q in queues && queues[q].running ==> queues[q].looping)
  }

  /** A request waits in a queue that no timeout loop looks at any more. */
  predicate Stranded(s: State, q: QueueId) {
    q in s.queues && s.queues[q].items != [] && !s.queues[q].looping
  }

  ghost predicate NobodyStranded(s: State) {
    forall q :: q in s.queues ==> !Stranded(s, q)
  }

  lemma StepKeepsLively(s: State, step: Step)
    requires Lively(s) && Enabled(s, step)
    ensures Lively(Apply(s, step))
  {
    hide Alive, Refs;
    StepKeepsRefs(s, step);
    StepKeepsAlive(s, step);
  }

  lemma StepKeepsRefs(s: State, step: Step)
    requires Refs(s) && Enabled(s, step)
    ensures Refs(Apply(s, step))
  {
  }

  lemma SameLife(linked: map<Key, QueueId>, queues: map<QueueId, Queue>, q: QueueId, items: seq<Request>)
    requires Alive(linked, queues) && q in queues
    ensures Alive(linked, queues[q := queues[q].(items := items)])
  {
  }

  lemma QueueMade(linked: map<Key, QueueId>, queues: map<QueueId, Queue>, key: Key, made: QueueId)
    requires Alive(linked, queues) && key !in linked && made !in queues && linked.Values <= queues.Keys
    ensures Alive(linked[key := made], queues[made := Queue([], true, true)])
  {
  }

  lemma QueueStopped(linked: map<Key, QueueId>, queues: map<QueueId, Queue>, q: QueueId, queue: Queue)
    requires Alive(linked, queues) && q !in linked.Values && !queue.running
    ensures Alive(linked, queues[q := queue])
  {
  }

  lemma StoppedIsUnlinked(linked: map<Key, QueueId>, queues: map<QueueId, Queue>, q: QueueId)
    requires Alive(linked, queues) && q in queues && !queues[q].running
    ensures q !in linked.Values
  {
  }

  lemma KeyRemoved(linked: map<Key, QueueId>, queues: map<QueueId, Queue>, key: Key)
    requires Alive(linked, queues)
    ensures Alive(linked - {key}, queues)
  {
  }

  lemma StepKeepsAlive(s: State, step: Step)
    requires Refs(s) && Alive(s.linked, s.queues) && Enabled(s, step)
    ensures Alive(Apply(s, step).linked, Apply(s, step).queues)
  {
    hide Alive;
    match step
    case Enqueue(key, r) => SameLife(s.linked, s.queues, s.linked[key], s.queues[s.linked[key]].items + [r]);
    case FindOrMake(_, key, made, _) =>
      if key !in s.linked {
        QueueMade(s.linked, s.queues, key, made);
      }
    case AddHeld(t) => SameLife(s.linked, s.queues, s.adders[t].0, s.queues[s.adders[t].0].items + [s.adders[t].1]);
    case Serve(key, n) => SameLife(s.linked, s.queues, s.linked[key], s.queues[s.linked[key]].items[n..]);
    case Unlink(key) => KeyRemoved(s.linked, s.queues, key);
    case Destroy(q) => QueueStopped(s.linked, s.queues, q, s.queues[q].(running := false));
    case LoopExit(q) =>
      StoppedIsUnlinked(s.linked, s.queues, q);
      QueueStopped(s.linked, s.queues, q, Queue([], false, false));
    case Timeout(q, n) => SameLife(s.linked, s.queues, q, s.queues[q].items[n..]);
    case ColdStartOk(q) =>
    case ColdStartFail(q) => SameLife(s.linked, s.queues, q, []);
  }

  /** The one step that strands a request: adding it to the queue in hand after that queue's loop has ended. */
  predicate Late(s: State, step: Step)
    requires Refs(s) && Enabled(s, step)
  {
    step.AddHeld? && !s.queues[s.adders[step.t].0].looping
  }

  lemma StrandsExactlyIfLate(s: State, step: Step)
    requires Lively(s) && NobodyStranded(s) && Enabled(s, step)
    ensures NobodyStranded(Apply(s, step)) <==> !Late(s, step)
  {
    var s' := Apply(s, step);
    if Late(s, step) {
      assert Stranded(s', s.adders[step.t].0);
    } else {
      forall q | q in s'.queues ensures !Stranded(s', q) {
        assert q in s.queues ==> !Stranded(s, q);
      }
    }
  }

  ghost predicate Runs(s: State, steps: seq<Step>, s': State)
    decreases |steps|
  {
    if steps == [] then s == s'
    else Refs(s) && Enabled(s, steps[0]) && Runs(Apply(s, steps[0]), steps[1..], s')
  }

  ghost predicate NeverLate(s: State, steps: seq<Step>)
    decreases |steps|
  {
    steps != [] && Refs(s) && Enabled(s, steps[0]) ==> !Late(s, steps[0]) && NeverLate(Apply(s, steps[0]), steps[1..])
  }

  /** In a run without a late addition every waiting request has a live timeout loop, in every state. */
  lemma {:induction false} EveryRequestIsLookedAfter(s: State, steps: seq<Step>, s': State)
    requires Lively(s) && NobodyStranded(s) && Runs(s, steps, s') && NeverLate(s, steps)
    ensures Lively(s') && NobodyStranded(s')
    decreases |steps|
  {
    hide Lively, NobodyStranded, Enabled, Apply, Late;
    if steps != [] {
      StepOfRun(s, steps[0]);
      EveryRequestIsLookedAfter(Apply(s, steps[0]), steps[1..], s');
    }
  }

  lemma StepOfRun(s: State, step: Step)
    requires Lively(s) && NobodyStranded(s) && Enabled(s, step) && Refs(s) && !Late(s, step)
    ensures Lively(Apply(s, step)) && NobodyStranded(Apply(s, step))
  {
    hide Apply, Late, NobodyStranded;
    StepKeepsLively(s, step);
    StrandsExactlyIfLate(s, step);
  }

  // ---------------------------------------------------------------------------------------
  // A stranded request stays
  // ---------------------------------------------------------------------------------------

  /** Stranded, in no map, and no cold start of the queue can still fail. */
  ghost predicate Forgotten(s: State, q: QueueId) {
    Stranded(s, q) && !IsLinked(s, q) && q !in s.starting
  }

  lemma ForgottenStep(s: State, step: Step, q: QueueId)
    requires Lively(s) && Forgotten(s, q) && Enabled(s, step)
    ensures Forgotten(Apply(s, step), q) && s.queues[q].items <= Apply(s, step).queues[q].items
  {
  }

  /** No continuation ever answers it. */
  lemma {:induction false} ForgottenForGood(s: State, steps: seq<Step>, s': State, q: QueueId)
    requires Lively(s) && Forgotten(s, q) && Runs(s, steps, s')
    ensures Forgotten(s', q) && s.queues[q].items <= s'.queues[q].items
    decreases |steps|
  {
    hide Lively, Enabled, Apply, IsLinked;
    if steps != [] {
      assert Lively(s);
      StepKeepsLively(s, steps[0]);
      ForgottenStep(s, steps[0], q);
      ForgottenForGood(Apply(s, steps[0]), steps[1..], s', q);
    }
  }

  /** Some continuation answers a request that waits in `q`. */
  ghost predicate CanAnswer(s: State, q: QueueId) {
    && q in s.queues
    && exists steps, s' :: Runs(s, steps, s') && q in s'.queues && !(s.queues[q].items <= s'.queues[q].items)
  }

  /** A stranded request can still be answered if and only if a cold start of its queue is under way, by its failure. */
  lemma StrandedIsAnsweredExactlyByAColdStart(s: State, q: QueueId)
    requires Lively(s) && Stranded(s, q)
    ensures CanAnswer(s, q) <==> q in s.starting
  {
    if q in s.starting {
      var s' := Apply(s, ColdStartFail(q));
      assert Runs(s', [], s');
      Prepend(s, ColdStartFail(q), [], s');
    } else {
      forall steps, s' | Runs(s, steps, s') ensures Forgotten(s', q) && s.queues[q].items <= s'.queues[q].items {
        ForgottenForGood(s, steps, s', q);
      }
    }
  }

  /** A waiting request can still be answered if and only if its queue has a timeout loop or a cold start under way. */
  lemma AnswerableExactly(s: State, q: QueueId)
    requires Lively(s) && q in s.queues && s.queues[q].items != []
    ensures CanAnswer(s, q) <==> s.queues[q].looping || q in s.starting
  {
    if s.queues[q].looping {
      var n := |s.queues[q].items|;
      var s' := Apply(s, Timeout(q, n));
      assert s'.queues[q].items == [];
      assert Runs(s', [], s');
      Prepend(s, Timeout(q, n), [], s');
    } else {
      StrandedIsAnsweredExactlyByAColdStart(s, q);
    }
  }

  /** An instance can serve the front of every linked queue. */
  lemma InstanceCanServe(s: State, key: Key, n: nat)
    requires Lively(s) && key in s.linked && s.linked[key] in s.queues && n <= |s.queues[s.linked[key]].items|
    ensures Enabled(s, Serve(key, n))
    ensures var q := s.linked[key];
            q in Apply(s, Serve(key, n)).queues && Apply(s, Serve(key, n)).queues[q].items == s.queues[q].items[n..]
  {
  }

  const MADE := State(map["k" := 0], map[0 := Queue([], true, true)], map[0 := (0, 7)], multiset{})
  const UNLINKED := MADE.(linked := map[])
  const DESTROYED := UNLINKED.(queues := map[0 := Queue([], false, true)])
  const ENDED := UNLINKED.(queues := map[0 := Queue([], false, false)])
  const LOST := State(map[], map[0 := Queue([7], false, false)], map[], multiset{})

  lemma GoesInLate()
    ensures Runs(ENDED, [AddHeld(0), ColdStartOk(0)], LOST)
  {
    assert Runs(LOST, [], LOST);
    Prepend(LOST.(starting := multiset{0}), ColdStartOk(0), [], LOST);
    assert [] + [7] == [7] && ENDED.adders - {0} == map[];
    assert Apply(ENDED, AddHeld(0)) == LOST.(starting := multiset{0});
    Prepend(ENDED, AddHeld(0), [ColdStartOk(0)], LOST);
  }

  lemma EndsEarly(steps: seq<Step>)
    requires Runs(ENDED, steps, LOST)
    ensures Runs(UNLINKED, [Destroy(0)] + ([LoopExit(0)] + steps), LOST)
  {
    hide Runs;
    assert Apply(DESTROYED, LoopExit(0)) == ENDED;
    Prepend(DESTROYED, LoopExit(0), steps, LOST);
    assert Apply(UNLINKED, Destroy(0)) == DESTROYED;
    Prepend(UNLINKED, Destroy(0), [LoopExit(0)] + steps, LOST);
  }

  lemma UnlinkedAtOnce(steps: seq<Step>)
    requires Runs(UNLINKED, steps, LOST)
    ensures Runs(INIT, [FindOrMake(0, "k", 0, 7)] + ([Unlink("k")] + steps), LOST)
  {
    hide Runs;
    assert Apply(MADE, Unlink("k")) == UNLINKED;
    Prepend(MADE, Unlink("k"), steps, LOST);
    assert Apply(INIT, FindOrMake(0, "k", 0, 7)) == MADE;
    Prepend(INIT, FindOrMake(0, "k", 0, 7), [Unlink("k")] + steps, LOST);
  }

  /** It can happen: the new queue is unlinked as empty, destroyed and its loop ends before the request goes in. */
  lemma RequestCanBeForgotten()
    ensures exists steps, s :: Runs(INIT, steps, s) && Forgotten(s, 0)
  {
    hide Runs;
    GoesInLate();
    EndsEarly([AddHeld(0), ColdStartOk(0)]);
    UnlinkedAtOnce([Destroy(0)] + ([LoopExit(0)] + [AddHeld(0), ColdStartOk(0)]));
    assert Forgotten(LOST, 0);
  }

  lemma Prepend(s: State, step: Step, steps: seq<Step>, s': State)
    requires Refs(s) && Enabled(s, step) && Runs(Apply(s, step), steps, s')
    ensures Runs(s, [step] + steps, s')
  {
    assert ([step] + steps)[1..] == steps;
  }

  // ---------------------------------------------------------------------------------------
  // Every queue is first in, first out
  // ---------------------------------------------------------------------------------------

  /** The request that a step puts into queue `q`. */
  function Adds(s: State, step: Step, q: QueueId): seq<Request> {
    if step.Enqueue? && step.key in s.linked && s.linked[step.key] == q then [step.r]
    else if step.AddHeld? && step.t in s.adders && s.adders[step.t].0 == q then [s.adders[step.t].1]
    else []
  }

  /** How many requests of `q` a step answers, from the front. */
  function Answered(s: State, step: Step, q: QueueId): nat
    requires q in s.queues
  {
    match step
    case Serve(key, n) => if key in s.linked && s.linked[key] == q then n else 0
    case Timeout(x, n) => if x == q then n else 0
    case LoopExit(x) => if x == q then |s.queues[q].items| else 0
    case ColdStartFail(x) => if x == q then |s.queues[q].items| else 0
    case _ => 0
  }

  /** A step appends to a queue or takes from its front. */
  lemma StepOnItems(s: State, step: Step, q: QueueId)
    requires Refs(s) && Enabled(s, step) && q in s.queues
    ensures q in Apply(s, step).queues && Answered(s, step, q) <= |s.queues[q].items|
    ensures Apply(s, step).queues[q].items == s.queues[q].items[Answered(s, step, q)..] + Adds(s, step, q)
  {
    var items := s.queues[q].items;
    var gone, added := Answered(s, step, q), Adds(s, step, q);
    assert items[0..] == items && items[gone..] + [] == items[gone..];
  }

  /** It asks for a cold start exactly if it fills an empty queue. */
  lemma StepOnColdStarts(s: State, step: Step, q: QueueId)
    requires Refs(s) && Enabled(s, step) && q in s.queues
    ensures Apply(s, step).starting[q] ==
            s.starting[q] + (if Adds(s, step, q) != [] && s.queues[q].items == [] then 1 else 0)
                          - (if step == ColdStartOk(q) || step == ColdStartFail(q) then 1 else 0)
  {
  }

  /** A queue runs until it is destroyed and loops until its loop has ended. */
  lemma StepOnLife(s: State, step: Step, q: QueueId)
    requires Refs(s) && Enabled(s, step) && q in s.queues
    ensures q in Apply(s, step).queues
    ensures Apply(s, step).queues[q].running == (s.queues[q].running && step != Destroy(q))
    ensures Apply(s, step).queues[q].looping == (s.queues[q].looping && step != LoopExit(q))
  {
    match step
    case Destroy(x) => assert Apply(s, step).queues == s.queues[x := s.queues[x].(running := false)];
    case LoopExit(x) => assert Apply(s, step).queues == s.queues[x := Queue([], false, false)];
    case _ => OtherLives(s, step, q);
  }

  lemma OtherLives(s: State, step: Step, q: QueueId)
    requires Refs(s) && Enabled(s, step) && q in s.queues && !step.Destroy? && !step.LoopExit?
    ensures var now := Apply(s, step).queues;
            q in now && now[q].running == s.queues[q].running && now[q].looping == s.queues[q].looping
  {
    match step
    case Enqueue(key, r) => assert s.linked[key] in s.queues;
    case AddHeld(t) => assert s.adders[t].0 in s.queues;
    case _ =>
  }

  /** The requests a run puts into `q`, in order. */
  function Entered(s: State, steps: seq<Step>, q: QueueId): seq<Request>
    decreases |steps|
  {
    if steps == [] || !Refs(s) || !Enabled(s, steps[0]) then []
    else Adds(s, steps[0], q) + Entered(Apply(s, steps[0]), steps[1..], q)
  }

  /** The requests a run answers out of `q`, counted from the front. */
  function Left(s: State, steps: seq<Step>, q: QueueId): nat
    decreases |steps|
  {
    if steps == [] || !Refs(s) || !Enabled(s, steps[0]) || q !in s.queues then 0
    else Answered(s, steps[0], q) + Left(Apply(s, steps[0]), steps[1..], q)
  }

  /** In every run a queue holds what was in it and what came, in order, less those answered, from the front. */
  lemma {:induction false} EveryQueueIsFifo(s: State, steps: seq<Step>, s': State, q: QueueId)
    requires Runs(s, steps, s') && q in s.queues
    ensures q in s'.queues
    ensures var all := s.queues[q].items + Entered(s, steps, q);
            Left(s, steps, q) <= |all| && s'.queues[q].items == all[Left(s, steps, q)..]
    decreases |steps|
  {
    hide Refs, Enabled, Apply, Adds, Answered;
    if steps == [] {
      var all := s.queues[q].items + [];
      assert all[0..] == s.queues[q].items;
    } else {
      var step, m := steps[0], Apply(s, steps[0]);
      StepOnItems(s, step, q);
      EveryQueueIsFifo(m, steps[1..], s', q);
      var was, gone, added, rest := s.queues[q].items, Answered(s, step, q), Adds(s, step, q),
                                    Entered(m, steps[1..], q);
      assert was[gone..] + added + rest == (was + (added + rest))[gone..];
    }
  }

  /** A request that finds or makes its queue is held for the queue that its key then names. */
  lemma HeldForItsKey(s: State, t: Thread, key: Key, made: QueueId, r: Request)
    requires Refs(s) && Enabled(s, FindOrMake(t, key, made, r))
    ensures var s' := Apply(s, FindOrMake(t, key, made, r));
            && key in s'.linked && s'.adders == s.adders[t := (s'.linked[key], r)]
            && (key in s.linked ==> s' == s.(adders := s'.adders))
            && (key !in s.linked ==> s'.linked == s.linked[key := made] && s'.queues[made] == Queue([], true, true))
  {
  }
}
