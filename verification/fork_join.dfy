/** One probe cycle: the cycle thread submits a task for each probe to a pool of workers, each task
    fills its own slot, and a counting latch tells the cycle thread when all are done.

    The latch is decremented and the condition variable notified without the mutex the cycle thread
    waits under, so the notification may come before the wait it is meant for. */
module ForkJoin {
  datatype Status = Unsubmitted | Queued | Running | Written | Done

  datatype Worker = Idle | Probing(task: nat) | Wrote(task: nat) | Notifying {
    predicate HasTask() { Probing? || Wrote? }
  }

  // The cycle thread: submitting, evaluating the wait predicate, between a failed evaluation and
  // the block, blocked, or returned with the collected metrics.
  datatype Main<M> = Submitting | Checking | AboutToBlock | Blocked | Joined(out: seq<M>)

  datatype Event = Submit | Take(w: nat) | Write(w: nat) | CountDown(w: nat) | Notify(w: nat) | Check | Block | Spurious

  datatype State<M> = State(
    results: seq<seq<M>>, status: seq<Status>, queue: seq<nat>, workers: seq<Worker>,
    slots: seq<seq<M>>, remaining: nat, main: Main<M>)

  function Concat<M>(parts: seq<seq<M>>): seq<M> {
    if parts == [] then [] else parts[0] + Concat(parts[1..])
  }

  lemma {:induction false} ConcatAppend<M>(parts: seq<seq<M>>, part: seq<M>)
    ensures Concat(parts + [part]) == Concat(parts) + part
  {
    if parts == [] {
      assert [part][1..] == [] && [] + [part] == [part];
    } else {
      ConcatAppend(parts[1..], part);
      assert (parts + [part])[1..] == parts[1..] + [part];
    }
  }

  // results[i] is what task i measures; it does not depend on the schedule.
  function Initial<M>(results: seq<seq<M>>, workers: nat): State<M> {
    State(results, seq(|results|, _ => Unsubmitted), [], seq(workers, _ => Idle), seq(|results|, _ => []),
          |results|, if results == [] then Joined([]) else Submitting)
  }

  function NextToSubmit(status: seq<Status>): (i: nat)
    ensures i <= |status| && (i < |status| ==> status[i].Unsubmitted?)
    ensures forall j :: 0 <= j < i ==> !status[j].Unsubmitted?
  {
    if status == [] || status[0].Unsubmitted? then 0 else 1 + NextToSubmit(status[1..])
  }

  // Task i is the first not yet submitted, and now comes last in the queue.
  ghost predicate Submits(status: seq<Status>, queue: seq<nat>, i: nat, status': seq<Status>, queue': seq<nat>) {
    && i < |status| && status[i].Unsubmitted? && (forall j :: 0 <= j < i ==> !status[j].Unsubmitted?)
    && status' == status[i := Queued] && queue' == queue + [i]
  }

  // A worker holding this task may act on it.
  predicate Holds<M>(s: State<M>, w: nat, wrote: bool) {
    && w < |s.workers| && (if wrote then s.workers[w].Wrote? else s.workers[w].Probing?)
    && s.workers[w].task < |s.results| && |s.status| == |s.slots| == |s.results|
  }

  function Apply<M>(s: State<M>, e: Event): State<M> {
    match e
    case Submit =>
      var i := NextToSubmit(s.status);
      if !s.main.Submitting? then s
      else if i == |s.status| then s.(main := Checking)
      else s.(status := s.status[i := Queued], queue := s.queue + [i])
    case Take(w) =>
      if w >= |s.workers| || !s.workers[w].Idle? || s.queue == [] || s.queue[0] >= |s.status| then s
      else
        var i := s.queue[0];
        s.(queue := s.queue[1..], status := s.status[i := Running], workers := s.workers[w := Probing(i)])
    case Write(w) =>
      if !Holds(s, w, false) then s
      else
        var i := s.workers[w].task;
        s.(slots := s.slots[i := s.results[i]], status := s.status[i := Written], workers := s.workers[w := Wrote(i)])
    case CountDown(w) =>
      if !Holds(s, w, true) then s
      else
        var i := s.workers[w].task;
        s.(status := s.status[i := Done], remaining := if s.remaining > 0 then s.remaining - 1 else 0,
           workers := s.workers[w := if s.remaining == 1 then Notifying else Idle])
    case Notify(w) =>
      if w >= |s.workers| || !s.workers[w].Notifying? then s
      else s.(workers := s.workers[w := Idle], main := if s.main.Blocked? then Checking else s.main)
    case Check =>
      if !s.main.Checking? then s
      else if s.remaining == 0 then s.(main := Joined(Concat(s.slots)))
      else s.(main := AboutToBlock)
    case Block => if s.main.AboutToBlock? then s.(main := Blocked) else s
    case Spurious => if s.main.Blocked? then s.(main := Checking) else s
  }

  function Exec<M>(results: seq<seq<M>>, workers: nat, events: seq<Event>): State<M> {
    if events == [] then Initial(results, workers)
    else Apply(Exec(results, workers, events[..|events| - 1]), events[|events| - 1])
  }

  // ----- what every interleaving keeps -----

  ghost function Unfinished(status: seq<Status>): nat {
    if status == [] then 0 else (if status[0].Done? then 0 else 1) + Unfinished(status[1..])
  }

  lemma {:induction false} UnfinishedUpdate(status: seq<Status>, i: nat, x: Status)
    requires i < |status| && !status[i].Done?
    ensures Unfinished(status) > 0
    ensures Unfinished(status[i := x]) == Unfinished(status) - if x.Done? then 1 else 0
  {
    if i == 0 {
      assert status[0 := x][1..] == status[1..];
    } else {
      UnfinishedUpdate(status[1..], i - 1, x);
      assert status[i := x][1..] == status[1..][i - 1 := x];
    }
  }

  lemma {:induction false} UnfinishedZero(status: seq<Status>)
    requires Unfinished(status) == 0
    ensures forall i :: 0 <= i < |status| ==> status[i].Done?
  {
    if status != [] {
      UnfinishedZero(status[1..]);
      forall i | 0 <= i < |status| ensures status[i].Done? {
        if i > 0 { assert status[i] == status[1..][i - 1]; }
      }
    }
  }

  lemma {:induction false} AllUnfinished(status: seq<Status>)
    requires forall i :: 0 <= i < |status| ==> !status[i].Done?
    ensures Unfinished(status) == |status|
  {
    if status != [] { AllUnfinished(status[1..]); }
  }

  ghost predicate Shaped<M>(s: State<M>) {
    && |s.status| == |s.results| && |s.slots| == |s.results|
    && (forall k :: 0 <= k < |s.queue| ==> s.queue[k] < |s.status|)
    && (forall w :: 0 <= w < |s.workers| && s.workers[w].HasTask() ==> s.workers[w].task < |s.status|)
  }

  // Each task is where its status says and nowhere else.
  ghost predicate Placed<M>(s: State<M>)
    requires Shaped(s)
  {
    && (forall k :: 0 <= k < |s.queue| ==> s.status[s.queue[k]].Queued?)
    && (forall j, k :: 0 <= j < k < |s.queue| ==> s.queue[j] != s.queue[k])
    && (forall w :: 0 <= w < |s.workers| && s.workers[w].Probing? ==> s.status[s.workers[w].task].Running?)
    && (forall w :: 0 <= w < |s.workers| && s.workers[w].Wrote? ==> s.status[s.workers[w].task].Written?)
    && (forall v, w :: 0 <= v < w < |s.workers| && s.workers[v].HasTask() && s.workers[w].HasTask() ==>
          s.workers[v].task != s.workers[w].task)
  }

  // A slot holds its task's metrics from the moment they were written.
  ghost predicate Filled<M>(s: State<M>)
    requires Shaped(s)
  {
    forall i :: 0 <= i < |s.slots| ==>
      s.slots[i] == if s.status[i].Written? || s.status[i].Done? then s.results[i] else []
  }

  ghost predicate Inv<M>(s: State<M>) {
    && Shaped(s) && Placed(s) && Filled(s)
    && s.remaining == Unfinished(s.status)
    && (s.main.Joined? ==> s.remaining == 0 && s.main.out == Concat(s.results))
  }

  lemma CountDownKeeps<M>(s: State<M>, w: nat)
    requires Inv(s) && w < |s.workers| && s.workers[w].Wrote?
    ensures Inv(Apply(s, CountDown(w)))
  {
    UnfinishedUpdate(s.status, s.workers[w].task, Done);
  }

  lemma TakeKeeps<M>(s: State<M>, w: nat)
    requires Inv(s) && w < |s.workers| && s.workers[w].Idle? && s.queue != []
    ensures Inv(Apply(s, Take(w)))
  {
    UnfinishedUpdate(s.status, s.queue[0], Running);
    var s' := Apply(s, Take(w));
    assert forall k :: 0 <= k < |s'.queue| ==> s'.queue[k] == s.queue[k + 1];
  }

  lemma WriteKeeps<M>(s: State<M>, w: nat)
    requires Inv(s) && w < |s.workers| && s.workers[w].Probing?
    ensures Inv(Apply(s, Write(w)))
  {
    UnfinishedUpdate(s.status, s.workers[w].task, Written);
  }

  lemma SubmitKeeps<M>(s: State<M>)
    requires Inv(s) && s.main.Submitting?
    ensures Inv(Apply(s, Submit))
  {
    var i := NextToSubmit(s.status);
    if i < |s.status| { UnfinishedUpdate(s.status, i, Queued); }
  }

  lemma CheckKeeps<M>(s: State<M>)
    requires Inv(s) && s.main.Checking?
    ensures Inv(Apply(s, Check))
  {
    if s.remaining == 0 {
      UnfinishedZero(s.status);
      assert s.slots == s.results;
    }
  }

  lemma InvStep<M>(s: State<M>, e: Event)
    requires Inv(s)
    ensures Inv(Apply(s, e)) && Apply(s, e).results == s.results
  {
    match e
    case Submit => if s.main.Submitting? { SubmitKeeps(s); }
    case Take(w) => if w < |s.workers| && s.workers[w].Idle? && s.queue != [] { TakeKeeps(s, w); }
    case Write(w) => if w < |s.workers| && s.workers[w].Probing? { WriteKeeps(s, w); }
    case CountDown(w) => if w < |s.workers| && s.workers[w].Wrote? { CountDownKeeps(s, w); }
    case Check => if s.main.Checking? { CheckKeeps(s); }
    case _ =>
  }

  lemma InitialInv<M>(results: seq<seq<M>>, workers: nat)
    ensures Inv(Initial(results, workers))
  {
    AllUnfinished(Initial(results, workers).status);
  }

  lemma {:induction false} InvHolds<M>(results: seq<seq<M>>, workers: nat, events: seq<Event>)
    ensures Inv(Exec(results, workers, events)) && Exec(results, workers, events).results == results
  {
    if events == [] {
      InitialInv(results, workers);
    } else {
      InvHolds(results, workers, events[..|events| - 1]);
      InvStep(Exec(results, workers, events[..|events| - 1]), events[|events| - 1]);
    }
  }

  // ----- the theorems about every interleaving -----

  // If the wait returns, every task has finished and the metrics are those of running the tasks
  // one after the other in submission order.
  lemma JoinCollectsEverything<M>(results: seq<seq<M>>, workers: nat, events: seq<Event>)
    requires Exec(results, workers, events).main.Joined?
    ensures var s := Exec(results, workers, events);
      s.main.out == Concat(results) && forall i :: 0 <= i < |s.status| ==> s.status[i].Done?
  {
    InvHolds(results, workers, events);
    UnfinishedZero(Exec(results, workers, events).status);
  }

  // The latch always shows the number of tasks that have not finished.
  lemma LatchCountsUnfinished<M>(results: seq<seq<M>>, workers: nat, events: seq<Event>)
    ensures Exec(results, workers, events).remaining == Unfinished(Exec(results, workers, events).status)
  {
    InvHolds(results, workers, events);
  }

  // ----- where waiting goes wrong -----

  // The cycle thread has found the predicate false and has not looked again.
  ghost predicate Waits<M>(s: State<M>) { s.main.AboutToBlock? || s.main.Blocked? }

  // At most one worker is about to notify, and only when no task is left.
  ghost predicate NotifierInv<M>(s: State<M>) {
    && (forall w :: 0 <= w < |s.workers| && s.workers[w].Notifying? ==> s.remaining == 0)
    && (forall v, w :: 0 <= v < w < |s.workers| ==> !(s.workers[v].Notifying? && s.workers[w].Notifying?))
  }

  lemma NotifierStep<M>(s: State<M>, e: Event)
    requires Inv(s) && NotifierInv(s)
    ensures NotifierInv(Apply(s, e))
  {
  }

  lemma {:induction false} NotifierHolds<M>(results: seq<seq<M>>, workers: nat, events: seq<Event>)
    ensures NotifierInv(Exec(results, workers, events))
  {
    if events != [] {
      NotifierHolds(results, workers, events[..|events| - 1]);
      InvHolds(results, workers, events[..|events| - 1]);
      NotifierStep(Exec(results, workers, events[..|events| - 1]), events[|events| - 1]);
    }
  }

  // No task is left and no notification is to come.
  ghost predicate AllNotified<M>(s: State<M>) {
    s.remaining == 0 && forall w :: 0 <= w < |s.workers| ==> !s.workers[w].Notifying?
  }

  // From then on only a spurious wake-up changes whether the cycle thread waits.
  lemma AllNotifiedStays<M>(s: State<M>, e: Event)
    requires Inv(s) && AllNotified(s) && e != Spurious
    ensures AllNotified(Apply(s, e)) && (Waits(Apply(s, e)) <==> Waits(s))
  {
    UnfinishedZero(s.status);
  }

  lemma {:induction false} StaysForGood<M>(results: seq<seq<M>>, workers: nat, events: seq<Event>, after: seq<Event>)
    requires AllNotified(Exec(results, workers, events)) && Spurious !in after
    ensures var s := Exec(results, workers, events + after);
      AllNotified(s) && (Waits(s) <==> Waits(Exec(results, workers, events)))
  {
    if after == [] {
      assert events + after == events;
    } else {
      var front := after[..|after| - 1];
      StaysForGood(results, workers, events, front);
      assert (events + after)[..|events + after| - 1] == events + front;
      InvHolds(results, workers, events + front);
      AllNotifiedStays(Exec(results, workers, events + front), after[|after| - 1]);
    }
  }

  // A worker's notification at this state.
  ghost predicate Notifies<M>(s: State<M>, e: Event) {
    e.Notify? && e.w < |s.workers| && s.workers[e.w].Notifying?
  }

  lemma NotifyEndsIt<M>(s: State<M>, e: Event)
    requires NotifierInv(s) && Notifies(s, e)
    ensures AllNotified(Apply(s, e)) && (Waits(Apply(s, e)) <==> s.main.AboutToBlock?)
  {
  }

  // The exact condition: short of spurious wake-ups, the cycle thread waits for good after the
  // notification if and only if the notification came between its last look at the latch and its
  // block. A notification at any other moment is never lost.
  lemma WakeupIsLostIff<M>(results: seq<seq<M>>, workers: nat, before: seq<Event>, e: Event, after: seq<Event>)
    requires Notifies(Exec(results, workers, before), e) && Spurious !in after
    ensures Waits(Exec(results, workers, before + [e] + after))
       <==> Exec(results, workers, before).main.AboutToBlock?
  {
    NotifierHolds(results, workers, before);
    assert (before + [e])[..|before|] == before;
    NotifyEndsIt(Exec(results, workers, before), e);
    StaysForGood(results, workers, before + [e], after);
  }

  // The i-th event is a worker's notification, and it is lost.
  ghost predicate NotifiedAt<M>(results: seq<seq<M>>, workers: nat, events: seq<Event>, i: int) {
    0 <= i < |events| && Notifies(Exec(results, workers, events[..i]), events[i])
  }

  ghost predicate LostAt<M>(results: seq<seq<M>>, workers: nat, events: seq<Event>, i: int) {
    NotifiedAt(results, workers, events, i) && Exec(results, workers, events[..i]).main.AboutToBlock?
  }

  // When no task is left, the notification is still to come or has been made.
  lemma {:induction false} NotifiedOrNotifying<M>(results: seq<seq<M>>, workers: nat, events: seq<Event>)
    requires results != [] && Exec(results, workers, events).remaining == 0
    ensures !AllNotified(Exec(results, workers, events)) || exists i :: NotifiedAt(results, workers, events, i)
  {
    if events != [] {
      var front, e := events[..|events| - 1], events[|events| - 1];
      var s := Exec(results, workers, front);
      InvHolds(results, workers, front);
      if s.remaining == 0 {
        NotifiedOrNotifying(results, workers, front);
        if AllNotified(s) {
          var i :| NotifiedAt(results, workers, front, i);
          assert events[..i] == front[..i] && NotifiedAt(results, workers, events, i);
        } else if Notifies(s, e) {
          assert NotifiedAt(results, workers, events, |front|);
        } else {
          StillNotifying(s, e);
        }
      } else {
        LastOneNotifies(s, e);
      }
    }
  }

  lemma StillNotifying<M>(s: State<M>, e: Event)
    requires s.remaining == 0 && !AllNotified(s) && Inv(s) && !Notifies(s, e)
    ensures !AllNotified(Apply(s, e))
  {
    UnfinishedZero(s.status);
    var w :| 0 <= w < |s.workers| && s.workers[w].Notifying?;
    assert Apply(s, e).workers[w].Notifying?;
  }

  lemma LastOneNotifies<M>(s: State<M>, e: Event)
    requires s.remaining > 0 && Apply(s, e).remaining == 0
    ensures !AllNotified(Apply(s, e))
  {
    assert Apply(s, e).workers[e.w].Notifying?;
  }

  // Over whole runs without spurious wake-ups: the cycle thread is left waiting, with no task and no
  // notification to come, exactly when some notification was lost.
  lemma StuckIffLost<M>(results: seq<seq<M>>, workers: nat, events: seq<Event>)
    requires results != [] && Spurious !in events
    ensures var s := Exec(results, workers, events);
      AllNotified(s) && Waits(s) <==> exists i :: LostAt(results, workers, events, i)
  {
    var s := Exec(results, workers, events);
    if AllNotified(s) { NotifiedOrNotifying(results, workers, events); }
    forall i | NotifiedAt(results, workers, events, i)
      ensures AllNotified(s) && (Waits(s) <==> LostAt(results, workers, events, i))
    {
      var before, e, after := events[..i], events[i], events[i + 1..];
      assert events == before + [e] + after;
      WakeupIsLostIff(results, workers, before, e, after);
      NotifierHolds(results, workers, before);
      assert (before + [e])[..|before|] == before;
      NotifyEndsIt(Exec(results, workers, before), e);
      StaysForGood(results, workers, before + [e], after);
    }
  }

  lemma Extend<M>(results: seq<seq<M>>, workers: nat, events: seq<Event>, s: State<M>, e: Event)
    returns (more: seq<Event>)
    requires Exec(results, workers, events) == s
    ensures Exec(results, workers, more) == Apply(s, e)
  {
    more := events + [e];
    assert more[..|events|] == events;
  }

  lemma OneTaskSubmitted<M>(metrics: seq<M>) returns (events: seq<Event>)
    ensures Exec([metrics], 1, events) == State([metrics], [Queued], [0], [Idle], [[]], 1, Checking)
  {
    var s := State([metrics], [Unsubmitted], [], [Idle], [[]], 1, Submitting);
    assert Initial([metrics], 1) == s;
    var t := Extend([metrics], 1, [], s, Submit);
    var s1 := State([metrics], [Queued], [0], [Idle], [[]], 1, Submitting);
    assert Exec([metrics], 1, t) == s1;
    assert NextToSubmit([Queued]) == 1;
    events := Extend([metrics], 1, t, s1, Submit);
  }

  // The single worker runs the single task up to its notification.
  lemma OneTaskDone<M>(metrics: seq<M>, main: Main<M>, events: seq<Event>) returns (more: seq<Event>)
    requires Exec([metrics], 1, events) == State([metrics], [Queued], [0], [Idle], [[]], 1, main)
    ensures Exec([metrics], 1, more) == State([metrics], [Done], [], [Notifying], [metrics], 0, main)
  {
    var t := Extend([metrics], 1, events, State([metrics], [Queued], [0], [Idle], [[]], 1, main), Take(0));
    var s1 := State([metrics], [Running], [], [Probing(0)], [[]], 1, main);
    assert Exec([metrics], 1, t) == s1;
    t := Extend([metrics], 1, t, s1, Write(0));
    var s2 := State([metrics], [Written], [], [Wrote(0)], [metrics], 1, main);
    assert Exec([metrics], 1, t) == s2;
    more := Extend([metrics], 1, t, s2, CountDown(0));
  }

  // One task is enough: its worker notifies after the predicate was found false and before the
  // cycle thread has blocked.
  lemma LostWakeupIsReachable<M>(metrics: seq<M>) returns (events: seq<Event>)
    ensures var s := Exec([metrics], 1, events); AllNotified(s) && s.main.Blocked?
  {
    var t := OneTaskSubmitted(metrics);
    t := Extend([metrics], 1, t, State([metrics], [Queued], [0], [Idle], [[]], 1, Checking), Check);
    t := OneTaskDone(metrics, AboutToBlock, t);
    t := Extend([metrics], 1, t, State([metrics], [Done], [], [Notifying], [metrics], 0, AboutToBlock), Notify(0));
    events := Extend([metrics], 1, t, State([metrics], [Done], [], [Idle], [metrics], 0, AboutToBlock), Block);
  }

  // The other order is reachable too: the wait returns, and with it the scope that owns the
  // condition variable, while the last worker has yet to notify it.
  lemma NotifyAfterReturnIsReachable<M>(metrics: seq<M>) returns (events: seq<Event>)
    ensures var s := Exec([metrics], 1, events); s.main.Joined? && s.workers == [Notifying]
  {
    var t := OneTaskSubmitted(metrics);
    t := OneTaskDone(metrics, Checking, t);
    events := Extend([metrics], 1, t, State([metrics], [Done], [], [Notifying], [metrics], 0, Checking), Check);
  }

  /** The shared variables of one cycle. Every method is one atomic step of the cycle thread or of
      a pool worker; results stands for what the probes will measure. */
  class Cycle<M> {
    const results: seq<seq<M>>
    const poolSize: nat
    var status: seq<Status>
    var queue: seq<nat>
    var workers: seq<Worker>
    var slots: seq<seq<M>>
    var remaining: nat
    var main: Main<M>
    ghost var history: seq<Event>

    ghost function Contents(): State<M>
      reads this
    {
      State(results, status, queue, workers, slots, remaining, main)
    }

    ghost predicate Valid()
      reads this
    {
      Contents() == Exec(results, poolSize, history)
    }

    ghost method Record(e: Event)
      requires Apply(Exec(results, poolSize, history), e) == Contents()
      modifies this`history
      ensures history == old(history) + [e] && Valid()
    {
      history := history + [e];
      assert history[..|history| - 1] == old(history);
    }

    constructor (results: seq<seq<M>>, poolSize: nat)
      ensures Valid() && Contents() == Initial(results, poolSize)
    {
      this.results, this.poolSize := results, poolSize;
      status, queue, workers := seq(|results|, _ => Unsubmitted), [], seq(poolSize, _ => Idle);
      slots, remaining := seq(|results|, _ => []), |results|;
      main := if results == [] then Joined([]) else Submitting;
      history := [];
    }

    // One iteration of the submitting loop.
    method SubmitNext()
      requires Valid() && main.Submitting?
      modifies this
      ensures Valid() && history == old(history) + [Submit] && workers == old(workers) && slots == old(slots)
      ensures main.Checking? <==> forall j :: 0 <= j < |old(status)| ==> !old(status)[j].Unsubmitted?
      ensures main.Checking? ==> queue == old(queue) && status == old(status)
      ensures !main.Checking? ==> main.Submitting? && exists i :: Submits(old(status), old(queue), i, status, queue)
    {
      var i := NextToSubmit(status);
      if i == |status| {
        main := Checking;
      } else {
        status, queue := status[i := Queued], queue + [i];
        assert Submits(old(status), old(queue), i, status, queue);
      }
      Record(Submit);
    }

    method TakeTask(w: nat)
      requires Valid() && w < |workers| && workers[w].Idle? && queue != []
      modifies this
      ensures Valid() && history == old(history) + [Take(w)]
      ensures workers[w] == Probing(old(queue)[0]) && queue == old(queue)[1..]
    {
      InvHolds(results, poolSize, history);
      var i := queue[0];
      queue := queue[1..];
      status, workers := status[i := Running], workers[w := Probing(i)];
      Record(Take(w));
    }

    method RunTask(w: nat)
      requires Valid() && w < |workers| && workers[w].Probing?
      modifies this
      ensures Valid() && history == old(history) + [Write(w)]
      ensures var i := old(workers)[w].task;
        i < |results| == |old(slots)| && slots == old(slots)[i := results[i]]
    {
      InvHolds(results, poolSize, history);
      var i := workers[w].task;
      slots := slots[i := results[i]];
      status, workers := status[i := Written], workers[w := Wrote(i)];
      Record(Write(w));
    }

    method CountDownLatch(w: nat)
      requires Valid() && w < |workers| && workers[w].Wrote?
      modifies this
      ensures Valid() && history == old(history) + [CountDown(w)] && remaining == old(remaining) - 1
      ensures workers[w].Notifying? <==> remaining == 0
    {
      InvHolds(results, poolSize, history);
      UnfinishedUpdate(status, workers[w].task, Done);
      var i := workers[w].task;
      remaining := remaining - 1;
      status := status[i := Done];
      workers := workers[w := if remaining == 0 then Notifying else Idle];
      Record(CountDown(w));
    }

    method NotifyOne(w: nat)
      requires Valid() && w < |workers| && workers[w].Notifying?
      modifies this
      ensures Valid() && history == old(history) + [Notify(w)]
      ensures main == if old(main).Blocked? then Checking else old(main)
    {
      workers := workers[w := Idle];
      if main.Blocked? { main := Checking; }
      Record(Notify(w));
    }

    // Evaluates the wait predicate; when it holds the wait returns and the slots are collected.
    method CheckDone() returns (done: bool)
      requires Valid() && main.Checking?
      modifies this
      ensures Valid() && history == old(history) + [Check]
      ensures done <==> old(remaining) == 0
      ensures done ==> main == Joined(Concat(results))
    {
      InvHolds(results, poolSize, history);
      done := remaining == 0;
      if done {
        CheckKeeps(Contents());
        var out := Collect();
        main := Joined(out);
      } else {
        main := AboutToBlock;
      }
      Record(Check);
    }

    // Joins the slots in submission order.
    method Collect() returns (out: seq<M>)
      ensures out == Concat(slots)
    {
      out := [];
      var i := 0;
      while i < |slots|
        invariant 0 <= i <= |slots| && out == Concat(slots[..i])
      {
        ConcatAppend(slots[..i], slots[i]);
        assert slots[..i] + [slots[i]] == slots[..i + 1];
        out := out + slots[i];
        i := i + 1;
      }
      assert slots[..|slots|] == slots;
    }

    method BlockOnCondition()
      requires Valid() && main.AboutToBlock?
      modifies this
      ensures Valid() && history == old(history) + [Block] && main.Blocked?
    {
      main := Blocked;
      Record(Block);
    }
  }
}
