/** When a probe cycle can still come to its end: from every state of every interleaving but the one
    in which the cycle thread waits for a notification that has been made. */
module ForkJoinProgress {
  import opened ForkJoin

  // ----- no task is forgotten -----

  ghost predicate Has<M>(s: State<M>, w: int, i: nat) {
    0 <= w < |s.workers| && s.workers[w].HasTask() && s.workers[w].task == i
  }

  // A task that has been submitted and is not done is in the queue or with a worker.
  ghost predicate Covered<M>(s: State<M>) {
    && (forall i :: 0 <= i < |s.status| && s.status[i].Queued? ==> i in s.queue)
    && (forall i :: 0 <= i < |s.status| && (s.status[i].Running? || s.status[i].Written?) ==> exists w :: Has(s, w, i))
    && (!s.main.Submitting? ==> forall i :: 0 <= i < |s.status| ==> !s.status[i].Unsubmitted?)
  }

  ghost predicate Good<M>(s: State<M>) { Inv(s) && NotifierInv(s) && Covered(s) }

  lemma SubmitCovers<M>(s: State<M>)
    requires Inv(s) && Covered(s) && s.main.Submitting?
    ensures Covered(Apply(s, Submit))
  {
    var s', i := Apply(s, Submit), NextToSubmit(s.status);
    forall j | 0 <= j < |s'.status| && s'.status[j].Queued? ensures j in s'.queue {
      if j == i { assert i < |s.status| ==> s'.queue[|s.queue|] == i; }
    }
    forall j | 0 <= j < |s'.status| && (s'.status[j].Running? || s'.status[j].Written?)
      ensures exists w :: Has(s', w, j)
    {
      var w :| Has(s, w, j);
      assert Has(s', w, j);
    }
  }

  lemma TakeCovers<M>(s: State<M>, w: nat)
    requires Inv(s) && Covered(s) && w < |s.workers| && s.workers[w].Idle? && s.queue != []
    ensures Covered(Apply(s, Take(w)))
  {
    var s', i := Apply(s, Take(w)), s.queue[0];
    assert Has(s', w, i);
    forall j | 0 <= j < |s'.status| && (s'.status[j].Running? || s'.status[j].Written?)
      ensures exists v :: Has(s', v, j)
    {
      if j != i {
        var v :| Has(s, v, j);
        assert Has(s', v, j);
      }
    }
    forall j | 0 <= j < |s'.status| && s'.status[j].Queued? ensures j in s'.queue {
      var k :| 0 <= k < |s.queue| && s.queue[k] == j;
      assert s'.queue[k - 1] == j;
    }
  }

  // Writing and counting down change one worker and the status of its own task.
  lemma WorkCovers<M>(s: State<M>, e: Event)
    requires Inv(s) && Covered(s) && (e.Write? || e.CountDown?)
    ensures Covered(Apply(s, e))
  {
    var s' := Apply(s, e);
    forall j | 0 <= j < |s'.status| && (s'.status[j].Running? || s'.status[j].Written?)
      ensures exists v :: Has(s', v, j)
    {
      var v :| Has(s, v, j);
      assert Has(s', v, j);
    }
  }

  lemma OthersCover<M>(s: State<M>, e: Event)
    requires Inv(s) && Covered(s) && (e.Notify? || e.Check? || e.Block? || e.Spurious?)
    ensures Covered(Apply(s, e))
  {
    var s' := Apply(s, e);
    forall j | 0 <= j < |s'.status| && (s'.status[j].Running? || s'.status[j].Written?)
      ensures exists v :: Has(s', v, j)
    {
      var v :| Has(s, v, j);
      assert Has(s', v, j);
    }
  }

  lemma GoodStep<M>(s: State<M>, e: Event)
    requires Good(s)
    ensures Good(Apply(s, e))
  {
    InvStep(s, e);
    NotifierStep(s, e);
    match e
    case Submit => if s.main.Submitting? { SubmitCovers(s); }
    case Take(w) => if w < |s.workers| && s.workers[w].Idle? && s.queue != [] { TakeCovers(s, w); }
    case Write(_) => WorkCovers(s, e);
    case CountDown(_) => WorkCovers(s, e);
    case _ => OthersCover(s, e);
  }

  lemma WorkersStay<M>(s: State<M>, e: Event)
    ensures |Apply(s, e).workers| == |s.workers|
  {
  }

  lemma {:induction false} GoodHolds<M>(results: seq<seq<M>>, workers: nat, events: seq<Event>)
    ensures Good(Exec(results, workers, events)) && |Exec(results, workers, events).workers| == workers
  {
    if events == [] {
      InitialInv(results, workers);
    } else {
      GoodHolds(results, workers, events[..|events| - 1]);
      var s, e := Exec(results, workers, events[..|events| - 1]), events[|events| - 1];
      GoodStep(s, e);
      WorkersStay(s, e);
    }
  }

  // ----- how much is left to do -----

  ghost function Weight(x: Status): nat {
    match x case Unsubmitted => 5 case Queued => 4 case Running => 3 case Written => 2 case Done => 0
  }

  ghost function Weights(status: seq<Status>): nat {
    if status == [] then 0 else Weight(status[0]) + Weights(status[1..])
  }

  lemma {:induction false} WeightsUpdate(status: seq<Status>, i: nat, x: Status)
    requires i < |status|
    ensures Weights(status[i := x]) + Weight(status[i]) == Weights(status) + Weight(x)
  {
    if i == 0 {
      assert status[0 := x][1..] == status[1..];
    } else {
      WeightsUpdate(status[1..], i - 1, x);
      assert status[i := x][1..] == status[1..][i - 1 := x];
    }
  }

  ghost function Notifiers(workers: seq<Worker>): nat {
    if workers == [] then 0 else (if workers[0].Notifying? then 1 else 0) + Notifiers(workers[1..])
  }

  ghost function One(w: Worker): nat { if w.Notifying? then 1 else 0 }

  lemma {:induction false} NotifiersUpdate(workers: seq<Worker>, w: nat, x: Worker)
    requires w < |workers|
    ensures Notifiers(workers[w := x]) + One(workers[w]) == Notifiers(workers) + One(x)
  {
    if w == 0 {
      assert workers[0 := x][1..] == workers[1..];
    } else {
      NotifiersUpdate(workers[1..], w - 1, x);
      assert workers[w := x][1..] == workers[1..][w - 1 := x];
    }
  }

  ghost function MainWeight<M>(m: Main<M>): nat {
    match m case Submitting => 4 case AboutToBlock => 3 case Blocked => 2 case Checking => 1 case Joined(_) => 0
  }

  ghost function Load<M>(s: State<M>): nat { Weights(s.status) + Notifiers(s.workers) + MainWeight(s.main) }

  // ----- there is always something useful to do -----

  ghost predicate Stuck<M>(s: State<M>) { AllNotified(s) && Waits(s) }

  // The event brings the cycle nearer to its end and does not get it stuck.
  ghost predicate Helps<M>(s: State<M>, e: Event) {
    e != Spurious && Load(Apply(s, e)) < Load(s) && !Stuck(Apply(s, e))
  }

  lemma SubmitHelps<M>(s: State<M>)
    requires Good(s) && s.main.Submitting?
    ensures Helps(s, Submit)
  {
    var i := NextToSubmit(s.status);
    if i < |s.status| { WeightsUpdate(s.status, i, Queued); }
  }

  lemma WriteHelps<M>(s: State<M>, w: nat)
    requires Good(s) && w < |s.workers| && s.workers[w].Probing?
    ensures Helps(s, Write(w))
  {
    var i := s.workers[w].task;
    WeightsUpdate(s.status, i, Written);
    NotifiersUpdate(s.workers, w, Wrote(i));
    UnfinishedUpdate(s.status, i, Written);
  }

  lemma CountDownHelps<M>(s: State<M>, w: nat)
    requires Good(s) && w < |s.workers| && s.workers[w].Wrote?
    ensures Helps(s, CountDown(w))
  {
    var i := s.workers[w].task;
    WeightsUpdate(s.status, i, Done);
    NotifiersUpdate(s.workers, w, if s.remaining == 1 then Notifying else Idle);
    UnfinishedUpdate(s.status, i, Done);
    assert s.remaining == 1 ==> Apply(s, CountDown(w)).workers[w].Notifying?;
  }

  lemma TakeHelps<M>(s: State<M>, w: nat)
    requires Good(s) && w < |s.workers| && s.workers[w].Idle? && s.queue != []
    ensures Helps(s, Take(w))
  {
    WeightsUpdate(s.status, s.queue[0], Running);
    NotifiersUpdate(s.workers, w, Probing(s.queue[0]));
    UnfinishedUpdate(s.status, s.queue[0], Running);
  }

  lemma NotifyHelps<M>(s: State<M>, w: nat)
    requires Good(s) && w < |s.workers| && s.workers[w].Notifying? && s.main.Blocked?
    ensures Helps(s, Notify(w))
  {
    NotifiersUpdate(s.workers, w, Idle);
  }

  lemma {:induction false} AllDone(status: seq<Status>)
    requires forall i :: 0 <= i < |status| ==> status[i].Done?
    ensures Unfinished(status) == 0
  {
    if status != [] { AllDone(status[1..]); }
  }

  ghost predicate NobodyHasATask<M>(s: State<M>) { forall w :: 0 <= w < |s.workers| ==> !s.workers[w].HasTask() }

  // With all submitted, none queued and none with a worker, every task is done.
  lemma NothingLeft<M>(s: State<M>)
    requires Good(s) && !s.main.Submitting? && s.queue == [] && NobodyHasATask(s)
    ensures s.remaining == 0
  {
    forall i | 0 <= i < |s.status| ensures s.status[i].Done? {
      assert !exists w :: Has(s, w, i);
    }
    AllDone(s.status);
  }

  lemma QueuedIsUnfinished<M>(s: State<M>)
    requires Good(s) && s.queue != []
    ensures s.remaining > 0
  {
    UnfinishedUpdate(s.status, s.queue[0], Queued);
  }

  lemma SomethingHelps<M>(s: State<M>) returns (e: Event)
    requires Good(s) && |s.workers| > 0 && !s.main.Joined? && !Stuck(s)
    ensures Helps(s, e)
  {
    if s.main.Submitting? {
      SubmitHelps(s);
      return Submit;
    }
    if w :| 0 <= w < |s.workers| && s.workers[w].HasTask() {
      if s.workers[w].Probing? {
        WriteHelps(s, w);
        return Write(w);
      }
      CountDownHelps(s, w);
      return CountDown(w);
    }
    if s.queue != [] {
      QueuedIsUnfinished(s);
      TakeHelps(s, 0);
      return Take(0);
    }
    NothingLeft(s);
    e := LastStepHelps(s);
  }

  lemma LastStepHelps<M>(s: State<M>) returns (e: Event)
    requires Good(s) && s.remaining == 0 && !s.main.Submitting? && !s.main.Joined? && !Stuck(s)
    ensures Helps(s, e)
  {
    if s.main.Checking? { return Check; }
    var w :| 0 <= w < |s.workers| && s.workers[w].Notifying?;
    if s.main.AboutToBlock? {
      assert Apply(s, Block).workers[w].Notifying?;
      return Block;
    }
    NotifyHelps(s, w);
    return Notify(w);
  }

  // ----- the cycle can finish -----

  lemma OneMore<M>(results: seq<seq<M>>, workers: nat, events: seq<Event>, e: Event)
    ensures Exec(results, workers, events + [e]) == Apply(Exec(results, workers, events), e)
  {
    assert (events + [e])[..|events|] == events;
  }

  lemma Shift(events: seq<Event>, e: Event, rest: seq<Event>)
    ensures events + ([e] + rest) == (events + [e]) + rest && events + [] == events
    ensures e != Spurious && Spurious !in rest ==> Spurious !in [e] + rest
  {
  }

  lemma {:induction false} CanFinish<M>(results: seq<seq<M>>, workers: nat, events: seq<Event>)
    returns (more: seq<Event>)
    requires workers > 0 && !Stuck(Exec(results, workers, events))
    ensures Spurious !in more && Exec(results, workers, events + more).main.Joined?
    decreases Load(Exec(results, workers, events))
  {
    var s := Exec(results, workers, events);
    if s.main.Joined? {
      more := [];
      Shift(events, Check, []);
    } else {
      GoodHolds(results, workers, events);
      var e := SomethingHelps(s);
      OneMore(results, workers, events, e);
      var rest := CanFinish(results, workers, events + [e]);
      more := [e] + rest;
      Shift(events, e, rest);
    }
  }

  // With at least one worker: from a state of any interleaving the cycle can go on to return all its
  // metrics, without spurious wake-ups, if and only if it does not wait for a notification that has
  // been made.
  lemma CanFinishIff<M>(results: seq<seq<M>>, workers: nat, events: seq<Event>)
    requires workers > 0
    ensures Stuck(Exec(results, workers, events)) <==>
      forall more :: Spurious !in more ==> !Exec(results, workers, events + more).main.Joined?
  {
    if Stuck(Exec(results, workers, events)) {
      forall more | Spurious !in more ensures !Exec(results, workers, events + more).main.Joined? {
        StaysForGood(results, workers, events, more);
      }
    } else {
      var more := CanFinish(results, workers, events);
      assert Exec(results, workers, events + more).main.Joined?;
    }
  }
}
