/** The scheduler's work queue: one loop thread that offers claimed runs, four workers that
    execute them, and the set of busy agents, through Start, Stop and restart.

    Each event is one critical section under m_mutex. Runs are numbered in the order they were
    claimed; the number is their ticket. */
module Dispatcher {
  const WORKERS := 4

  datatype Run = Run(ticket: nat, agent: string)

  datatype Worker = Waiting | Executing(run: Run) | Exited

  // How a run left the scheduler. Stranded is a run popped from the queue by a worker that then
  // saw the stop flag and returned; Abandoned was claimed in the table but never queued.
  datatype Fate = Finished | SkippedBusy | Stranded | Abandoned

  datatype Event =
    | Start
    | Offer(agent: string)
    | LoopExit
    | Take(worker: nat)
    | Finish(worker: nat)
    | BeginStop
    | Join

  datatype State = State(
    queue: seq<Run>, busy: set<string>, stop: bool, started: bool, looping: bool, workers: seq<Worker>,
    offered: nat, fates: map<nat, Fate>, stranded: set<string>, everStopped: bool)

  const INITIAL := State([], {}, false, false, false, [], 0, map[], {}, false)

  function Apply(s: State, e: Event): State {
    match e
    case Start =>
      // A Start that finds threads not yet joined is not a step; see StartThreads.
      if s.started || s.looping || s.workers != [] then s
      else s.(started := true, stop := false, looping := true, workers := seq(WORKERS, _ => Waiting))
    case Offer(agent) =>
      if !s.looping then s
      else if s.stop then
        s.(looping := false, offered := s.offered + 1, fates := s.fates[s.offered := Abandoned])
      else if agent in s.busy then
        s.(offered := s.offered + 1, fates := s.fates[s.offered := SkippedBusy])
      else
        s.(offered := s.offered + 1, busy := s.busy + {agent}, queue := s.queue + [Run(s.offered, agent)])
    case LoopExit => if s.stop then s.(looping := false) else s
    case Take(i) =>
      if i >= |s.workers| || !s.workers[i].Waiting? || (s.queue == [] && !s.stop) then s
      else if s.queue == [] then s.(workers := s.workers[i := Exited])
      else if s.stop then
        s.(queue := s.queue[1..], workers := s.workers[i := Exited],
           fates := s.fates[s.queue[0].ticket := Stranded], stranded := s.stranded + {s.queue[0].agent})
      else
        s.(queue := s.queue[1..], workers := s.workers[i := Executing(s.queue[0])])
    case Finish(i) =>
      if i >= |s.workers| || !s.workers[i].Executing? then s
      else
        s.(busy := s.busy - {s.workers[i].run.agent}, workers := s.workers[i := Waiting],
           fates := s.fates[s.workers[i].run.ticket := Finished])
    case BeginStop => if s.started then s.(stop := true, started := false, everStopped := true) else s
    case Join =>
      if s.started || s.looping || exists i :: 0 <= i < |s.workers| && !s.workers[i].Exited? then s
      else s.(workers := [])
  }

  function Exec(s: State, events: seq<Event>): State {
    if events == [] then s
    else Apply(Exec(s, events[..|events| - 1]), events[|events| - 1])
  }

  // Runs that are queued or executing.
  ghost function Live(s: State): set<Run> {
    (set r | r in s.queue) + (set i | 0 <= i < |s.workers| && s.workers[i].Executing? :: s.workers[i].run)
  }

  ghost function Agents(runs: set<Run>): set<string> { set r | r in runs :: r.agent }

  ghost function Tickets(runs: set<Run>): set<int> { set r | r in runs :: r.ticket }

  // One heavy command per agent: no two places in the queue or among the workers share an agent.
  ghost predicate OnePerAgent(s: State) {
    && (forall i, j :: 0 <= i < j < |s.queue| ==> s.queue[i].agent != s.queue[j].agent)
    && (forall i, j :: 0 <= i < j < |s.workers| && s.workers[i].Executing? && s.workers[j].Executing? ==>
          s.workers[i].run.agent != s.workers[j].run.agent)
    && (forall i, j :: 0 <= i < |s.queue| && 0 <= j < |s.workers| && s.workers[j].Executing? ==>
          s.queue[i].agent != s.workers[j].run.agent)
  }

  // The queue is in claim order, and whatever left it did so before everything still in it.
  ghost predicate InClaimOrder(s: State) {
    && (forall i, j :: 0 <= i < j < |s.queue| ==> s.queue[i].ticket < s.queue[j].ticket)
    && (forall i, j :: 0 <= i < |s.queue| && 0 <= j < |s.workers| && s.workers[j].Executing? ==>
          s.workers[j].run.ticket < s.queue[i].ticket)
    && (forall i, t :: 0 <= i < |s.queue| && t in s.fates && (s.fates[t].Finished? || s.fates[t].Stranded?) ==>
          t < s.queue[i].ticket)
  }

  // Every busy agent has exactly one live run or is stranded, never both; every ticket handed out
  // is exactly one of live and retired.
  ghost predicate Books(s: State, live: set<Run>) {
    && (forall q, r :: q in live && r in live && (q.agent == r.agent || q.ticket == r.ticket) ==> q == r)
    && s.busy == s.stranded + Agents(live) && s.stranded !! Agents(live)
    && (forall t :: 0 <= t < s.offered <==> t in s.fates || t in Tickets(live))
    && (forall t :: t in s.fates ==> t !in Tickets(live))
  }

  // Until the first Stop nothing is stranded or abandoned, so the busy set is exactly the agents
  // of the queued and executing runs.
  ghost predicate CleanUntilStopped(s: State) {
    s.everStopped ||
    (!s.stop && s.stranded == {} && forall t :: t in s.fates ==> !s.fates[t].Stranded? && !s.fates[t].Abandoned?)
  }

  ghost predicate Inv(s: State) {
    OnePerAgent(s) && InClaimOrder(s) && Books(s, Live(s)) && CleanUntilStopped(s)
  }

  // ----- bookkeeping on the set of live runs -----

  lemma BooksAdd(s: State, s': State, live: set<Run>, r: Run)
    requires Books(s, live) && r.ticket == s.offered && r.agent !in s.busy
    requires s'.busy == s.busy + {r.agent} && s'.stranded == s.stranded
    requires s'.offered == s.offered + 1 && s'.fates == s.fates
    ensures Books(s', live + {r})
  {
    forall q | q in live ensures q.agent in s.busy && q.ticket < s.offered {
      assert q.agent in Agents(live) && q.ticket in Tickets(live);
    }
    assert Agents(live + {r}) == Agents(live) + {r.agent};
    assert Tickets(live + {r}) == Tickets(live) + {r.ticket};
  }

  lemma BooksRetire(s: State, s': State, live: set<Run>, r: Run)
    requires Books(s, live) && r in live && s'.offered == s.offered
    requires s'.fates.Keys == s.fates.Keys + {r.ticket}
    requires || (s'.busy == s.busy - {r.agent} && s'.stranded == s.stranded)
             || (s'.busy == s.busy && s'.stranded == s.stranded + {r.agent})
    ensures Books(s', live - {r})
  {
    assert r.agent in Agents(live) && r.ticket in Tickets(live);
    assert Agents(live - {r}) == Agents(live) - {r.agent};
    assert Tickets(live - {r}) == Tickets(live) - {r.ticket};
  }

  // ----- every event keeps the invariant -----

  // Live runs are known agents with earlier tickets, wherever they are.
  lemma Placed(s: State)
    requires Books(s, Live(s))
    ensures forall i :: 0 <= i < |s.queue| ==> s.queue[i].agent in s.busy && s.queue[i].ticket < s.offered
    ensures forall i :: 0 <= i < |s.workers| && s.workers[i].Executing? ==>
      s.workers[i].run.agent in s.busy && s.workers[i].run.ticket < s.offered
    ensures forall t :: t in s.fates ==> t < s.offered
  {
    forall q | q in Live(s) ensures q.agent in s.busy && q.ticket < s.offered {
      assert q.agent in Agents(Live(s)) && q.ticket in Tickets(Live(s));
    }
    assert forall i :: 0 <= i < |s.queue| ==> s.queue[i] in Live(s);
    assert forall i :: 0 <= i < |s.workers| && s.workers[i].Executing? ==> s.workers[i].run in Live(s);
  }

  lemma OfferKeepsPlaces(s: State, agent: string)
    requires OnePerAgent(s) && InClaimOrder(s) && Books(s, Live(s))
    ensures OnePerAgent(Apply(s, Offer(agent))) && InClaimOrder(Apply(s, Offer(agent)))
  {
    Placed(s);
    if s.looping {
      if s.stop { NoteKeepsPlaces(s, Apply(s, Offer(agent)), Abandoned); }
      else if agent in s.busy { NoteKeepsPlaces(s, Apply(s, Offer(agent)), SkippedBusy); }
      else { AppendKeepsPlaces(s, Apply(s, Offer(agent)), Run(s.offered, agent)); }
    }
  }

  lemma NoteKeepsPlaces(s: State, s': State, fate: Fate)
    requires OnePerAgent(s) && InClaimOrder(s) && (fate.Abandoned? || fate.SkippedBusy?)
    requires s'.queue == s.queue && s'.workers == s.workers && s'.fates == s.fates[s.offered := fate]
    ensures OnePerAgent(s') && InClaimOrder(s')
  {
  }

  lemma AppendKeepsPlaces(s: State, s': State, r: Run)
    requires OnePerAgent(s) && InClaimOrder(s)
    requires s'.queue == s.queue + [r] && s'.workers == s.workers && s'.fates == s.fates
    requires forall i :: 0 <= i < |s.queue| ==> s.queue[i].agent != r.agent && s.queue[i].ticket < r.ticket
    requires forall i :: 0 <= i < |s.workers| && s.workers[i].Executing? ==>
      s.workers[i].run.agent != r.agent && s.workers[i].run.ticket < r.ticket
    requires forall t :: t in s.fates ==> t < r.ticket
    ensures OnePerAgent(s') && InClaimOrder(s')
  {
  }

  lemma OfferKeepsBooks(s: State, agent: string)
    requires Books(s, Live(s))
    ensures Books(Apply(s, Offer(agent)), Live(Apply(s, Offer(agent))))
  {
    var s' := Apply(s, Offer(agent));
    if s.looping && !s.stop && agent !in s.busy {
      assert Live(s') == Live(s) + {Run(s.offered, agent)};
      BooksAdd(s, s', Live(s), Run(s.offered, agent));
    } else {
      assert Live(s') == Live(s);
      assert s.offered !in Tickets(Live(s));
    }
  }

  lemma OfferKeeps(s: State, agent: string)
    requires Inv(s)
    ensures Inv(Apply(s, Offer(agent)))
  {
    OfferKeepsPlaces(s, agent);
    OfferKeepsBooks(s, agent);
  }

  lemma TakeKeepsPlaces(s: State, i: nat)
    requires OnePerAgent(s) && InClaimOrder(s) && i < |s.workers| && s.workers[i].Waiting? && s.queue != []
    ensures OnePerAgent(Apply(s, Take(i))) && InClaimOrder(Apply(s, Take(i)))
  {
    var s' := Apply(s, Take(i));
    HeadLeavesPlaces(s, s', i);
    HeadLeavesOrder(s, s', i);
  }

  lemma HeadLeavesPlaces(s: State, s': State, i: nat)
    requires OnePerAgent(s) && i < |s.workers| && !s.workers[i].Executing? && s.queue != []
    requires s'.queue == s.queue[1..]
    requires s'.workers == s.workers[i := Exited] || s'.workers == s.workers[i := Executing(s.queue[0])]
    ensures OnePerAgent(s')
  {
    assert forall j :: 0 <= j < |s'.queue| ==> s'.queue[j] == s.queue[j + 1];
    assert forall j :: 0 <= j < |s.workers| && j != i ==> s'.workers[j] == s.workers[j];
  }

  lemma HeadLeavesOrder(s: State, s': State, i: nat)
    requires InClaimOrder(s) && i < |s.workers| && !s.workers[i].Executing? && s.queue != []
    requires s'.queue == s.queue[1..]
    requires s'.workers == s.workers[i := Exited] || s'.workers == s.workers[i := Executing(s.queue[0])]
    requires s'.fates == s.fates || s'.fates == s.fates[s.queue[0].ticket := Stranded]
    ensures InClaimOrder(s')
  {
    assert forall j :: 0 <= j < |s'.queue| ==> s'.queue[j] == s.queue[j + 1];
    assert forall j :: 0 <= j < |s.workers| && j != i ==> s'.workers[j] == s.workers[j];
  }

  lemma TakeKeepsBooks(s: State, i: nat)
    requires OnePerAgent(s) && Books(s, Live(s))
    requires i < |s.workers| && s.workers[i].Waiting? && s.queue != []
    ensures Books(Apply(s, Take(i)), Live(Apply(s, Take(i))))
  {
    var s', head := Apply(s, Take(i)), s.queue[0];
    QueueWithoutHead(s);
    WorkerRuns(s.workers, i, if s.stop then Exited else Executing(head));
    assert Live(s) == (set r | r in s.queue) + WorkerSet(s.workers);
    assert Live(s') == (set r | r in s'.queue) + WorkerSet(s'.workers);
    if s.stop {
      assert Live(s') == Live(s) - {head};
      BooksRetire(s, s', Live(s), head);
    } else {
      assert Live(s') == Live(s);
    }
  }

  lemma TakeKeeps(s: State, i: nat)
    requires Inv(s) && i < |s.workers| && s.workers[i].Waiting? && s.queue != []
    ensures Inv(Apply(s, Take(i)))
  {
    TakeKeepsPlaces(s, i);
    TakeKeepsBooks(s, i);
  }

  lemma QueueWithoutHead(s: State)
    requires s.queue != [] && OnePerAgent(s)
    ensures (set r | r in s.queue[1..]) == (set r | r in s.queue) - {s.queue[0]}
    ensures s.queue[0] !in WorkerSet(s.workers)
  {
    forall r | r in s.queue && r != s.queue[0] ensures r in s.queue[1..] {
      var k :| 0 <= k < |s.queue| && s.queue[k] == r;
      assert s.queue[1..][k - 1] == r;
    }
  }

  ghost function WorkerSet(workers: seq<Worker>): set<Run> {
    set i | 0 <= i < |workers| && workers[i].Executing? :: workers[i].run
  }

  // A worker changing from or to an idle state takes or leaves one run.
  lemma WorkerRuns(workers: seq<Worker>, i: nat, w: Worker)
    requires i < |workers| && (!workers[i].Executing? || !w.Executing?)
    requires forall j, k :: 0 <= j < k < |workers| && workers[j].Executing? && workers[k].Executing? ==>
      workers[j].run != workers[k].run
    ensures WorkerSet(workers[i := w]) ==
      if w.Executing? then WorkerSet(workers) + {w.run}
      else if workers[i].Executing? then WorkerSet(workers) - {workers[i].run}
      else WorkerSet(workers)
  {
    var after := workers[i := w];
    forall k | 0 <= k < |workers| && k != i && workers[k].Executing?
      ensures workers[k].run in WorkerSet(after)
    {
      assert after[k] == workers[k];
    }
    if w.Executing? { assert after[i].run in WorkerSet(after); }
  }

  lemma FinishKeepsPlaces(s: State, i: nat)
    requires OnePerAgent(s) && InClaimOrder(s) && i < |s.workers| && s.workers[i].Executing?
    ensures OnePerAgent(Apply(s, Finish(i))) && InClaimOrder(Apply(s, Finish(i)))
  {
    var s' := Apply(s, Finish(i));
    assert s'.queue == s.queue && forall j :: 0 <= j < |s.workers| && j != i ==> s'.workers[j] == s.workers[j];
  }

  lemma FinishKeepsBooks(s: State, i: nat)
    requires OnePerAgent(s) && Books(s, Live(s)) && i < |s.workers| && s.workers[i].Executing?
    ensures Books(Apply(s, Finish(i)), Live(Apply(s, Finish(i))))
  {
    var s', r := Apply(s, Finish(i)), s.workers[i].run;
    WorkerRuns(s.workers, i, Waiting);
    assert r in Live(s) && r !in s.queue;
    assert Live(s') == Live(s) - {r};
    BooksRetire(s, s', Live(s), r);
  }

  lemma FinishKeeps(s: State, i: nat)
    requires Inv(s) && i < |s.workers| && s.workers[i].Executing?
    ensures Inv(Apply(s, Finish(i)))
  {
    FinishKeepsPlaces(s, i);
    FinishKeepsBooks(s, i);
  }

  lemma InvStep(s: State, e: Event)
    requires Inv(s)
    ensures Inv(Apply(s, e))
  {
    var s' := Apply(s, e);
    match e
    case Offer(agent) => OfferKeeps(s, agent);
    case Take(i) =>
      if i < |s.workers| && s.workers[i].Waiting? {
        if s.queue != [] { TakeKeeps(s, i); }
        else {
          WorkerRuns(s.workers, i, Exited);
          assert Live(s') == Live(s);
        }
      }
    case Finish(i) =>
      if i < |s.workers| && s.workers[i].Executing? { FinishKeeps(s, i); }
    case Start => assert Live(s') == Live(s);
    case Join => assert Live(s') == Live(s);
    case _ => assert Live(s') == Live(s);
  }

  lemma {:induction false} InvHolds(events: seq<Event>)
    ensures Inv(Exec(INITIAL, events))
  {
    if events == [] {
      assert Live(INITIAL) == {};
    } else {
      InvHolds(events[..|events| - 1]);
      InvStep(Exec(INITIAL, events[..|events| - 1]), events[|events| - 1]);
    }
  }

  // ----- the theorems about whole runs -----

  // At every moment, during and after Stop and across restarts, the agents of queued and executing
  // runs are pairwise distinct and busy; until the first Stop nothing else is busy.
  lemma OneCommandPerAgent(events: seq<Event>)
    ensures var s := Exec(INITIAL, events);
      && OnePerAgent(s) && Agents(Live(s)) <= s.busy
      && (!s.everStopped ==> s.busy == Agents(Live(s)))
  {
    InvHolds(events);
  }

  // No claimed run is lost or duplicated: its ticket is live exactly when it has no fate, and
  // workers take runs in the order they were claimed.
  lemma EveryRunAccountedFor(events: seq<Event>, t: nat)
    requires t < Exec(INITIAL, events).offered
    ensures var s := Exec(INITIAL, events);
      && (t in s.fates <==> t !in Tickets(Live(s)))
      && InClaimOrder(s)
  {
    InvHolds(events);
  }

  lemma {:induction false} StrandedStays(s: State, events: seq<Event>, agent: string)
    requires Inv(s) && agent in s.stranded
    ensures Inv(Exec(s, events)) && agent in Exec(s, events).stranded
  {
    if events != [] {
      StrandedStays(s, events[..|events| - 1], agent);
      InvStep(Exec(s, events[..|events| - 1]), events[|events| - 1]);
      StrandedGrows(Exec(s, events[..|events| - 1]), events[|events| - 1]);
    }
  }

  lemma StrandedGrows(s: State, e: Event)
    ensures s.stranded <= Apply(s, e).stranded
  {
  }

  // A worker pops a run of the agent with the stop flag set.
  ghost predicate Strands(s: State, e: Event, agent: string) {
    && e.Take? && s.stop && s.queue != [] && s.queue[0].agent == agent
    && e.worker < |s.workers| && s.workers[e.worker].Waiting?
  }

  ghost predicate StrandsAt(events: seq<Event>, i: int, agent: string) {
    0 <= i < |events| && Strands(Exec(INITIAL, events[..i]), events[i], agent)
  }

  lemma {:induction false} StrandedIff(events: seq<Event>, agent: string)
    ensures agent in Exec(INITIAL, events).stranded <==> exists i :: StrandsAt(events, i, agent)
  {
    if events != [] {
      var front, n := events[..|events| - 1], |events| - 1;
      StrandedIff(front, agent);
      forall i | 0 <= i < n ensures StrandsAt(events, i, agent) <==> StrandsAt(front, i, agent) {
        assert events[..i] == front[..i];
      }
      if i :| StrandsAt(front, i, agent) { assert StrandsAt(events, i, agent); }
      StrandStep(Exec(INITIAL, front), events[n], agent);
      assert StrandsAt(events, n, agent) <==> Strands(Exec(INITIAL, front), events[n], agent);
    }
  }

  lemma StrandStep(s: State, e: Event, agent: string)
    ensures agent in Apply(s, e).stranded <==> agent in s.stranded || Strands(s, e, agent)
  {
  }

  // In every run, an agent is busy with nothing queued or executing for it exactly when a worker
  // popped a run of it after a stop had been requested.
  lemma BusyForNothingIff(events: seq<Event>, agent: string)
    ensures var s := Exec(INITIAL, events);
      agent in s.busy && agent !in Agents(Live(s)) <==> exists i :: StrandsAt(events, i, agent)
  {
    InvHolds(events);
    StrandedIff(events, agent);
  }

  // The cost of the shutdown path: an agent whose run was popped while stopping stays busy, so no
  // later run of that agent is ever queued or executed, whatever happens afterwards.
  lemma StrandedAgentNeverRunsAgain(before: seq<Event>, after: seq<Event>, agent: string)
    requires agent in Exec(INITIAL, before).stranded
    ensures var s := Exec(Exec(INITIAL, before), after);
      agent in s.busy && agent !in Agents(Live(s))
  {
    InvHolds(before);
    StrandedStays(Exec(INITIAL, before), after, agent);
  }

  // It is reachable: one queued run, a stop, and a worker that wakes up to pop it.
  lemma StrandingIsReachable(agent: string)
    ensures exists events :: agent in Exec(INITIAL, events).stranded
  {
    var e0, e1, e2, e3 := Start, Offer(agent), BeginStop, Take(0);
    var events := [e0, e1, e2, e3];
    assert events[..3] == [e0, e1, e2] && [e0, e1, e2][..2] == [e0, e1] && [e0, e1][..1] == [e0] && [e0][..0] == [];
    assert Exec(INITIAL, [e0]) == Apply(INITIAL, e0);
    assert Exec(INITIAL, [e0, e1]) == Apply(Apply(INITIAL, e0), e1);
    assert Exec(INITIAL, [e0, e1, e2]) == Apply(Apply(Apply(INITIAL, e0), e1), e2);
    assert agent in Exec(INITIAL, events).stranded;
  }

  // ----- what the threads can always bring about -----

  lemma {:induction false} ExecConcat(s: State, a: seq<Event>, b: seq<Event>)
    ensures Exec(s, a + b) == Exec(Exec(s, a), b)
  {
    if b == [] {
      assert a + b == a;
    } else {
      ExecConcat(s, a, b[..|b| - 1]);
      assert (a + b)[..|a + b| - 1] == a + b[..|b| - 1];
    }
  }

  lemma ExecOne(s: State, e: Event)
    ensures Exec(s, [e]) == Apply(s, e)
  {
    assert [e][..0] == [];
  }

  // A stop is only ever requested of a started scheduler, and a started one has four workers.
  ghost predicate Phases(s: State) {
    && (s.stop ==> !s.started) && (s.started ==> s.looping && |s.workers| == 4)
    && (s.looping ==> s.workers != [])
  }

  lemma {:induction false} PhasesHold(events: seq<Event>)
    ensures Phases(Exec(INITIAL, events))
  {
    if events != [] { PhasesHold(events[..|events| - 1]); }
  }

  ghost predicate IsShutdown(more: seq<Event>) {
    forall e :: e in more ==> e.LoopExit? || e.Finish? || e.Take? || e.Join?
  }

  // With the stop flag set, worker i returns after at most finishing its run.
  lemma WorkerExits(s: State, i: nat) returns (more: seq<Event>)
    requires s.stop && i < |s.workers|
    ensures IsShutdown(more)
    ensures var s' := Exec(s, more);
      s'.stop && s'.looping == s.looping && s'.started == s.started && s'.workers == s.workers[i := Exited]
  {
    match s.workers[i]
    case Exited =>
      more := [];
      assert s.workers[i := Exited] == s.workers;
    case Waiting =>
      ExecOne(s, Take(i));
      TakeWhileStopping(s, i);
      more := [Take(i)];
    case Executing(_) =>
      var t := Apply(s, Finish(i));
      ExecOne(s, Finish(i));
      ExecOne(t, Take(i));
      ExecConcat(s, [Finish(i)], [Take(i)]);
      TakeWhileStopping(t, i);
      assert s.workers[i := Waiting][i := Exited] == s.workers[i := Exited];
      more := [Finish(i)] + [Take(i)];
  }

  lemma TakeWhileStopping(s: State, i: nat)
    requires s.stop && i < |s.workers| && s.workers[i] == Waiting
    ensures var s' := Apply(s, Take(i));
      s'.stop && s'.looping == s.looping && s'.started == s.started && s'.workers == s.workers[i := Exited]
  {
  }

  lemma {:induction false} WorkersExit(s: State, n: nat) returns (more: seq<Event>)
    requires s.stop && n <= |s.workers|
    ensures IsShutdown(more)
    ensures var s' := Exec(s, more);
      && s'.stop && s'.looping == s.looping && s'.started == s.started && |s'.workers| == |s.workers|
      && forall i :: 0 <= i < n ==> s'.workers[i] == Exited
  {
    if n == 0 {
      more := [];
    } else {
      var front := WorkersExit(s, n - 1);
      var last := WorkerExits(Exec(s, front), n - 1);
      ExecConcat(s, front, last);
      more := front + last;
    }
  }

  // Stop can always finish: from every reachable state in which one was requested, the threads can
  // all return, with no Start and no further run, and be joined.
  lemma StopCanFinish(events: seq<Event>) returns (more: seq<Event>)
    requires Exec(INITIAL, events).stop
    ensures IsShutdown(more)
    ensures var s := Exec(INITIAL, events + more); !s.looping && s.workers == []
  {
    PhasesHold(events);
    var s := Exec(INITIAL, events);
    ExecOne(s, LoopExit);
    var s1 := Apply(s, LoopExit);
    var exits := WorkersExit(s1, |s1.workers|);
    var s2 := Exec(s1, exits);
    ExecOne(s2, Join);
    ExecConcat(s, [LoopExit], exits);
    ExecConcat(s, [LoopExit] + exits, [Join]);
    more := [LoopExit] + exits + [Join];
    ExecConcat(INITIAL, events, more);
  }

  ghost predicate IsWork(more: seq<Event>) { forall e :: e in more ==> e.Take? || e.Finish? }

  lemma {:induction false} WorkersFinish(s: State, n: nat) returns (more: seq<Event>)
    requires !s.stop && n <= |s.workers| && forall i :: 0 <= i < |s.workers| ==> s.workers[i] != Exited
    ensures IsWork(more)
    ensures var s' := Exec(s, more);
      && !s'.stop && s'.queue == s.queue && |s'.workers| == |s.workers|
      && (forall i :: 0 <= i < |s.workers| ==> s'.workers[i] != Exited)
      && forall i :: 0 <= i < n ==> s'.workers[i] == Waiting
  {
    if n == 0 {
      more := [];
    } else {
      more := WorkersFinish(s, n - 1);
      var t := Exec(s, more);
      if t.workers[n - 1].Executing? {
        ExecOne(t, Finish(n - 1));
        ExecConcat(s, more, [Finish(n - 1)]);
        more := more + [Finish(n - 1)];
      }
    }
  }

  lemma {:induction false} QueueDrains(s: State) returns (more: seq<Event>)
    requires !s.stop && s.workers != [] && forall i :: 0 <= i < |s.workers| ==> s.workers[i] == Waiting
    ensures IsWork(more)
    ensures var s' := Exec(s, more);
      s'.queue == [] && forall i :: 0 <= i < |s'.workers| ==> s'.workers[i] == Waiting
    decreases |s.queue|
  {
    if s.queue == [] {
      more := [];
    } else {
      var s1 := Apply(s, Take(0));
      var s2 := Apply(s1, Finish(0));
      ExecOne(s, Take(0));
      ExecOne(s1, Finish(0));
      ExecConcat(s, [Take(0)], [Finish(0)]);
      var rest := QueueDrains(s2);
      ExecConcat(s, [Take(0)] + [Finish(0)], rest);
      more := [Take(0)] + [Finish(0)] + rest;
    }
  }

  // Until a stop is requested no worker has returned.
  lemma {:induction false} WorkersServe(events: seq<Event>)
    ensures var s := Exec(INITIAL, events);
      !s.stop ==> forall i :: 0 <= i < |s.workers| ==> s.workers[i] != Exited
  {
    if events != [] {
      WorkersServe(events[..|events| - 1]);
      PhasesHold(events[..|events| - 1]);
    }
  }

  // While started, everything queued can be executed and finished, and no agent need stay busy but
  // the stranded ones.
  lemma QueueCanDrain(events: seq<Event>) returns (more: seq<Event>)
    requires Exec(INITIAL, events).started
    ensures IsWork(more)
    ensures var s := Exec(INITIAL, events + more);
      s.queue == [] && Live(s) == {} && s.busy == s.stranded
  {
    PhasesHold(events);
    WorkersServe(events);
    var s := Exec(INITIAL, events);
    var finish := WorkersFinish(s, |s.workers|);
    var drain := QueueDrains(Exec(s, finish));
    ExecConcat(s, finish, drain);
    more := finish + drain;
    ExecConcat(INITIAL, events, more);
    InvHolds(events + more);
    var t := Exec(INITIAL, events + more);
    assert Live(t) == {};
    assert Agents(Live(t)) == {};
  }

  /** The scheduler object. Each method is one critical section of one of its threads; workers[i]
      and looping say where the threads are between their critical sections. */
  class CommandScheduler {
    var queue: seq<Run>
    var busy: set<string>
    var stop: bool
    var started: bool
    var looping: bool
    var workers: seq<Worker>
    var offered: nat
    ghost var fates: map<nat, Fate>
    ghost var stranded: set<string>
    ghost var everStopped: bool
    ghost var history: seq<Event>

    ghost function Contents(): State
      reads this
    {
      State(queue, busy, stop, started, looping, workers, offered, fates, stranded, everStopped)
    }

    // Whatever the threads did, the object is in a state the theorems above speak of.
    ghost predicate Valid()
      reads this
    {
      Contents() == Exec(INITIAL, history)
    }

    ghost method Record(e: Event)
      requires Apply(Exec(INITIAL, history), e) == Contents()
      modifies this`history
      ensures history == old(history) + [e] && Valid()
    {
      history := history + [e];
      assert history[..|history| - 1] == old(history);
    }

    constructor ()
      ensures Valid() && Contents() == INITIAL
    {
      queue, busy, workers := [], {}, [];
      stop, started, looping := false, false, false;
      offered, fates, stranded, everStopped := 0, map[], {}, false;
      history := [];
    }

    // A call while Stop is still joining would overwrite threads that have not been joined, which
    // ends the process; it is reported instead.
    method StartThreads() returns (alive: bool)
      requires Valid()
      modifies this
      ensures alive <==> old(started) || (!old(looping) && old(workers) == [])
      ensures alive ==> Valid() && history == old(history) + [Start] && started
      ensures alive && !old(started) ==> !stop && looping && workers == [Waiting, Waiting, Waiting, Waiting]
      ensures alive ==> queue == old(queue) && busy == old(busy) && (old(started) ==> Contents() == old(Contents()))
      ensures !alive ==> Contents() == old(Contents())
    {
      if started {
        Record(Start);
        return true;
      }
      if looping || workers != [] { return false; }
      started, stop := true, false;
      looping := true;
      workers := seq(WORKERS, _ => Waiting);
      Record(Start);
      return true;
    }

    // The loop thread, holding a run it has just claimed.
    method OfferRun(agent: string) returns (queued: bool)
      requires Valid() && looping
      modifies this
      ensures Valid() && history == old(history) + [Offer(agent)]
      ensures queued <==> !old(stop) && agent !in old(busy)
      ensures queue == if queued then old(queue) + [Run(old(offered), agent)] else old(queue)
      ensures busy == if queued then old(busy) + {agent} else old(busy)
      ensures looping <==> !old(stop)
      ensures workers == old(workers) && stop == old(stop)
    {
      queued := false;
      if stop {
        looping := false;
        fates := fates[offered := Abandoned];
      } else if agent in busy {
        fates := fates[offered := SkippedBusy];
      } else {
        busy := busy + {agent};
        queue := queue + [Run(offered, agent)];
        queued := true;
      }
      offered := offered + 1;
      Record(Offer(agent));
    }

    // The loop thread, woken from its wait.
    method WakeLoop()
      requires Valid() && looping
      modifies this
      ensures Valid() && history == old(history) + [LoopExit]
      ensures looping <==> !stop
      ensures queue == old(queue) && busy == old(busy) && workers == old(workers) && stop == old(stop)
    {
      if stop { looping := false; }
      Record(LoopExit);
    }

    // A worker, woken from its wait.
    method TakeRun(i: nat) returns (run: Worker)
      requires Valid() && i < |workers| && workers[i] == Waiting
      modifies this
      ensures Valid() && history == old(history) + [Take(i)]
      ensures run.Executing? <==> old(queue) != [] && !old(stop)
      ensures run.Executing? ==> run.run == old(queue)[0]
      ensures old(stop) ==> run == Exited
      ensures old(queue) == [] && !old(stop) ==> run == Waiting
      ensures workers == old(workers)[i := run] && queue == (if old(queue) == [] then [] else old(queue)[1..])
      ensures busy == old(busy) && looping == old(looping) && stop == old(stop)
    {
      if queue == [] {
        run := if stop then Exited else Waiting;
      } else {
        var next := queue[0];
        queue := queue[1..];
        if stop {
          fates, stranded := fates[next.ticket := Stranded], stranded + {next.agent};
          run := Exited;
        } else {
          run := Executing(next);
        }
      }
      workers := workers[i := run];
      Record(Take(i));
    }

    // A worker whose command has returned.
    method FinishRun(i: nat)
      requires Valid() && i < |workers| && workers[i].Executing?
      modifies this
      ensures Valid() && history == old(history) + [Finish(i)]
      ensures busy == old(busy) - {old(workers[i].run.agent)} && workers == old(workers)[i := Waiting]
      ensures queue == old(queue) && looping == old(looping) && stop == old(stop)
    {
      var run := workers[i].run;
      busy := busy - {run.agent};
      fates := fates[run.ticket := Finished];
      workers := workers[i := Waiting];
      Record(Finish(i));
    }

    method RequestStop()
      requires Valid()
      modifies this
      ensures Valid() && history == old(history) + [BeginStop]
      ensures !started && (stop <==> old(stop) || old(started))
      ensures queue == old(queue) && busy == old(busy) && workers == old(workers) && looping == old(looping)
    {
      if started {
        stop, started, everStopped := true, false, true;
      }
      Record(BeginStop);
    }

    // The end of Stop, reached once every thread has returned.
    method JoinThreads()
      requires Valid() && !started && !looping && forall i :: 0 <= i < |workers| ==> workers[i] == Exited
      modifies this
      ensures Valid() && history == old(history) + [Join] && workers == []
      ensures queue == old(queue) && busy == old(busy)
    {
      workers := [];
      Record(Join);
    }
  }
}
