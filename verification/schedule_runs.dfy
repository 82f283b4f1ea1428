/** Any number of schedulers, each with its own clock, sharing one schedule table, together
    with the HTTP endpoint that creates, pauses, resumes and deletes schedules.

    The events are the statements the table executes. A scheduler that stalls, crashes or
    loses its connection simply contributes no further events, and clocks need not agree or
    move forwards, so every theorem below holds over all interleavings and outages. */
module ScheduleRuns {
  import opened Common
  import opened Arithmetic
  import opened Slots
  import opened ScheduleTable

  // What became of a claiming UPDATE. With ReplyLost the row changed but the scheduler was
  // told nothing, so it dispatches nothing.
  datatype Reply = Acknowledged | NeverReached | ReplyLost

  datatype Event =
    | Create(id: string, agent: string, now: int, windowStart: Option<int>, windowEnd: int, intervalSec: int)
    | Delete(id: string)
    | SetEnabled(id: string, enabled: bool)
    | Rebase(now: int)
    | List(scheduler: nat, now: int, due: seq<Due>)
    | Claim(scheduler: nat, reply: Reply)

  // The loop iteration a scheduler is in: its clock reading and the rows still to claim.
  datatype Pass = Pass(now: int, due: seq<Due>)

  // One UPDATE that moved a row: the row as listed, and the clock it was claimed with.
  datatype Claimed = Claimed(id: string, row: Schedule, now: int, dispatched: bool) {
    function Slot(): int { row.nextRun }

    // No slot boundary lies in (now, slot]. Claims at or after their slot satisfy this.
    ghost predicate Advancing() {
      row.Interval() > 0 &&
      SlotIndex(row.windowStart, row.Interval(), Slot()) <= SlotIndex(row.windowStart, row.Interval(), now)
    }
  }

  // `created` remembers the row every id was created with, deleted ids included.
  datatype World = World(rows: Table, created: Table, passes: map<nat, Pass>, log: seq<Claimed>)

  const START := World(map[], map[], map[], [])

  ghost function Apply(w: World, e: Event): World {
    match e
    case Create(id, agent, now, windowStart, windowEnd, intervalSec) =>
      var s := ScheduleTable.Create(agent, now, windowStart, windowEnd, intervalSec);
      if s.None? || id in w.created then w
      else w.(rows := w.rows[id := s.value], created := w.created[id := s.value])
    case Delete(id) => w.(rows := w.rows - {id})
    case SetEnabled(id, enabled) =>
      if id in w.rows then w.(rows := w.rows[id := w.rows[id].(enabled := enabled)]) else w
    case Rebase(now) => w.(rows := Rebased(w.rows, now))
    case List(p, now, due) =>
      if IsDueList(w.rows, now, due) then w.(passes := w.passes[p := Pass(now, due)]) else w
    case Claim(p, reply) =>
      if p !in w.passes || w.passes[p].due == [] then w
      else
        var pass := w.passes[p];
        var d := pass.due[0];
        var w' := w.(passes := w.passes[p := Pass(pass.now, pass.due[1..])]);
        if reply.NeverReached? || !Claimable(w.rows, d.id, d.row.nextRun) then w'
        else w'.(rows := Advanced(w.rows, d.id, d.row.nextRun, d.row.Next(pass.now)),
                 log := w.log + [Claimed(d.id, d.row, pass.now, reply.Acknowledged?)])
  }

  ghost function Exec(events: seq<Event>): World {
    if events == [] then START
    else Apply(Exec(events[..|events| - 1]), events[|events| - 1])
  }

  ghost function CountOf(log: seq<Claimed>, id: string): nat {
    if log == [] then 0
    else CountOf(log[..|log| - 1], id) + (if log[|log| - 1].id == id then 1 else 0)
  }

  // ----- what every run keeps -----

  ghost predicate KnownAs(w: World, id: string, row: Schedule) {
    id in w.created && row.Valid() && row.SameWindow(w.created[id])
  }

  ghost predicate Inv(w: World) {
    && (forall id :: id in w.created ==> w.created[id].Valid())
    && (forall id :: id in w.rows ==> KnownAs(w, id, w.rows[id]))
    && (forall p, d :: p in w.passes && d in w.passes[p].due ==>
          KnownAs(w, d.id, d.row) && d.row.Due(w.passes[p].now))
    && (forall i :: 0 <= i < |w.log| ==>
          KnownAs(w, w.log[i].id, w.log[i].row) && w.log[i].row.Due(w.log[i].now))
  }

  lemma ClaimStep(w: World, p: nat, reply: Reply) returns (d: Due, now: int)
    requires Inv(w) && p in w.passes && w.passes[p].due != []
    ensures now == w.passes[p].now && d == w.passes[p].due[0]
    ensures KnownAs(w, d.id, d.row) && d.row.Due(now)
    ensures now < d.row.Next(now) && d.row.windowStart <= d.row.Next(now)
  {
    now := w.passes[p].now;
    d := w.passes[p].due[0];
    assert d in w.passes[p].due;
    NextSlotIndex(d.row.windowStart, d.row.Interval(), now);
  }

  lemma InvStep(w: World, e: Event)
    requires Inv(w)
    ensures Inv(Apply(w, e))
    ensures w.log <= Apply(w, e).log
  {
    match e
    case Create(_, _, _, _, _, _) => CreateKeeps(w, e);
    case Rebase(now) => RebasedIsFresh(w.rows, now);
    case Claim(p, reply) => ClaimKeeps(w, p, reply);
    case _ =>
  }

  lemma CreateKeeps(w: World, e: Event)
    requires Inv(w) && e.Create?
    ensures Inv(Apply(w, e)) && Apply(w, e).log == w.log
  {
  }

  lemma ClaimKeeps(w: World, p: nat, reply: Reply)
    requires Inv(w)
    ensures Inv(Apply(w, Claim(p, reply))) && w.log <= Apply(w, Claim(p, reply)).log
  {
    if p in w.passes && w.passes[p].due != [] {
      var d, now := ClaimStep(w, p, reply);
      assert forall x :: x in w.passes[p].due[1..] ==> x in w.passes[p].due;
    }
  }

  ghost function PassedSlots(row: Schedule, t: int): int
    requires row.Valid()
  {
    SlotIndex(row.windowStart, row.Interval(), t)
  }

  ghost predicate AdvancingFor(w: World, id: string) {
    forall i :: 0 <= i < |w.log| && w.log[i].id == id ==> w.log[i].Advancing()
  }

  // While every claim of a schedule advances: the slots claimed lie before its current next_run
  // and strictly increase, and there are never more claims than slot boundaries passed.
  ghost predicate Progress(w: World, id: string)
    requires Inv(w)
  {
    && (forall i :: 0 <= i < |w.log| && w.log[i].id == id && id in w.rows ==>
          w.log[i].Slot() < w.rows[id].nextRun)
    && (forall i, j :: 0 <= i < j < |w.log| && w.log[i].id == id && w.log[j].id == id ==>
          w.log[i].Slot() < w.log[j].Slot())
    && (id in w.rows ==> CountOf(w.log, id) <= PassedSlots(w.rows[id], w.rows[id].nextRun))
    && (id in w.created ==>
          CountOf(w.log, id) <= 1 + PassedSlots(w.created[id], w.created[id].windowEnd))
  }

  lemma {:induction false} CountZero(log: seq<Claimed>, id: string)
    requires forall i :: 0 <= i < |log| ==> log[i].id != id
    ensures CountOf(log, id) == 0
  {
    if log != [] { CountZero(log[..|log| - 1], id); }
  }

  lemma ProgressStep(w: World, e: Event, id: string)
    requires Inv(w) && Inv(Apply(w, e)) && Progress(w, id) && AdvancingFor(Apply(w, e), id)
    ensures Progress(Apply(w, e), id)
  {
    match e
    case Create(_, _, _, _, _, _) => ProgressCreate(w, e, id);
    case Rebase(now) => ProgressRebase(w, now, id);
    case Claim(p, reply) => ProgressClaim(w, p, reply, id);
    case _ =>
  }

  lemma ProgressRebase(w: World, now: int, id: string)
    requires Inv(w) && Inv(Apply(w, Rebase(now))) && Progress(w, id)
    ensures Progress(Apply(w, Rebase(now)), id)
  {
    RebasedIsFresh(w.rows, now);
    if id in w.rows {
      var row, row' := w.rows[id], Rebased(w.rows, now)[id];
      assert row'.SameWindow(row);
      FloorMonotone(row.nextRun - row.windowStart, row'.nextRun - row.windowStart, row.Interval());
    }
  }

  lemma ProgressCreate(w: World, e: Event, id: string)
    requires Inv(w) && Inv(Apply(w, e)) && Progress(w, id) && e.Create?
    ensures Progress(Apply(w, e), id)
  {
    var s := ScheduleTable.Create(e.agent, e.now, e.windowStart, e.windowEnd, e.intervalSec);
    if id == e.id && id !in w.created && s.Some? {
      var row := s.value;
      CountZero(w.log, id);
      FloorMonotone(0, row.nextRun - row.windowStart, row.Interval());
      FloorMonotone(0, row.windowEnd - row.windowStart, row.Interval());
      Floor(0, row.Interval(), 0);
    }
  }

  // Logging an advancing claim of the schedule itself.
  lemma ProgressOwnClaim(w: World, w': World, d: Due, c: Claimed)
    requires Inv(w) && Inv(w') && Progress(w, d.id)
    requires w'.log == w.log + [c] && c.id == d.id && c.row == d.row && c.Advancing() && d.row.Due(c.now)
    requires KnownAs(w, d.id, d.row) && Claimable(w.rows, d.id, d.row.nextRun)
    requires w'.rows == Advanced(w.rows, d.id, d.row.nextRun, d.row.Next(c.now)) && w'.created == w.created
    ensures Progress(w', d.id)
  {
    assert w'.log[..|w.log|] == w.log;
    ClaimAdvancesIff(d.row.windowStart, d.row.Interval(), c.now, d.row.nextRun);
    NextSlotIndex(d.row.windowStart, d.row.Interval(), c.now);
    FloorMonotone(c.now - d.row.windowStart, d.row.windowEnd - d.row.windowStart, d.row.Interval());
    assert w.rows[d.id].SameWindow(d.row);
  }

  lemma ProgressClaim(w: World, p: nat, reply: Reply, id: string)
    requires Inv(w) && Inv(Apply(w, Claim(p, reply))) && Progress(w, id)
    requires AdvancingFor(Apply(w, Claim(p, reply)), id)
    ensures Progress(Apply(w, Claim(p, reply)), id)
  {
    var w' := Apply(w, Claim(p, reply));
    if w'.log != w.log {
      var d, now := ClaimStep(w, p, reply);
      var c := Claimed(d.id, d.row, now, reply.Acknowledged?);
      assert w'.log[..|w.log|] == w.log && w'.log[|w.log|] == c;
      if d.id == id {
        ProgressOwnClaim(w, w', d, c);
      }
    }
  }

  lemma {:induction false} InvHolds(events: seq<Event>)
    ensures Inv(Exec(events))
  {
    if events != [] {
      InvHolds(events[..|events| - 1]);
      InvStep(Exec(events[..|events| - 1]), events[|events| - 1]);
    }
  }

  lemma {:induction false} ProgressHolds(events: seq<Event>, id: string)
    requires AdvancingFor(Exec(events), id)
    ensures Inv(Exec(events)) && Progress(Exec(events), id)
  {
    InvHolds(events);
    if events != [] {
      var before, e := events[..|events| - 1], events[|events| - 1];
      InvHolds(before);
      InvStep(Exec(before), e);
      var w, w' := Exec(before), Exec(events);
      forall i | 0 <= i < |w.log| && w.log[i].id == id ensures w.log[i].Advancing() {
        assert w'.log[i] == w.log[i];
      }
      ProgressHolds(before, id);
      ProgressStep(w, e, id);
    }
  }

  // ----- the theorems about whole runs -----

  // "Another scheduler (or an old tick) must not double dispatch this slot": in every run, a
  // schedule all of whose claims advance is claimed for strictly increasing slots.
  lemma ClaimedAtMostOnce(events: seq<Event>, i: nat, j: nat)
    requires i < j < |Exec(events).log|
    requires Exec(events).log[i].id == Exec(events).log[j].id
    requires AdvancingFor(Exec(events), Exec(events).log[i].id)
    ensures Exec(events).log[i].Slot() < Exec(events).log[j].Slot()
  {
    ProgressHolds(events, Exec(events).log[i].id);
  }

  lemma OnTimeAdvances(c: Claimed)
    requires c.row.Valid() && c.row.Due(c.now) && c.Slot() <= c.now
    ensures c.Advancing()
  {
    ClaimAdvancesIff(c.row.windowStart, c.row.Interval(), c.now, c.Slot());
  }

  // In the clock's terms: when a slot is claimed twice, some claim of that schedule was made
  // before the time of the slot it claimed.
  lemma RepeatedClaimWasEarly(events: seq<Event>, i: nat, j: nat)
    requires i < j < |Exec(events).log|
    requires Exec(events).log[i].id == Exec(events).log[j].id
    requires Exec(events).log[j].Slot() <= Exec(events).log[i].Slot()
    ensures exists k :: 0 <= k < |Exec(events).log| && Exec(events).log[k].id == Exec(events).log[i].id
                     && Exec(events).log[k].now < Exec(events).log[k].Slot()
  {
    InvHolds(events);
    var log := Exec(events).log;
    var id := log[i].id;
    if AdvancingFor(Exec(events), id) {
      ProgressHolds(events, id);
      assert false;
    } else {
      var k :| 0 <= k < |log| && log[k].id == id && !log[k].Advancing();
      if log[k].Slot() <= log[k].now { OnTimeAdvances(log[k]); assert false; }
    }
  }

  ghost predicate FitsTheWindow(w: World, id: string)
    requires id in w.created
  {
    var s := w.created[id];
    s.Interval() > 0 && CountOf(w.log, id) <= 1 + (s.windowEnd - s.windowStart) / s.Interval()
  }

  // However many schedulers, pauses and outages there are, a schedule whose claims all advance
  // is claimed at most once per slot boundary of its window, plus once.
  lemma ClaimsFitTheWindow(events: seq<Event>, id: string)
    requires AdvancingFor(Exec(events), id) && id in Exec(events).created
    ensures FitsTheWindow(Exec(events), id)
  {
    ProgressHolds(events, id);
    WindowBound(Exec(events), id);
  }

  lemma WindowBound(w: World, id: string)
    requires Inv(w) && Progress(w, id) && id in w.created
    ensures FitsTheWindow(w, id)
  {
  }

  lemma ExecAppend(events: seq<Event>, e: Event)
    ensures Exec(events + [e]) == Apply(Exec(events), e)
  {
    assert (events + [e])[..|events|] == events;
  }

  // Without that condition the promise fails: ticks 1.5 s and 0.5 s before the slot at 60 s both
  // claim and dispatch it, and it is still the schedule's next_run afterwards.
  lemma EarlyClaimsRepeat() returns (events: seq<Event>)
    ensures var w := Exec(events);
      |w.log| == 3 && w.log[1].id == w.log[2].id && w.log[1].Slot() == w.log[2].Slot() == 60000
      && w.log[1].dispatched && w.log[2].dispatched
      && w.log[2].id in w.rows && w.rows[w.log[2].id].nextRun == 60000
  {
    var r0 := Schedule("host", 0, 600000, 60, 0, true);
    var r1 := r0.(nextRun := 60000);
    var create, claim := Create("s", "host", 0, None, 600000, 60), Claim(0, Acknowledged);
    assert r0.Next(0) == 60000 && r0.Next(58500) == 60000 && r0.Next(59500) == 60000;
    var w1 := ListAndClaim([create], map["s" := r0], 0, "s", r0);
    var w2 := ListAndClaim(w1, map["s" := r1], 58500, "s", r1);
    events := ListAndClaim(w2, map["s" := r1], 59500, "s", r1);
  }

  lemma ListAndClaim(events: seq<Event>, rows: Table, now: int, id: string, row: Schedule)
    returns (more: seq<Event>)
    requires rows == map[id := row] && Exec(events).rows == rows && row.Due(now)
    ensures Exec(more).rows == map[id := row.(nextRun := row.Next(now))]
    ensures Exec(more).log == Exec(events).log + [Claimed(id, row, now, true)]
  {
    var list, claim := List(0, now, [Due(id, row)]), Claim(0, Acknowledged);
    assert IsDueList(rows, now, [Due(id, row)]);
    ExecAppend(events, list);
    ExecAppend(events + [list], claim);
    more := events + [list] + [claim];
  }

  // ----- pausing -----

  // A row is claimed only while it is enabled and still has the next_run it was listed with; it moves
  // on to the next slot, and no other row moves. It is dispatched when the reply arrives.
  lemma ClaimTakesADueRow(events: seq<Event>, p: nat, reply: Reply)
    requires var w := Exec(events); |w.log| < |Apply(w, Claim(p, reply)).log|
    ensures var w, w' := Exec(events), Apply(Exec(events), Claim(p, reply));
      var c := w'.log[|w.log|];
      w'.log == w.log + [c] && MayBeClaimed(w, c) && MovesOn(w, w', c) && (c.dispatched <==> reply == Acknowledged)
  {
    InvHolds(events);
    var d, now := ClaimStep(Exec(events), p, reply);
    NextSlotIsLeastIff(d.row.windowStart, d.row.Interval(), now);
  }

  ghost predicate MayBeClaimed(w: World, c: Claimed) {
    && c.id in w.rows && w.rows[c.id].enabled && w.rows[c.id].nextRun == c.row.nextRun
    && c.row.enabled && c.row.windowStart <= c.now <= c.row.windowEnd
    && c.now - 2000 <= c.row.nextRun <= c.now + 2000
  }

  ghost predicate MovesOn(w: World, w': World, c: Claimed) {
    && w'.rows.Keys == w.rows.Keys && c.id in w'.rows
    && (forall id :: id in w.rows && id != c.id ==> w'.rows[id] == w.rows[id])
    && c.row.intervalSec >= 60
    && IsLeastSlotAfter(c.row.windowStart, c.row.intervalSec * 1000, c.now, w'.rows[c.id].nextRun)
  }

  // The schedule was created at some time and is not enabled now, deleted included.
  ghost predicate Paused(w: World, id: string) {
    id in w.created && (id in w.rows ==> !w.rows[id].enabled)
  }

  lemma PausedStep(w: World, e: Event, id: string)
    requires Paused(w, id) && e != SetEnabled(id, true)
    ensures Paused(Apply(w, e), id) && CountOf(Apply(w, e).log, id) == CountOf(w.log, id)
  {
    if e.Claim? { PausedClaim(w, e.scheduler, e.reply, id); }
  }

  lemma PausedClaim(w: World, p: nat, reply: Reply, id: string)
    requires Paused(w, id)
    ensures Paused(Apply(w, Claim(p, reply)), id)
    ensures CountOf(Apply(w, Claim(p, reply)).log, id) == CountOf(w.log, id)
  {
    var log' := Apply(w, Claim(p, reply)).log;
    if log' != w.log { assert log'[..|w.log|] == w.log; }
  }

  // A paused or deleted schedule is not claimed again before somebody enables it, whatever was listed
  // before the pause and whatever else happens.
  lemma {:induction false} PausedIsNeverClaimed(before: seq<Event>, after: seq<Event>, id: string)
    requires Paused(Exec(before), id) && SetEnabled(id, true) !in after
    ensures Paused(Exec(before + after), id)
    ensures CountOf(Exec(before + after).log, id) == CountOf(Exec(before).log, id)
  {
    if after == [] {
      assert before + after == before;
    } else {
      var front, e := after[..|after| - 1], after[|after| - 1];
      PausedIsNeverClaimed(before, front, id);
      PausedStep(Exec(before + front), e, id);
      assert (before + after)[..|before + after| - 1] == before + front;
    }
  }
}
