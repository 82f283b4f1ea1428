/** One scheduler alone with the table: what its ticks do to each schedule, and why no slot of
    a window is missed. */
module SchedulerTicks {
  import opened Arithmetic
  import opened Common
  import opened Slots
  import opened ScheduleTable

  // One tick as a single schedule sees it when the due list is not cut off.
  ghost predicate ClaimedAt(row: Schedule, now: int) {
    RebasedRow(row, now).Due(now)
  }

  ghost function TickRow(row: Schedule, now: int): Schedule {
    var r := RebasedRow(row, now);
    if r.Due(now) then r.(nextRun := r.Next(now)) else r
  }

  ghost function DueIds(rows: Table, now: int): set<string> {
    set id | id in rows && rows[id].Due(now)
  }

  ghost predicate IsClaimOf(rows: Table, now: int, d: Due) {
    d.id in rows && ClaimedAt(rows[d.id], now) && d.row == RebasedRow(rows[d.id], now)
  }

  // The schedule is enabled, inside its window, and due within two seconds.
  ghost predicate MayRun(row: Schedule, now: int) {
    && row.enabled && row.windowStart <= now <= row.windowEnd
    && now - 2000 <= row.nextRun <= now + 2000
  }

  // Just these rows are claimed by the tick, each once, as the rebase left them.
  ghost predicate AreClaims(more: seq<Due>, rows: Table, now: int) {
    && (forall d :: d in more <==> IsClaimOf(rows, now, d))
    && (forall i, j :: 0 <= i < j < |more| ==> more[i].id != more[j].id)
  }

  class Scheduler {
    const storage: Storage
    // Every claim made so far, oldest first.
    ghost var claims: seq<Due>

    constructor (storage: Storage)
      ensures this.storage == storage && claims == []
    {
      this.storage := storage;
      claims := [];
    }

    // One iteration of CommandScheduler::Loop between two waits, storage answering throughout.
    method Tick(now: int)
      requires ValidTable(storage.rows)
      modifies storage, this
      ensures ValidTable(storage.rows)
      ensures Uncrowded(old(storage.rows), now) ==>
        && storage.rows == Ticked(old(storage.rows), now)
        && old(claims) <= claims
        && AreClaims(claims[|old(claims)|..], old(storage.rows), now)
      ensures old(claims) <= claims && forall d :: d in claims[|old(claims)|..] ==> MayRun(d.row, now)
    {
      ghost var before := storage.rows;
      RebasedIsFresh(before, now);
      storage.RescheduleStale(now);
      var due := storage.ListDue(now);
      ClaimAll(due, now);
      if Uncrowded(before, now) {
        ShortListIsComplete(Rebased(before, now), now, due);
        ClaimedListIsTicked(before, now, due);
      }
    }

    method ClaimAll(due: seq<Due>, now: int)
      requires ValidTable(storage.rows) && IsDueList(storage.rows, now, due)
      modifies storage, this
      ensures ValidTable(storage.rows) && storage.rows == AfterClaims(old(storage.rows), due, now)
      ensures claims == old(claims) + due
    {
      ghost var before, claimed := storage.rows, claims;
      var i := 0;
      assert AfterClaims(before, due[..0], now) == before;
      while i < |due|
        invariant 0 <= i <= |due|
        invariant storage.rows == AfterClaims(before, due[..i], now)
        invariant claims == claimed + due[..i]
      {
        var d := due[i];
        assert d !in due[..i];
        ClaimsGrow(before, due, i, now);
        var ok := storage.Advance(d.id, d.row.nextRun, d.row.Next(now));
        assert ok;
        claims := claims + [d];
        i := i + 1;
      }
      assert due[..|due|] == due;
      forall id | id in storage.rows ensures storage.rows[id].Valid() {
        if Due(id, before[id]) in due {
          NextSlotIndex(before[id].windowStart, before[id].Interval(), now);
        }
      }
    }

    // One tick after a run of others, with the claims made so far.
    method OneTick(ghost before: Table, ghost made: seq<Due>, ghost past: seq<int>, ticks: seq<int>, i: nat)
      returns (ghost more: seq<Due>)
      requires i < |ticks| && past == ticks[..i] && NeverCrowded(before, ticks)
      requires RanSoFar(before, past, storage.rows, made)
      modifies storage, this
      ensures claims == old(claims) + more
      ensures RanSoFar(before, past + [ticks[i]], storage.rows, made + more)
    {
      ghost var claimed := claims;
      assert UncrowdedAt(before, ticks, i);
      Tick(ticks[i]);
      more := claims[|claimed|..];
      RunTableGrows(before, past, ticks[i]);
      ClaimsMatchGrows(made, more, before, past, ticks[i]);
    }

    // The loop itself, for as long as storage answers and no tick finds more than 20 due rows: the
    // claims are those of each schedule by itself, every reached slot among them.
    method Loop(ticks: seq<int>) returns (ghost made: seq<Due>)
      requires ValidTable(storage.rows) && NeverCrowded(storage.rows, ticks)
      modifies storage, this
      ensures ValidTable(storage.rows) && storage.rows == RunTable(old(storage.rows), ticks)
      ensures claims == old(claims) + made && ClaimsMatch(made, old(storage.rows), ticks)
      ensures ReachedAreClaimed(made, old(storage.rows), ticks)
    {
      ghost var before := storage.rows;
      ghost var past: seq<int> := [];
      made := [];
      var i := 0;
      RunTableStarts(before);
      while i < |ticks|
        invariant 0 <= i <= |ticks| && past == ticks[..i]
        invariant claims == old(claims) + made && RanSoFar(before, past, storage.rows, made)
      {
        ghost var more := OneTick(before, made, past, ticks, i);
        Appended(old(claims), made, more);
        made, past := made + more, past + [ticks[i]];
        i := i + 1;
      }
      assert past == ticks;
      MatchingClaimsReach(made, before, ticks);
    }
  }

  // The table and the claims after a run of ticks.
  ghost predicate RanSoFar(before: Table, past: seq<int>, rows: Table, made: seq<Due>) {
    ValidTable(rows) && rows == RunTable(before, past) && ClaimsMatch(made, before, past)
  }

  lemma Appended<T>(a: seq<T>, b: seq<T>, c: seq<T>)
    ensures (a + b) + c == a + (b + c)
  {
  }

  ghost predicate Uncrowded(rows: Table, now: int) {
    |DueIds(Rebased(rows, now), now)| <= DUE_LIMIT
  }

  ghost function RunTable(rows: Table, ticks: seq<int>): Table {
    map id | id in rows :: RunRow(rows[id], ticks)
  }

  ghost predicate NeverCrowded(rows: Table, ticks: seq<int>) {
    forall k :: 0 <= k < |ticks| ==> UncrowdedAt(rows, ticks, k)
  }

  ghost predicate UncrowdedAt(rows: Table, ticks: seq<int>, k: int)
    requires 0 <= k < |ticks|
  {
    Uncrowded(RunTable(rows, ticks[..k]), ticks[k])
  }

  // The slots of one schedule that were claimed, one entry a claim.
  ghost function SlotsOf(claims: seq<Due>, id: string): seq<int> {
    if claims == [] then []
    else
      var last := claims[|claims| - 1];
      SlotsOf(claims[..|claims| - 1], id) + (if last.id == id then [last.row.nextRun] else [])
  }

  // The claims are those of the single schedules, claim by claim, and no others.
  ghost predicate ClaimsMatch(claims: seq<Due>, rows: Table, ticks: seq<int>) {
    && (forall i :: 0 <= i < |claims| ==> claims[i].id in rows)
    && (forall id :: id in rows ==> MatchAt(claims, rows, ticks, id))
  }

  ghost predicate MatchAt(claims: seq<Due>, rows: Table, ticks: seq<int>, id: string)
    requires id in rows
  {
    SlotsOf(claims, id) == ClaimsOf(rows[id], ticks)
  }

  // A slot of an enabled schedule, not passed over before the ticks began, that has a tick between
  // itself and the end of the window.
  ghost predicate Reached(row: Schedule, ticks: seq<int>, s: int) {
    && row.Valid() && row.enabled && ticks != [] && Steady(ticks)
    && IsSlot(row.windowStart, row.Interval(), s) && HasTick(row, ticks, s) && Awaited(row, ticks[0], s)
  }

  lemma RunTableStarts(rows: Table)
    ensures RunTable(rows, []) == rows && ClaimsMatch([], rows, [])
  {
  }

  lemma RunTableGrows(rows: Table, ticks: seq<int>, now: int)
    ensures RunTable(rows, ticks + [now]) == Ticked(RunTable(rows, ticks), now)
  {
    assert (ticks + [now])[..|ticks|] == ticks;
  }

  lemma {:induction false} SlotsOfConcat(a: seq<Due>, b: seq<Due>, id: string)
    ensures SlotsOf(a + b, id) == SlotsOf(a, id) + SlotsOf(b, id)
  {
    if b == [] {
      assert a + b == a && SlotsOf(a, id) + [] == SlotsOf(a, id);
    } else {
      SlotsOfConcat(a, b[..|b| - 1], id);
      assert (a + b)[..|a + b| - 1] == a + b[..|b| - 1];
    }
  }

  lemma {:induction false} NoSlotsOf(claims: seq<Due>, id: string)
    requires forall i :: 0 <= i < |claims| ==> claims[i].id != id
    ensures SlotsOf(claims, id) == []
  {
    if claims != [] { NoSlotsOf(claims[..|claims| - 1], id); }
  }

  // With distinct ids the only claim of a schedule is its only entry.
  lemma {:induction false} OneSlotOf(claims: seq<Due>, d: Due)
    requires d in claims && forall i, j :: 0 <= i < j < |claims| ==> claims[i].id != claims[j].id
    ensures SlotsOf(claims, d.id) == [d.row.nextRun]
  {
    var front, last := claims[..|claims| - 1], claims[|claims| - 1];
    if last == d { NoSlotsOf(front, d.id); } else { OneSlotOf(front, d); }
  }

  lemma TickSlots(more: seq<Due>, rows: Table, now: int, id: string)
    requires AreClaims(more, rows, now) && id in rows
    ensures SlotsOf(more, id) == if ClaimedAt(rows[id], now) then [RebasedRow(rows[id], now).nextRun] else []
  {
    if ClaimedAt(rows[id], now) {
      var d := Due(id, RebasedRow(rows[id], now));
      assert IsClaimOf(rows, now, d);
      OneSlotOf(more, d);
    } else {
      forall i | 0 <= i < |more| ensures more[i].id != id { assert more[i] in more; }
      NoSlotsOf(more, id);
    }
  }

  lemma ClaimsMatchGrows(claims: seq<Due>, more: seq<Due>, rows: Table, ticks: seq<int>, now: int)
    requires ClaimsMatch(claims, rows, ticks) && AreClaims(more, RunTable(rows, ticks), now)
    ensures ClaimsMatch(claims + more, rows, ticks + [now])
  {
    assert (ticks + [now])[..|ticks|] == ticks;
    forall id | id in rows ensures MatchAt(claims + more, rows, ticks + [now], id) {
      assert MatchAt(claims, rows, ticks, id);
      SlotsOfConcat(claims, more, id);
      TickSlots(more, RunTable(rows, ticks), now, id);
    }
    forall i | 0 <= i < |claims + more| ensures (claims + more)[i].id in rows {
      if i >= |claims| { assert (claims + more)[i] in more; }
    }
  }

  ghost predicate ReachedAreClaimed(claims: seq<Due>, rows: Table, ticks: seq<int>) {
    forall id, s :: id in rows && Reached(rows[id], ticks, s) ==> s in SlotsOf(claims, id)
  }

  lemma MatchingClaimsReach(claims: seq<Due>, rows: Table, ticks: seq<int>)
    requires ClaimsMatch(claims, rows, ticks)
    ensures ReachedAreClaimed(claims, rows, ticks)
  {
    forall id, s | id in rows && Reached(rows[id], ticks, s) ensures s in SlotsOf(claims, id) {
      assert MatchAt(claims, rows, ticks, id);
      NoSlotMissed(rows[id], ticks, s);
    }
  }

  ghost function Ticked(rows: Table, now: int): Table {
    map id | id in rows :: TickRow(rows[id], now)
  }

  ghost function AfterClaims(rows: Table, due: seq<Due>, now: int): Table {
    map id | id in rows ::
      if Due(id, rows[id]) in due then rows[id].(nextRun := rows[id].Next(now)) else rows[id]
  }

  lemma ClaimsGrow(rows: Table, due: seq<Due>, i: nat, now: int)
    requires IsDueList(rows, now, due) && i < |due| && ValidTable(rows)
    ensures due[i].row.Due(now) && rows[due[i].id].Valid()
    ensures Claimable(AfterClaims(rows, due[..i], now), due[i].id, due[i].row.nextRun)
    ensures AfterClaims(rows, due[..i + 1], now)
         == Advanced(AfterClaims(rows, due[..i], now), due[i].id, due[i].row.nextRun, due[i].row.Next(now))
  {
    assert due[..i + 1] == due[..i] + [due[i]];
    assert due[i] !in due[..i];
    forall id | id in rows && id != due[i].id
      ensures Due(id, rows[id]) in due[..i + 1] <==> Due(id, rows[id]) in due[..i]
    {
    }
  }

  lemma ClaimedListIsTicked(rows: Table, now: int, due: seq<Due>)
    requires IsDueList(Rebased(rows, now), now, due)
    requires forall id :: id in rows && RebasedRow(rows[id], now).Due(now) ==>
      Due(id, RebasedRow(rows[id], now)) in due
    ensures AfterClaims(Rebased(rows, now), due, now) == Ticked(rows, now)
  {
    forall id | id in rows
      ensures AfterClaims(Rebased(rows, now), due, now)[id] == Ticked(rows, now)[id]
    {
      var r := Rebased(rows, now)[id];
      if Due(id, r) in due {
        var i :| 0 <= i < |due| && due[i] == Due(id, r);
        assert due[i].row.Due(now);
      }
    }
  }

  // LIMIT 20 cuts nothing off when at most 20 rows are due.
  lemma ShortListIsComplete(rows: Table, now: int, due: seq<Due>)
    requires IsDueList(rows, now, due) && |DueIds(rows, now)| <= DUE_LIMIT
    ensures forall id :: id in rows && rows[id].Due(now) ==> Due(id, rows[id]) in due
  {
    var listed := ListedIds(due);
    if id :| id in rows && rows[id].Due(now) && Due(id, rows[id]) !in due {
      forall x | x in listed ensures x in DueIds(rows, now) - {id} {
        var i :| 0 <= i < |due| && due[i].id == x;
        assert due[i] in due;
      }
      SubsetSize(listed, DueIds(rows, now) - {id});
      DistinctCount(due);
      assert false;
    }
  }

  ghost function ListedIds(due: seq<Due>): set<string> {
    set i | 0 <= i < |due| :: due[i].id
  }

  lemma {:induction false} DistinctCount(due: seq<Due>)
    requires forall i, j :: 0 <= i < j < |due| ==> due[i].id != due[j].id
    ensures |ListedIds(due)| == |due|
  {
    if due == [] {
      assert ListedIds(due) == {};
    } else {
      var front := due[..|due| - 1];
      DistinctCount(front);
      assert ListedIds(due) == ListedIds(front) + {due[|due| - 1].id};
    }
  }

  lemma {:induction false} SubsetSize<T>(a: set<T>, b: set<T>)
    requires a <= b
    ensures |a| <= |b|
  {
    if a != {} {
      var x :| x in a;
      SubsetSize(a - {x}, b - {x});
    }
  }

  // ----- one schedule under a run of ticks -----

  ghost function RunRow(row: Schedule, ticks: seq<int>): Schedule {
    if ticks == [] then row
    else TickRow(RunRow(row, ticks[..|ticks| - 1]), ticks[|ticks| - 1])
  }

  // Slots claimed by the run, one entry a claim.
  ghost function ClaimsOf(row: Schedule, ticks: seq<int>): seq<int> {
    if ticks == [] then []
    else
      var front, now := ticks[..|ticks| - 1], ticks[|ticks| - 1];
      var r := RunRow(row, front);
      ClaimsOf(row, front) + (if ClaimedAt(r, now) then [RebasedRow(r, now).nextRun] else [])
  }

  // Consecutive ticks are at most two seconds apart.
  ghost predicate Steady(ticks: seq<int>) {
    forall i :: 0 < i < |ticks| ==> ticks[i - 1] <= ticks[i] <= ticks[i - 1] + TOLERANCE_MS
  }

  lemma {:induction false} SteadyIsOrdered(ticks: seq<int>, i: nat, j: nat)
    requires Steady(ticks) && i <= j < |ticks|
    ensures ticks[i] <= ticks[j]
  {
    if i < j { SteadyIsOrdered(ticks, i, j - 1); }
  }

  // The slot has not been passed over when the ticks begin.
  ghost predicate Awaited(row: Schedule, first: int, s: int) {
    row.nextRun <= s && (first < s || (row.nextRun == s && first <= s + TOLERANCE_MS))
  }

  // Some tick falls between the slot and the end of the window.
  ghost predicate HasTick(row: Schedule, ticks: seq<int>, s: int) {
    exists i :: 0 <= i < |ticks| && s <= ticks[i] <= row.windowEnd
  }

  // After a tick inside the window next_run is the next slot, or still further off than the tolerance.
  ghost predicate OnTrack(row: Schedule, now: int) {
    row.InWindow(now) ==> row.nextRun == row.Next(now) || now + TOLERANCE_MS < row.nextRun
  }

  lemma AfterTick(row: Schedule, now: int)
    requires row.Valid() && row.enabled
    ensures var r := TickRow(row, now);
      r.Valid() && r.enabled && r.SameWindow(row) && OnTrack(r, now)
  {
    if row.InWindow(now) { NextSlotIndex(row.windowStart, row.Interval(), now); }
  }

  // Whatever ticks there were, an enabled schedule is on track after the last one.
  lemma {:induction false} TrackHolds(row: Schedule, ticks: seq<int>)
    requires row.Valid() && row.enabled
    ensures var r := RunRow(row, ticks);
      r.Valid() && r.enabled && r.SameWindow(row) && (ticks != [] ==> OnTrack(r, ticks[|ticks| - 1]))
  {
    if ticks != [] {
      TrackHolds(row, ticks[..|ticks| - 1]);
      AfterTick(RunRow(row, ticks[..|ticks| - 1]), ticks[|ticks| - 1]);
    }
  }

  // A slot not passed over, that this tick is the first to reach.
  ghost predicate FirstPast(row: Schedule, last: int, now: int, s: int)
    requires row.Valid()
  {
    IsSlot(row.windowStart, row.Interval(), s) && row.nextRun <= s && last < s <= now <= row.windowEnd
  }

  // A schedule on track is not rebased by the next tick, and a slot that tick is the first to reach
  // is the one it claims, slot 0 included.
  lemma NextTick(row: Schedule, last: int, now: int)
    requires row.Valid() && row.enabled && OnTrack(row, last) && last <= now <= last + TOLERANCE_MS
    ensures RebasedRow(row, now) == row
    ensures forall s :: FirstPast(row, last, now, s) ==> ClaimedAt(row, now) && row.nextRun == s
  {
    if row.windowStart <= last {
      NextSlotIndex(row.windowStart, row.Interval(), last);
    }
    forall s | FirstPast(row, last, now, s) ensures row.nextRun == s
    {
      if row.windowStart <= last { ClaimRepeatsIff(row.windowStart, row.Interval(), last, s); }
      else { SlotNearStart(row.windowStart, row.Interval(), s); }
    }
  }

  // The first two seconds of a window hold no slot but slot 0.
  lemma SlotNearStart(windowStart: int, interval: int, s: int)
    requires interval > TOLERANCE_MS && IsSlot(windowStart, interval, s) && s <= windowStart + TOLERANCE_MS
    ensures s == windowStart
  {
    if windowStart < s {
      NextSlotBelowSlot(windowStart, interval, windowStart, s);
    }
  }

  // Ticks before a slot never take next_run past it.
  lemma TickBefore(row: Schedule, now: int, s: int)
    requires row.Valid() && IsSlot(row.windowStart, row.Interval(), s) && row.nextRun <= s && now < s
    ensures TickRow(row, now).nextRun <= s
  {
    if row.windowStart <= now { NextSlotBelowSlot(row.windowStart, row.Interval(), now, s); }
  }

  lemma {:induction false} TicksBefore(row: Schedule, ticks: seq<int>, s: int)
    requires row.Valid() && row.enabled && IsSlot(row.windowStart, row.Interval(), s) && row.nextRun <= s
    requires forall i :: 0 <= i < |ticks| ==> ticks[i] < s
    ensures RunRow(row, ticks).nextRun <= s
  {
    if ticks != [] {
      TicksBefore(row, ticks[..|ticks| - 1], s);
      TrackHolds(row, ticks[..|ticks| - 1]);
      TickBefore(RunRow(row, ticks[..|ticks| - 1]), ticks[|ticks| - 1], s);
    }
  }

  // Every slot with a tick between itself and the end of the window is claimed, slot 0 included,
  // wherever the ticks begin and end, unless it had been passed over before they began.
  lemma {:induction false} NoSlotMissed(row: Schedule, ticks: seq<int>, s: int)
    requires row.Valid() && row.enabled && ticks != [] && Steady(ticks)
    requires IsSlot(row.windowStart, row.Interval(), s) && HasTick(row, ticks, s) && Awaited(row, ticks[0], s)
    ensures s in ClaimsOf(row, ticks)
  {
    var front, now := ticks[..|ticks| - 1], ticks[|ticks| - 1];
    if front == [] {
      assert RunRow(row, front) == row && ClaimedAt(row, now);
    } else if HasTick(row, front, s) {
      NoSlotMissed(row, front, s);
    } else {
      forall i | 0 <= i < |ticks| - 1 ensures front[i] < s {
        SteadyIsOrdered(ticks, i, |ticks| - 1);
        assert front[i] == ticks[i];
      }
      FirstReached(row, front, now, s);
    }
  }

  // The first tick to reach a slot claims it.
  lemma FirstReached(row: Schedule, front: seq<int>, now: int, s: int)
    requires row.Valid() && row.enabled && front != [] && row.nextRun <= s <= now <= row.windowEnd
    requires forall i :: 0 <= i < |front| ==> front[i] < s
    requires front[|front| - 1] <= now <= front[|front| - 1] + TOLERANCE_MS
    requires IsSlot(row.windowStart, row.Interval(), s)
    ensures ClaimedAt(RunRow(row, front), now) && RebasedRow(RunRow(row, front), now).nextRun == s
  {
    TicksBefore(row, front, s);
    TrackHolds(row, front);
    NextTick(RunRow(row, front), front[|front| - 1], now);
    assert FirstPast(RunRow(row, front), front[|front| - 1], now, s);
  }

  // After the first tick the rebase never moves the schedule again.
  lemma NeverSilentlyRebased(row: Schedule, ticks: seq<int>, now: int)
    requires row.Valid() && row.enabled && ticks != [] && Steady(ticks + [now])
    ensures RebasedRow(RunRow(row, ticks), now) == RunRow(row, ticks)
  {
    TrackHolds(row, ticks);
    assert (ticks + [now])[|ticks|] == now && (ticks + [now])[|ticks| - 1] == ticks[|ticks| - 1];
    NextTick(RunRow(row, ticks), ticks[|ticks| - 1], now);
  }

  // ----- from the moment of creation -----

  // A schedule created before its window, ticked at most two seconds apart from no later than two
  // seconds into the window, claims every slot that has a tick up to the end of the window: slot 0 is
  // the window start itself.
  lemma CreatedAheadClaimsEverySlot(agent: string, now: int, start: int, windowEnd: int, intervalSec: int,
                                    row: Schedule, ticks: seq<int>, s: int)
    requires now <= start && Create(agent, now, Some(start), windowEnd, intervalSec) == Some(row)
    requires Steady(ticks) && ticks != [] && ticks[0] <= start + 2000
    requires IsSlot(start, row.Interval(), s) && (s == start || ticks[0] < s) && HasTick(row, ticks, s)
    ensures s in ClaimsOf(row, ticks)
  {
    assert row.nextRun == start;
    NoSlotMissed(row, ticks, s);
  }

  // One created inside its window runs at the first tick, which claims the creation time.
  lemma CreatedInsideRunsAtOnce(agent: string, now: int, windowStart: Option<int>, windowEnd: int, intervalSec: int,
                                row: Schedule, ticks: seq<int>)
    requires windowStart.Some? ==> windowStart.value <= now
    requires Create(agent, now, windowStart, windowEnd, intervalSec) == Some(row)
    requires ticks != [] && now <= ticks[0] <= now + 2000 && ticks[0] <= windowEnd
    ensures ClaimsOf(row, ticks) != [] && ClaimsOf(row, ticks)[0] == now
  {
    FirstTickClaims(row, ticks);
  }

  lemma {:induction false} FirstTickClaims(row: Schedule, ticks: seq<int>)
    requires ticks != [] && ClaimedAt(row, ticks[0]) && RebasedRow(row, ticks[0]) == row
    ensures ClaimsOf(row, ticks) != [] && ClaimsOf(row, ticks)[0] == row.nextRun
  {
    var front := ticks[..|ticks| - 1];
    if front == [] {
      assert RunRow(row, front) == row && ClaimsOf(row, front) == [];
    } else {
      FirstTickClaims(row, front);
    }
  }

  // ----- the converse -----

  ghost predicate Aligned(row: Schedule) {
    row.Valid() && row.enabled && IsSlot(row.windowStart, row.Interval(), row.nextRun)
  }

  // The next_run of an aligned schedule never moves back and stays aligned.
  lemma AlignedTick(row: Schedule, now: int)
    requires Aligned(row)
    ensures Aligned(RebasedRow(row, now)) && Aligned(TickRow(row, now))
    ensures row.nextRun <= RebasedRow(row, now).nextRun <= TickRow(row, now).nextRun
    ensures RebasedRow(row, now).nextRun != row.nextRun ==> now < RebasedRow(row, now).nextRun
  {
    if row.InWindow(now) {
      NextSlotIndex(row.windowStart, row.Interval(), now);
      var r := RebasedRow(row, now);
      if now < r.nextRun { NextSlotBelowSlot(row.windowStart, row.Interval(), now, r.nextRun); }
      if r.Due(now) { ClaimRepeatsIff(row.windowStart, row.Interval(), now, r.nextRun); }
    }
  }

  lemma {:induction false} AlignedRun(row: Schedule, ticks: seq<int>)
    requires Aligned(row)
    ensures Aligned(RunRow(row, ticks)) && row.nextRun <= RunRow(row, ticks).nextRun
    ensures forall c :: c in ClaimsOf(row, ticks) ==> row.nextRun <= c
  {
    if ticks != [] {
      AlignedRun(row, ticks[..|ticks| - 1]);
      AlignedTick(RunRow(row, ticks[..|ticks| - 1]), ticks[|ticks| - 1]);
    }
  }

  // When the ticks begin at or after a slot of the window, all but the first are past it.
  lemma {:induction false} PastTheFirst(row: Schedule, ticks: seq<int>, s: int)
    requires Aligned(row) && ticks != [] && row.windowStart <= s <= ticks[0] <= row.windowEnd
    ensures Aligned(RunRow(row, ticks)) && s < RunRow(row, ticks).nextRun
    ensures s in ClaimsOf(row, ticks) ==> row.nextRun == s && ticks[0] <= s + TOLERANCE_MS
  {
    var front, now := ticks[..|ticks| - 1], ticks[|ticks| - 1];
    if front == [] {
      assert RunRow(row, front) == row && ClaimsOf(row, front) == [];
      assert s in ClaimsOf(row, ticks) ==> ClaimedAt(row, now) && s == RebasedRow(row, now).nextRun;
      AlignedTick(row, now);
      AfterTick(row, now);
      NextSlotIndex(row.windowStart, row.Interval(), now);
    } else {
      PastTheFirst(row, front, s);
      AlignedTick(RunRow(row, front), now);
    }
  }

  // For an aligned schedule that is the exact condition: of the slots that have a tick between
  // themselves and the window end, those claimed are the ones not passed over before the ticks began.
  lemma SlotIsClaimedIff(row: Schedule, ticks: seq<int>, s: int)
    requires Aligned(row) && ticks != [] && Steady(ticks)
    requires IsSlot(row.windowStart, row.Interval(), s) && HasTick(row, ticks, s)
    ensures s in ClaimsOf(row, ticks) <==> Awaited(row, ticks[0], s)
  {
    if Awaited(row, ticks[0], s) {
      NoSlotMissed(row, ticks, s);
    } else {
      AlignedRun(row, ticks);
      if s <= ticks[0] {
        var i :| 0 <= i < |ticks| && s <= ticks[i] <= row.windowEnd;
        SteadyIsOrdered(ticks, 0, i);
        PastTheFirst(row, ticks, s);
      }
    }
  }

  // Every tick in the two seconds before an aligned slot claims it and changes nothing, so n such
  // ticks are n claims of one slot.
  lemma {:induction false} EveryEarlyTickClaims(row: Schedule, ticks: seq<int>)
    requires Aligned(row)
    requires forall i :: 0 <= i < |ticks| ==>
      row.InWindow(ticks[i]) && row.nextRun - TOLERANCE_MS <= ticks[i] < row.nextRun
    ensures RunRow(row, ticks) == row
    ensures |ClaimsOf(row, ticks)| == |ticks| && forall c :: c in ClaimsOf(row, ticks) ==> c == row.nextRun
  {
    if ticks != [] {
      EveryEarlyTickClaims(row, ticks[..|ticks| - 1]);
      ClaimRepeatsIff(row.windowStart, row.Interval(), ticks[|ticks| - 1], row.nextRun);
    }
  }
}
