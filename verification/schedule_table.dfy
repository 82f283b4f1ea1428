/** The command_schedules table: its rows, the statements the scheduler runs against it,
    and the schedules the HTTP endpoint is able to create. */
module ScheduleTable {
  import opened Common
  import opened Slots

  const MIN_INTERVAL_SEC := 60
  const DUE_LIMIT := 20

  datatype Schedule = Schedule(
    agent: string, windowStart: int, windowEnd: int, intervalSec: int, nextRun: int, enabled: bool)
  {
    function Interval(): int { intervalSec * 1000 }

    ghost predicate Valid() {
      windowStart < windowEnd && MIN_INTERVAL_SEC <= intervalSec && windowStart <= nextRun
    }

    predicate InWindow(now: int) { windowStart <= now <= windowEnd }

    // WHERE clause of the due query.
    predicate Due(now: int) {
      enabled && InWindow(now) && now - TOLERANCE_MS <= nextRun <= now + TOLERANCE_MS
    }

    // WHERE clause of the rebase.
    predicate Stale(now: int) {
      enabled && windowStart <= now - TOLERANCE_MS && now <= windowEnd && nextRun < now - TOLERANCE_MS
    }

    function Next(now: int): int { NextSlot(windowStart, Interval(), now) }

    // What only creation and deletion can change.
    ghost predicate SameWindow(that: Schedule) {
      && agent == that.agent && windowStart == that.windowStart
      && windowEnd == that.windowEnd && intervalSec == that.intervalSec
    }
  }

  type Table = map<string, Schedule>

  datatype Due = Due(id: string, row: Schedule)

  ghost predicate ValidTable(rows: Table) {
    forall id :: id in rows ==> rows[id].Valid()
  }

  // Without a start the window opens at once; it must end later than it starts, and not in the past.
  ghost predicate IsRefused(agent: string, now: int, windowStart: Option<int>, windowEnd: int, intervalSec: int) {
    || agent == "" || intervalSec < 60
    || windowEnd < now
    || (windowStart.Some? && windowEnd <= windowStart.value)
    || (windowStart.None? && windowEnd == now)
  }

  // POST /command-schedules: the request is refused, or yields this row.
  function Create(agent: string, now: int, windowStart: Option<int>, windowEnd: int, intervalSec: int)
    : (s: Option<Schedule>)
    ensures s.Some? ==> s.value.Valid() && now <= s.value.nextRun
    ensures s.Some? ==> s.value.windowStart == (if windowStart.Some? then windowStart.value else now)
    ensures s.Some? ==> s.value.enabled && s.value.nextRun in {now, s.value.windowStart}
    ensures s.Some? ==> (s.value.agent, s.value.windowEnd, s.value.intervalSec) == (agent, windowEnd, intervalSec)
    ensures s.None? <==> IsRefused(agent, now, windowStart, windowEnd, intervalSec)
  {
    var start := if windowStart.Some? then windowStart.value else now;
    if agent == "" || intervalSec < MIN_INTERVAL_SEC || windowEnd <= start || windowEnd < now then None
    else Some(Schedule(agent, start, windowEnd, intervalSec, if now < start then start else now, true))
  }

  function RebasedRow(row: Schedule, now: int): (r: Schedule) {
    if row.Stale(now) then row.(nextRun := row.Next(now)) else row
  }

  function Rebased(rows: Table, now: int): Table {
    map id | id in rows :: RebasedRow(rows[id], now)
  }

  // The row an UPDATE with this expected value would touch.
  predicate Claimable(rows: Table, id: string, expected: int) {
    id in rows && rows[id].nextRun == expected && rows[id].enabled
  }

  function Advanced(rows: Table, id: string, expected: int, next: int): Table {
    if Claimable(rows, id, expected) then rows[id := rows[id].(nextRun := next)] else rows
  }

  // Answers the query "due rows, ORDER BY next_run ASC LIMIT 20" may give; ties are free.
  ghost predicate IsDueList(rows: Table, now: int, due: seq<Due>) {
    && |due| <= DUE_LIMIT
    && (forall i :: 0 <= i < |due| ==>
          due[i].id in rows && due[i].row == rows[due[i].id] && due[i].row.Due(now))
    && (forall i, j :: 0 <= i < j < |due| ==>
          due[i].id != due[j].id && due[i].row.nextRun <= due[j].row.nextRun)
    && (forall id :: id in rows && rows[id].Due(now) && Due(id, rows[id]) !in due ==>
          |due| == DUE_LIMIT && forall i :: 0 <= i < |due| ==> due[i].row.nextRun <= rows[id].nextRun)
  }

  // After a rebase no enabled schedule inside its window lags the clock by more than the
  // tolerance, and no row outside the WHERE clause moved. A row keeps its window throughout.
  lemma RebasedIsFresh(rows: Table, now: int)
    requires ValidTable(rows)
    ensures Rebased(rows, now).Keys == rows.Keys && ValidTable(Rebased(rows, now))
    ensures forall id :: id in rows ==>
      var r := Rebased(rows, now)[id];
      && r.SameWindow(rows[id]) && r.enabled == rows[id].enabled
      && rows[id].nextRun <= r.nextRun
      && (r.enabled && r.InWindow(now) ==> now - TOLERANCE_MS <= r.nextRun)
      && (r.nextRun != rows[id].nextRun ==>
            IsLeastSlotAfter(r.windowStart, r.Interval(), now, r.nextRun))
      && (r.nextRun != rows[id].nextRun <==>
            r.enabled && r.windowStart <= now - 2000 && now <= r.windowEnd && rows[id].nextRun < now - 2000)
  {
    forall id | id in rows
      ensures
        var r := Rebased(rows, now)[id];
        && r.Valid() && rows[id].nextRun <= r.nextRun
        && (rows[id].Stale(now) ==> now < r.nextRun)
        && (r.nextRun != rows[id].nextRun ==>
              IsLeastSlotAfter(r.windowStart, r.Interval(), now, r.nextRun))
    {
      var row := rows[id];
      if row.Stale(now) {
        NextSlotIndex(row.windowStart, row.Interval(), now);
        NextSlotIsLeastIff(row.windowStart, row.Interval(), now);
      }
    }
  }

  class Storage {
    var rows: Table

    constructor (rows: Table)
      ensures this.rows == rows
    {
      this.rows := rows;
    }

    // One UPDATE; each touched row lands on the slot the scheduler itself would pick.
    method RescheduleStale(now: int)
      requires ValidTable(rows)
      modifies this
      ensures rows == Rebased(old(rows), now)
    {
      ghost var before := rows;
      forall id | id in rows && rows[id].Stale(now)
        ensures SqlNextSlot(rows[id].windowStart, rows[id].Interval(), now) == rows[id].Next(now)
      {
        SqlAgrees(rows[id].windowStart, rows[id].Interval(), now);
      }
      rows := map id | id in rows ::
        if rows[id].Stale(now)
        then rows[id].(nextRun := SqlNextSlot(rows[id].windowStart, rows[id].Interval(), now))
        else rows[id];
    }

    method ListDue(now: int) returns (due: seq<Due>)
      ensures IsDueList(rows, now, due) && |due| <= 20
      ensures |due| < 20 ==> forall id :: id in rows && rows[id].Due(now) ==> Due(id, rows[id]) in due
    {
      due := [];
      var left := set id | id in rows && rows[id].Due(now);
      while left != {} && |due| < DUE_LIMIT
        invariant |due| <= DUE_LIMIT && Selection(rows, now, due, left)
      {
        EarliestExists(rows, left);
        var next :| next in left && IsEarliest(rows, left, next);
        SelectionGrows(rows, now, due, left, next);
        due := due + [Due(next, rows[next])];
        left := left - {next};
      }
    }

    method Advance(id: string, expected: int, next: int) returns (ok: bool)
      modifies this
      ensures ok == old(Claimable(rows, id, expected))
      ensures rows == Advanced(old(rows), id, expected, next)
      ensures ok <==> id in old(rows) && old(rows)[id].enabled && old(rows)[id].nextRun == expected
      ensures rows == if ok then old(rows)[id := old(rows)[id].(nextRun := next)] else old(rows)
    {
      ok := id in rows && rows[id].nextRun == expected && rows[id].enabled;
      if ok {
        rows := rows[id := rows[id].(nextRun := next)];
      }
    }
  }

  predicate IsEarliest(rows: Table, ids: set<string>, e: string)
    requires ids <= rows.Keys
  {
    e in ids && forall id :: id in ids ==> rows[e].nextRun <= rows[id].nextRun
  }

  lemma {:induction false} EarliestExists(rows: Table, ids: set<string>)
    requires ids != {} && ids <= rows.Keys
    ensures exists e :: IsEarliest(rows, ids, e)
  {
    var x :| x in ids;
    if ids == {x} {
      assert IsEarliest(rows, ids, x);
    } else {
      EarliestExists(rows, ids - {x});
      var e :| IsEarliest(rows, ids - {x}, e);
      var best := if rows[x].nextRun < rows[e].nextRun then x else e;
      assert forall id :: id in ids ==> id == x || id in ids - {x};
      assert IsEarliest(rows, ids, best);
    }
  }

  // `due` lists, earliest first, the due rows that are not in `left`.
  ghost predicate Selection(rows: Table, now: int, due: seq<Due>, left: set<string>) {
    && left <= rows.Keys
    && (forall id :: id in left ==> rows[id].Due(now) && Due(id, rows[id]) !in due)
    && (forall id :: id in rows && rows[id].Due(now) && id !in left ==> Due(id, rows[id]) in due)
    && (forall i :: 0 <= i < |due| ==>
          due[i].id in rows && due[i].row == rows[due[i].id] && due[i].row.Due(now))
    && (forall i, id :: 0 <= i < |due| && id in left ==> due[i].row.nextRun <= rows[id].nextRun)
    && (forall i, j :: 0 <= i < j < |due| ==>
          due[i].id != due[j].id && due[i].row.nextRun <= due[j].row.nextRun)
  }

  lemma SelectionGrows(rows: Table, now: int, due: seq<Due>, left: set<string>, next: string)
    requires Selection(rows, now, due, left) && next in left && IsEarliest(rows, left, next)
    ensures Selection(rows, now, due + [Due(next, rows[next])], left - {next})
  {
    var due' := due + [Due(next, rows[next])];
    forall i | 0 <= i < |due| ensures due[i].id != next {
      assert due[i] in due;
    }
    forall id | id in rows && rows[id].Due(now) && id !in left - {next}
      ensures Due(id, rows[id]) in due'
    {
      if id == next { assert due'[|due|] == Due(id, rows[id]); }
    }
  }
}
