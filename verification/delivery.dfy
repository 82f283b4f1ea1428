/** The way of a metrics batch from the probe thread to the collector: a bounded probe queue, the
    main loop's memory buffer, the disk buffer, and the sends that may fail at any time.

    The events are the single moves. The probe thread may produce between any two of them. */
module Delivery {
  import opened DiskBuffering

  const MAX_QUEUED := 50

  datatype State = State(
    queue: seq<Batch>,      // ProbeRunner's queue
    drained: seq<Batch>,    // taken from the queue, not yet in memory
    memory: seq<Batch>,
    disk: seq<Batch>,
    inherited: nat,         // oldest disk rows, left by an earlier process
    rows: nat,              // the counters kept beside the disk table
    bytes: nat,
    cap: nat,
    nextTicket: nat,
    delivered: seq<Batch>,  // acknowledged and removed
    resent: seq<Batch>,     // acknowledged from disk, but the row could not be deleted
    dropped: seq<Batch>,    // counted in buffer_drops
    discarded: seq<Batch>,  // could not be parsed back
    trimmed: seq<Batch>,    // given up to bring the disk within its cap
    overwritten: seq<Batch> // pushed out of the full probe queue
  )

  datatype Event =
    | Produce(size: Length, serializes: bool, parses: bool)
    | DrainQueue
    | Arrive
    | Spill(trims: nat, stored: bool)
    | Sent
    | DiskSent(deleted: bool, counted: bool)
    | DiskUnparseable(deleted: bool, counted: bool)

  // The file an agent opens; the counters are read from it, or left at zero when that fails.
  function Initial(file: seq<Batch>, counted: bool, cap: nat, firstTicket: nat): State {
    State([], [], [], file, |file|, if counted then |file| else 0, if counted then Total(file) else 0, cap,
          firstTicket, [], [], [], [], [], [])
  }

  // Giving up the oldest rows on disk.
  function Trimmed(s: State, trims: nat): State
    requires trims <= |s.disk|
  {
    s.(trimmed := s.trimmed + s.disk[..trims], disk := s.disk[trims..],
       inherited := Reduced(s.inherited, trims), rows := Reduced(s.rows, trims),
       bytes := Reduced(s.bytes, Total(s.disk[..trims])))
  }

  // The oldest batch in memory goes to disk, or is counted as dropped.
  function HeadSpilled(s: State, stored: bool): State
    requires s.memory != []
  {
    if stored then
      s.(memory := s.memory[1..], disk := s.disk + [s.memory[0]], rows := s.rows + 1,
         bytes := s.bytes + s.memory[0].size)
    else s.(memory := s.memory[1..], dropped := s.dropped + [s.memory[0]])
  }

  // The oldest row is deleted. Its size is taken off the counter only if the cursor returned it.
  function HeadRemoved(s: State, counted: bool): State
    requires s.disk != []
  {
    s.(disk := s.disk[1..], inherited := Reduced(s.inherited, 1), rows := Reduced(s.rows, 1),
       bytes := if counted then Reduced(s.bytes, s.disk[0].size) else s.bytes)
  }

  // What the disk buffer can do with the oldest batch in memory: it trims only when its counter is
  // above the cap, and stores only what keeps the counter within it.
  predicate CanSpill(s: State, trims: nat, stored: bool) {
    && s.memory != [] && trims <= |s.disk| && (trims > 0 ==> s.bytes > s.cap)
    && (stored ==> Trimmed(s, trims).bytes + s.memory[0].size <= s.cap)
  }

  function Apply(s: State, e: Event): State {
    match e
    case Produce(size, serializes, parses) =>
      var b := Batch(s.nextTicket, size, serializes, parses);
      if |s.queue| >= MAX_QUEUED then
        s.(queue := s.queue[1..] + [b], overwritten := s.overwritten + [s.queue[0]], nextTicket := s.nextTicket + 1)
      else
        s.(queue := s.queue + [b], nextTicket := s.nextTicket + 1)
    case DrainQueue =>
      var n := if |s.queue| < MAX_QUEUED then |s.queue| else MAX_QUEUED;
      s.(queue := s.queue[n..], drained := s.drained + s.queue[..n])
    case Arrive =>
      if s.drained == [] then s
      else s.(drained := s.drained[1..], memory := s.memory + [s.drained[0]])
    case Spill(trims, stored) =>
      if CanSpill(s, trims, stored) then HeadSpilled(Trimmed(s, trims), stored) else s
    case Sent =>
      if s.memory == [] then s
      else s.(memory := s.memory[1..], delivered := s.delivered + [s.memory[0]])
    case DiskSent(deleted, counted) =>
      if s.disk == [] then s
      else if !deleted then s.(resent := s.resent + [s.disk[0]])
      else HeadRemoved(s, counted).(delivered := s.delivered + [s.disk[0]])
    case DiskUnparseable(deleted, counted) =>
      if s.disk == [] || !deleted then s
      else HeadRemoved(s, counted).(discarded := s.discarded + [s.disk[0]])
  }

  function Exec(s: State, events: seq<Event>): State {
    if events == [] then s else Apply(Exec(s, events[..|events| - 1]), events[|events| - 1])
  }

  // Everything still on its way, oldest first.
  function Waiting(s: State): seq<Batch> { s.disk + s.memory + s.drained + s.queue }

  function Settled(s: State): multiset<Batch> {
    multiset(s.delivered) + multiset(s.dropped) + multiset(s.discarded) + multiset(s.trimmed) + multiset(s.overwritten)
  }

  function Everything(s: State): multiset<Batch> {
    multiset(s.disk) + multiset(s.memory) + multiset(s.drained) + multiset(s.queue) + Settled(s)
  }

  ghost predicate InOrder(bs: seq<Batch>, below: nat) {
    && (forall i, j :: 0 <= i < j < |bs| ==> bs[i].ticket < bs[j].ticket)
    && (forall i :: 0 <= i < |bs| ==> bs[i].ticket < below)
  }

  // ----- conservation: a move takes from one place and adds to another -----

  lemma Split(bs: seq<Batch>, k: nat)
    requires k <= |bs|
    ensures multiset(bs) == multiset(bs[..k]) + multiset(bs[k..])
    ensures k == 1 ==> multiset(bs[..k]) == multiset{bs[0]}
  {
    assert bs == bs[..k] + bs[k..];
    if k == 1 { assert bs[..1] == [bs[0]]; }
  }

  lemma ProduceConserves(s: State, e: Event)
    requires e.Produce?
    ensures Everything(Apply(s, e)) == Everything(s) + multiset{Batch(s.nextTicket, e.size, e.serializes, e.parses)}
  {
    if |s.queue| >= MAX_QUEUED { Split(s.queue, 1); }
  }

  lemma TrimConserves(s: State, trims: nat)
    requires trims <= |s.disk|
    ensures Everything(Trimmed(s, trims)) == Everything(s)
  {
    Split(s.disk, trims);
  }

  lemma StoreConserves(s: State, stored: bool)
    requires s.memory != []
    ensures Everything(HeadSpilled(s, stored)) == Everything(s)
  {
    Split(s.memory, 1);
  }

  lemma SpillConserves(s: State, trims: nat, stored: bool)
    requires s.memory != [] && trims <= |s.disk|
    ensures Everything(Apply(s, Spill(trims, stored))) == Everything(s)
  {
    TrimConserves(s, trims);
    StoreConserves(Trimmed(s, trims), stored);
  }

  lemma DrainConserves(s: State)
    ensures Everything(Apply(s, DrainQueue)) == Everything(s)
  {
    Split(s.queue, if |s.queue| < MAX_QUEUED then |s.queue| else MAX_QUEUED);
  }

  lemma ArriveConserves(s: State)
    ensures Everything(Apply(s, Arrive)) == Everything(s)
  {
    if s.drained != [] { Split(s.drained, 1); }
  }

  lemma SentConserves(s: State)
    ensures Everything(Apply(s, Sent)) == Everything(s)
  {
    if s.memory != [] { Split(s.memory, 1); }
  }

  lemma DiskConserves(s: State, e: Event)
    requires e.DiskSent? || e.DiskUnparseable?
    ensures Everything(Apply(s, e)) == Everything(s)
  {
    if s.disk != [] { Split(s.disk, 1); }
  }

  lemma MoveConserves(s: State, e: Event)
    requires !e.Produce?
    ensures Everything(Apply(s, e)) == Everything(s)
  {
    match e
    case DrainQueue => DrainConserves(s);
    case Arrive => ArriveConserves(s);
    case Spill(trims, stored) => if s.memory != [] && trims <= |s.disk| { SpillConserves(s, trims, stored); }
    case Sent => SentConserves(s);
    case _ => DiskConserves(s, e);
  }

  // ----- order: what waits is always in production order -----

  // Leaving some out, or adding the newest at the end, keeps a sequence in order.
  lemma OmitKeepsOrder(w: seq<Batch>, a: nat, b: nat, below: nat)
    requires InOrder(w, below) && a <= b <= |w|
    ensures InOrder(w[..a] + w[b..], below)
  {
  }

  lemma ProduceOrder(front: seq<Batch>, queue: seq<Batch>, b: Batch, below: nat)
    requires InOrder(front + queue, below) && b.ticket == below
    ensures InOrder(front + (queue + [b]), below + 1)
    ensures queue != [] ==> InOrder(front + (queue[1..] + [b]), below + 1)
  {
    var w, k := front + queue, |front|;
    assert front + (queue + [b]) == w + [b];
    if queue != [] {
      OmitKeepsOrder(w, k, k + 1, below);
      assert front + (queue[1..] + [b]) == w[..k] + w[k + 1..] + [b];
    }
  }

  lemma ProduceKeepsOrder(s: State, e: Event)
    requires InOrder(Waiting(s), s.nextTicket) && e.Produce?
    ensures InOrder(Waiting(Apply(s, e)), Apply(s, e).nextTicket)
  {
    var b := Batch(s.nextTicket, e.size, e.serializes, e.parses);
    ProduceOrder(s.disk + s.memory + s.drained, s.queue, b, s.nextTicket);
  }

  lemma SpillOrder(disk: seq<Batch>, memory: seq<Batch>, rest: seq<Batch>, trims: nat, stored: bool, below: nat)
    requires InOrder(disk + memory + rest, below) && memory != [] && trims <= |disk|
    ensures InOrder(disk[trims..] + (if stored then memory else memory[1..]) + rest, below)
  {
    var w, k := disk + memory + rest, |disk|;
    if stored {
      OmitKeepsOrder(w, 0, trims, below);
      assert disk[trims..] + memory + rest == w[..0] + w[trims..];
    } else {
      OmitKeepsOrder(w, k, k + 1, below);
      var u := w[..k] + w[k + 1..];
      OmitKeepsOrder(u, 0, trims, below);
      assert disk[trims..] + memory[1..] + rest == u[..0] + u[trims..];
    }
  }

  lemma SpillKeepsOrder(s: State, trims: nat, stored: bool)
    requires InOrder(Waiting(s), s.nextTicket) && s.memory != [] && trims <= |s.disk|
    ensures InOrder(Waiting(Apply(s, Spill(trims, stored))), s.nextTicket)
  {
    var s', rest := Apply(s, Spill(trims, stored)), s.drained + s.queue;
    assert Waiting(s) == s.disk + s.memory + rest && Waiting(s') == s'.disk + s'.memory + rest;
    SpillOrder(s.disk, s.memory, rest, trims, stored, s.nextTicket);
    if CanSpill(s, trims, stored) {
      assert s.memory == [s.memory[0]] + s.memory[1..];
      assert s'.disk + s'.memory == s.disk[trims..] + (if stored then s.memory else s.memory[1..]);
    }
  }

  lemma DrainKeepsWaiting(s: State)
    ensures Waiting(Apply(s, DrainQueue)) == Waiting(s)
  {
    var n := if |s.queue| < MAX_QUEUED then |s.queue| else MAX_QUEUED;
    assert s.queue == s.queue[..n] + s.queue[n..];
  }

  lemma ArriveKeepsWaiting(s: State)
    ensures Waiting(Apply(s, Arrive)) == Waiting(s)
  {
    if s.drained != [] { assert s.drained == [s.drained[0]] + s.drained[1..]; }
  }

  lemma SentKeepsOrder(s: State)
    requires InOrder(Waiting(s), s.nextTicket)
    ensures InOrder(Waiting(Apply(s, Sent)), s.nextTicket)
  {
    var w, k := Waiting(s), |s.disk|;
    if s.memory != [] {
      OmitKeepsOrder(w, k, k + 1, s.nextTicket);
      assert Waiting(Apply(s, Sent)) == w[..k] + w[k + 1..];
    }
  }

  lemma MoveKeepsOrder(s: State, e: Event)
    requires InOrder(Waiting(s), s.nextTicket) && !e.Produce? && !e.Spill?
    ensures InOrder(Waiting(Apply(s, e)), s.nextTicket)
  {
    match e
    case DrainQueue => DrainKeepsWaiting(s);
    case Arrive => ArriveKeepsWaiting(s);
    case Sent => SentKeepsOrder(s);
    case DiskSent(_, _) => DiskHeadKeepsOrder(s, Waiting(Apply(s, e)));
    case DiskUnparseable(_, _) => DiskHeadKeepsOrder(s, Waiting(Apply(s, e)));
  }

  lemma DiskHeadKeepsOrder(s: State, w': seq<Batch>)
    requires InOrder(Waiting(s), s.nextTicket)
    requires w' == Waiting(s) || (s.disk != [] && w' == s.disk[1..] + s.memory + s.drained + s.queue)
    ensures InOrder(w', s.nextTicket)
  {
    var w := Waiting(s);
    if w' != w {
      OmitKeepsOrder(w, 0, 1, s.nextTicket);
      assert w' == w[..0] + w[1..];
    }
  }

  // ----- what every run keeps -----

  ghost predicate Inv(s: State, firstTicket: nat) {
    && firstTicket <= s.nextTicket
    && InOrder(Waiting(s), s.nextTicket)
    && |s.queue| <= MAX_QUEUED
    && s.inherited <= |s.disk|
    && (forall i :: 0 <= i < |s.disk| ==> (i < s.inherited <==> s.disk[i].ticket < firstTicket))
    && (forall i :: 0 <= i < |s.memory| ==> firstTicket <= s.memory[i].ticket)
    && (forall i :: 0 <= i < |s.drained| ==> firstTicket <= s.drained[i].ticket)
    && (forall i :: 0 <= i < |s.queue| ==> firstTicket <= s.queue[i].ticket)
    && (forall b :: b in s.trimmed ==> b.ticket < firstTicket)
    && (s.bytes > s.cap ==> s.inherited == |s.disk|)
  }

  lemma ProduceKeepsInv(s: State, e: Event, firstTicket: nat)
    requires Inv(s, firstTicket) && e.Produce?
    ensures Inv(Apply(s, e), firstTicket)
  {
    ProduceKeepsOrder(s, e);
  }

  lemma SpillKeepsInv(s: State, trims: nat, stored: bool, firstTicket: nat)
    requires Inv(s, firstTicket)
    ensures Inv(Apply(s, Spill(trims, stored)), firstTicket)
  {
    if CanSpill(s, trims, stored) {
      SpillKeepsOrder(s, trims, stored);
      var s' := Apply(s, Spill(trims, stored));
      assert forall i :: 0 <= i < |s.disk| - trims ==> s'.disk[i] == s.disk[i + trims];
      assert forall b :: b in s'.trimmed ==> b in s.trimmed || b in s.disk[..trims];
    }
  }

  lemma MoveKeepsInv(s: State, e: Event, firstTicket: nat)
    requires Inv(s, firstTicket) && !e.Produce? && !e.Spill?
    ensures Inv(Apply(s, e), firstTicket)
  {
    MoveKeepsOrder(s, e);
  }

  lemma InvStep(s: State, e: Event, firstTicket: nat)
    requires Inv(s, firstTicket)
    ensures Inv(Apply(s, e), firstTicket)
  {
    match e
    case Produce(_, _, _) => ProduceKeepsInv(s, e, firstTicket);
    case Spill(trims, stored) => SpillKeepsInv(s, trims, stored, firstTicket);
    case _ => MoveKeepsInv(s, e, firstTicket);
  }

  lemma {:induction false} InvHolds(file: seq<Batch>, counted: bool, cap: nat, firstTicket: nat, events: seq<Event>)
    requires InOrder(file, firstTicket)
    ensures Inv(Exec(Initial(file, counted, cap, firstTicket), events), firstTicket)
  {
    if events == [] {
      assert Waiting(Initial(file, counted, cap, firstTicket)) == file;
    } else {
      var front := events[..|events| - 1];
      InvHolds(file, counted, cap, firstTicket, front);
      InvStep(Exec(Initial(file, counted, cap, firstTicket), front), events[|events| - 1], firstTicket);
    }
  }

  // ----- the theorems about whole runs -----

  ghost function Produced(events: seq<Event>): nat {
    if events == [] then 0
    else Produced(events[..|events| - 1]) + if events[|events| - 1].Produce? then 1 else 0
  }

  // The batches of the file and those produced by the events, oldest first.
  ghost function Made(file: seq<Batch>, firstTicket: nat, events: seq<Event>): seq<Batch> {
    if events == [] then file
    else
      var front, e := events[..|events| - 1], events[|events| - 1];
      Made(file, firstTicket, front) +
        (if e.Produce? then [Batch(firstTicket + Produced(front), e.size, e.serializes, e.parses)] else [])
  }

  lemma TicketStep(s: State, e: Event)
    ensures Apply(s, e).nextTicket == s.nextTicket + if e.Produce? then 1 else 0
  {
  }

  lemma {:induction false} Tickets(s: State, events: seq<Event>)
    ensures Exec(s, events).nextTicket == s.nextTicket + Produced(events)
  {
    if events != [] {
      Tickets(s, events[..|events| - 1]);
      TicketStep(Exec(s, events[..|events| - 1]), events[|events| - 1]);
    }
  }

  lemma {:induction false} MadeInOrder(file: seq<Batch>, firstTicket: nat, events: seq<Event>)
    requires InOrder(file, firstTicket)
    ensures InOrder(Made(file, firstTicket, events), firstTicket + Produced(events))
  {
    if events != [] { MadeInOrder(file, firstTicket, events[..|events| - 1]); }
  }

  ghost function NewBatch(s: State, e: Event): multiset<Batch> {
    if e.Produce? then multiset{Batch(s.nextTicket, e.size, e.serializes, e.parses)} else multiset{}
  }

  lemma StepConserves(s: State, e: Event)
    ensures Everything(Apply(s, e)) == Everything(s) + NewBatch(s, e)
  {
    if e.Produce? { ProduceConserves(s, e); } else { MoveConserves(s, e); }
  }

  lemma MadeStep(file: seq<Batch>, firstTicket: nat, events: seq<Event>, s: State)
    requires events != [] && s.nextTicket == firstTicket + Produced(events[..|events| - 1])
    ensures multiset(Made(file, firstTicket, events))
         == multiset(Made(file, firstTicket, events[..|events| - 1])) + NewBatch(s, events[|events| - 1])
  {
  }

  // Every batch ever made is in exactly one place, waiting or settled, whatever fails.
  lemma {:induction false} EveryBatchAccountedFor(
      file: seq<Batch>, counted: bool, cap: nat, firstTicket: nat, events: seq<Event>)
    ensures Everything(Exec(Initial(file, counted, cap, firstTicket), events))
         == multiset(Made(file, firstTicket, events))
  {
    if events != [] {
      var front, e := events[..|events| - 1], events[|events| - 1];
      var s := Exec(Initial(file, counted, cap, firstTicket), front);
      EveryBatchAccountedFor(file, counted, cap, firstTicket, front);
      Tickets(Initial(file, counted, cap, firstTicket), front);
      MadeStep(file, firstTicket, events, s);
      StepConserves(s, e);
    }
  }

  // Disk, then memory, then what is still in the queue: always in production order, with the
  // batches of earlier processes first; and the disk never gives up a batch of this process to make
  // room, whether its counters are right or not.
  lemma WaitingInProductionOrder(file: seq<Batch>, counted: bool, cap: nat, firstTicket: nat, events: seq<Event>)
    requires InOrder(file, firstTicket)
    ensures var s := Exec(Initial(file, counted, cap, firstTicket), events);
      && InOrder(s.disk + s.memory + s.drained + s.queue, s.nextTicket)
      && (forall b :: b in s.trimmed ==> b.ticket < firstTicket)
  {
    InvHolds(file, counted, cap, firstTicket, events);
  }

  // ----- the counters and the table -----

  ghost predicate RightCounters(s: State) { s.rows == |s.disk| && s.bytes == Total(s.disk) }

  ghost predicate OverBy(s: State, d: nat) { s.rows == |s.disk| && s.bytes == Total(s.disk) + d }

  // A row with a payload is deleted although the cursor failed to return it.
  ghost predicate Miscounts(s: State, e: Event) {
    && (e.DiskSent? || e.DiskUnparseable?) && s.disk != []
    && e.deleted && !e.counted && s.disk[0].size != 0
  }

  ghost function Unread(s: State, e: Event): nat { if Miscounts(s, e) then s.disk[0].size else 0 }

  ghost function UnreadTotal(s: State, events: seq<Event>): nat {
    if events == [] then 0
    else
      var front := events[..|events| - 1];
      UnreadTotal(s, front) + Unread(Exec(s, front), events[|events| - 1])
  }

  lemma OverSpill(s: State, trims: nat, stored: bool, d: nat)
    requires OverBy(s, d)
    ensures OverBy(Apply(s, Spill(trims, stored)), d)
  {
    if CanSpill(s, trims, stored) {
      TotalSplit(s.disk, trims);
      TotalAppend(s.disk[trims..], s.memory[0]);
    }
  }

  lemma OverHead(s: State, counted: bool, d: nat)
    requires OverBy(s, d) && s.disk != []
    ensures OverBy(HeadRemoved(s, counted), d + if counted then 0 else s.disk[0].size)
  {
  }

  lemma OverStep(s: State, e: Event, d: nat)
    requires OverBy(s, d)
    ensures OverBy(Apply(s, e), d + Unread(s, e))
  {
    match e
    case Spill(trims, stored) => OverSpill(s, trims, stored, d);
    case DiskSent(_, counted) => if s.disk != [] { OverHead(s, counted, d); }
    case DiskUnparseable(_, counted) => if s.disk != [] { OverHead(s, counted, d); }
    case _ =>
  }

  // Right counters drift by just the payloads that were deleted unread.
  lemma {:induction false} CountersDrift(s: State, events: seq<Event>)
    requires RightCounters(s)
    ensures OverBy(Exec(s, events), UnreadTotal(s, events))
  {
    if events != [] {
      var front := events[..|events| - 1];
      CountersDrift(s, front);
      OverStep(Exec(s, front), events[|events| - 1], UnreadTotal(s, front));
    }
  }

  ghost predicate MiscountsAt(s: State, events: seq<Event>, i: int) {
    0 <= i < |events| && Miscounts(Exec(s, events[..i]), events[i])
  }

  lemma {:induction false} NothingUnreadIff(s: State, events: seq<Event>)
    ensures UnreadTotal(s, events) == 0 <==> forall i :: !MiscountsAt(s, events, i)
  {
    if events != [] {
      var front, n := events[..|events| - 1], |events| - 1;
      NothingUnreadIff(s, front);
      forall i | 0 <= i < n ensures MiscountsAt(s, events, i) <==> MiscountsAt(s, front, i) {
        assert front[..i] == events[..i];
      }
      assert MiscountsAt(s, events, n) <==> Miscounts(Exec(s, front), events[n]);
      if i :| MiscountsAt(s, front, i) { assert MiscountsAt(s, events, i); }
      if i :| MiscountsAt(s, events, i) { assert i == n || MiscountsAt(s, front, i); }
    }
  }

  // Counters that were right are right at the end of a run exactly when no payload was deleted unread.
  lemma StayRightIff(s: State, events: seq<Event>)
    requires RightCounters(s)
    ensures RightCounters(Exec(s, events)) <==> forall i :: !MiscountsAt(s, events, i)
  {
    CountersDrift(s, events);
    NothingUnreadIff(s, events);
  }

  // The table was empty at some moment of the run.
  ghost predicate EverEmpty(s: State, events: seq<Event>) {
    exists n :: 0 <= n <= |events| && EmptyAt(s, events, n)
  }

  ghost predicate EmptyAt(s: State, events: seq<Event>, n: int)
    requires 0 <= n <= |events|
  {
    Exec(s, events[..n]).disk == []
  }

  lemma EverEmptyStep(s: State, events: seq<Event>)
    requires events != []
    ensures EverEmpty(s, events) <==> EverEmpty(s, events[..|events| - 1]) || Exec(s, events).disk == []
  {
    var front := events[..|events| - 1];
    assert events[..|events|] == events;
    forall n | 0 <= n <= |front| ensures EmptyAt(s, events, n) <==> EmptyAt(s, front, n) {
      assert front[..n] == events[..n];
    }
    if EverEmpty(s, front) {
      var n :| 0 <= n <= |front| && EmptyAt(s, front, n);
      assert EmptyAt(s, events, n);
    }
    if EverEmpty(s, events) {
      var n :| 0 <= n <= |events| && EmptyAt(s, events, n);
      assert n == |events| || EmptyAt(s, front, n);
    }
    if Exec(s, events).disk == [] { assert EmptyAt(s, events, |events|); }
  }

  // Counters that were never read from the table: too small, within the cap, and the rows too few.
  ghost predicate Short(s: State) {
    s.rows < |s.disk| && s.bytes <= Total(s.disk) && s.bytes <= s.cap
  }

  lemma ShortSpill(s: State, trims: nat, stored: bool)
    requires Short(s)
    ensures Short(Apply(s, Spill(trims, stored)))
  {
    if CanSpill(s, trims, stored) {
      assert s.disk[0..] == s.disk && s.disk[..0] == [];
      TotalAppend(s.disk, s.memory[0]);
    }
  }

  // Short counters stay short until the table is empty, and are right then.
  lemma ShortStep(s: State, e: Event)
    requires Short(s) && !Miscounts(s, e)
    ensures if Apply(s, e).disk == [] then RightCounters(Apply(s, e)) else Short(Apply(s, e))
  {
    match e
    case Spill(trims, stored) => ShortSpill(s, trims, stored);
    case _ =>
  }

  // Counters that could not be read when the file was opened can become right again. If no payload
  // is deleted unread they are right exactly when the table has been empty at some moment since.
  lemma {:induction false} HealIff(file: seq<Batch>, cap: nat, firstTicket: nat, events: seq<Event>)
    requires forall i :: !MiscountsAt(Initial(file, false, cap, firstTicket), events, i)
    ensures var s := Initial(file, false, cap, firstTicket);
      && (RightCounters(Exec(s, events)) <==> EverEmpty(s, events))
      && (!EverEmpty(s, events) ==> Short(Exec(s, events)))
  {
    var s := Initial(file, false, cap, firstTicket);
    if events == [] {
      assert EmptyAt(s, events, 0) <==> file == [];
    } else {
      var front, e := events[..|events| - 1], events[|events| - 1];
      forall i ensures !MiscountsAt(s, front, i) {
        if 0 <= i < |front| { assert front[..i] == events[..i] && !MiscountsAt(s, events, i); }
      }
      HealIff(file, cap, firstTicket, front);
      assert !MiscountsAt(s, events, |front|);
      EverEmptyStep(s, events);
      if EverEmpty(s, front) { OverStep(Exec(s, front), e, 0); } else { ShortStep(Exec(s, front), e); }
    }
  }

  // One payload popped unread makes right counters wrong, and one popped at all makes counters that
  // were never read right.
  lemma CountersGoWrongAndHeal(b: Batch, cap: nat)
    requires b.size != 0 && b.ticket == 0 && b.parses
    ensures RightCounters(Initial([b], true, cap, 1))
    ensures !RightCounters(Exec(Initial([b], true, cap, 1), [DiskSent(true, false)]))
    ensures !RightCounters(Initial([b], false, cap, 1))
    ensures RightCounters(Exec(Initial([b], false, cap, 1), [DiskSent(true, true)]))
  {
    assert [DiskSent(true, false)][..0] == [] && [DiskSent(true, true)][..0] == [];
    assert Total([b]) == b.size + Total([]);
  }

  // A drain takes up to 50 batches from a queue that never holds more, so it always empties it:
  // a batch is overwritten only when 50 newer ones were produced between two drains.
  lemma DrainEmptiesTheQueue(file: seq<Batch>, counted: bool, cap: nat, firstTicket: nat, events: seq<Event>)
    requires InOrder(file, firstTicket)
    ensures Exec(Initial(file, counted, cap, firstTicket), events + [DrainQueue]).queue == []
  {
    InvHolds(file, counted, cap, firstTicket, events);
    assert (events + [DrainQueue])[..|events|] == events;
  }

  // What the collector acknowledges in one move.
  ghost function AckOf(s: State, e: Event): multiset<Batch> {
    if e.Sent? && s.memory != [] then multiset{s.memory[0]}
    else if e.DiskSent? && s.disk != [] then multiset{s.disk[0]}
    else multiset{}
  }

  ghost function Acks(s: State, events: seq<Event>): multiset<Batch> {
    if events == [] then multiset{}
    else
      var front := events[..|events| - 1];
      Acks(s, front) + AckOf(Exec(s, front), events[|events| - 1])
  }

  lemma AckStep(s: State, e: Event)
    ensures multiset(Apply(s, e).delivered) + multiset(Apply(s, e).resent)
         == multiset(s.delivered) + multiset(s.resent) + AckOf(s, e)
  {
    match e
    case Sent => SentAck(s);
    case DiskSent(deleted, counted) => DiskSentAck(s, deleted, counted);
    case _ => NoAck(s, e);
  }

  lemma SentAck(s: State)
    ensures multiset(Apply(s, Sent).delivered) == multiset(s.delivered) + AckOf(s, Sent)
    ensures Apply(s, Sent).resent == s.resent
  {
  }

  lemma DiskSentAck(s: State, deleted: bool, counted: bool)
    ensures var e := DiskSent(deleted, counted);
      multiset(Apply(s, e).delivered) + multiset(Apply(s, e).resent)
      == multiset(s.delivered) + multiset(s.resent) + AckOf(s, e)
  {
  }

  lemma NoAck(s: State, e: Event)
    requires !e.Sent? && !e.DiskSent?
    ensures Apply(s, e).delivered == s.delivered && Apply(s, e).resent == s.resent && AckOf(s, e) == multiset{}
  {
  }

  // What the collector acknowledged is what was delivered, plus one extra for every row that
  // could not be deleted afterwards.
  lemma {:induction false} AcksAreDeliveries(s: State, events: seq<Event>)
    requires s.delivered == [] && s.resent == []
    ensures Acks(s, events) == multiset(Exec(s, events).delivered) + multiset(Exec(s, events).resent)
  {
    if events != [] {
      AcksAreDeliveries(s, events[..|events| - 1]);
      AckStep(Exec(s, events[..|events| - 1]), events[|events| - 1]);
    }
  }

  lemma {:induction false} ResentOnlyAfterFailedDelete(s: State, events: seq<Event>)
    requires forall i :: 0 <= i < |events| ==> !(events[i].DiskSent? && !events[i].deleted)
    ensures Exec(s, events).resent == s.resent
  {
    if events != [] {
      ResentOnlyAfterFailedDelete(s, events[..|events| - 1]);
      assert !(events[|events| - 1].DiskSent? && !events[|events| - 1].deleted);
    }
  }

  lemma {:induction false} OrderedIsDistinct(bs: seq<Batch>, below: nat, b: Batch)
    requires InOrder(bs, below)
    ensures multiset(bs)[b] <= 1
  {
    if bs != [] {
      var front, last := bs[..|bs| - 1], bs[|bs| - 1];
      OrderedIsDistinct(front, below, b);
      assert bs == front + [last];
      assert last !in front;
    }
  }

  // The collector acknowledges a batch at most once, and once more for each time its row could not
  // be deleted.
  lemma AcknowledgedAtMost(file: seq<Batch>, counted: bool, cap: nat, firstTicket: nat, events: seq<Event>, b: Batch)
    requires InOrder(file, firstTicket)
    ensures var s := Initial(file, counted, cap, firstTicket);
      Acks(s, events)[b] <= 1 + multiset(Exec(s, events).resent)[b]
  {
    var s := Initial(file, counted, cap, firstTicket);
    AcksAreDeliveries(s, events);
    EveryBatchAccountedFor(file, counted, cap, firstTicket, events);
    MadeInOrder(file, firstTicket, events);
    OrderedIsDistinct(Made(file, firstTicket, events), firstTicket + Produced(events), b);
    DeliveredAmongAll(Exec(s, events), b);
  }

  lemma DeliveredAmongAll(s: State, b: Batch)
    ensures multiset(s.delivered)[b] <= Everything(s)[b]
  {
  }

  // While deletes work nothing is acknowledged twice.
  lemma AcknowledgedOnce(file: seq<Batch>, counted: bool, cap: nat, firstTicket: nat, events: seq<Event>, b: Batch)
    requires InOrder(file, firstTicket)
    requires forall i :: 0 <= i < |events| ==> !(events[i].DiskSent? && !events[i].deleted)
    ensures Acks(Initial(file, counted, cap, firstTicket), events)[b] <= 1
  {
    AcknowledgedAtMost(file, counted, cap, firstTicket, events, b);
    ResentOnlyAfterFailedDelete(Initial(file, counted, cap, firstTicket), events);
  }
}
