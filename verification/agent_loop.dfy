/** The agent's main loop over its buffers. The outcomes of sends and disk statements are inputs, and
    every move the loop makes is one event of the delivery model, so the theorems about all event
    sequences hold of every state the loop can reach. */
module AgentLoop {
  import opened DiskBuffering
  import opened Delivery

  const MAX_SENDS := 8
  const MAX_DISK_SENDS := 10

  ghost function Resend(b: Batch, deleted: bool, counted: bool): Event {
    if b.parses then DiskSent(deleted, counted) else DiskUnparseable(deleted, counted)
  }

  lemma ResendMoves(s: State, deleted: bool, counted: bool)
    requires s.disk != []
    ensures var s' := Apply(s, Resend(s.disk[0], deleted, counted));
      && s'.disk == (if deleted then s.disk[1..] else s.disk)
      && s'.inherited == (if deleted then Reduced(s.inherited, 1) else s.inherited)
      && s'.rows == (if deleted then Reduced(s.rows, 1) else s.rows)
      && s'.bytes == (if deleted && counted then Reduced(s.bytes, s.disk[0].size) else s.bytes)
      && s'.cap == s.cap
      && s'.queue == s.queue && s'.drained == s.drained && s'.memory == s.memory
      && s'.nextTicket == s.nextTicket && s'.dropped == s.dropped
  {
  }

  // ----- how a disk drain goes -----

  // What happens to one spill: rows the trimming cursor returns, and whether the trimming deletion and
  // the insertion work.
  datatype PushOutcome = PushOutcome(read: nat, trimmed: bool, inserted: bool)

  // What happens in one pass over the disk: whether the table could be counted, rows peeked at, whether
  // the collector accepts, rows the cursor of the removal returns, and whether the deletion works.
  datatype DiskPass = DiskPass(counted: bool, peeked: nat, sent: bool, popped: nat, deleted: bool)

  // The pass resends or discards the oldest row.
  ghost predicate Goes(isOpen: bool, rows: seq<Batch>, p: DiskPass) {
    isOpen && rows != [] && p.counted && p.peeked >= 1 && (rows[0].parses ==> p.sent)
  }

  // The rows left after n passes.
  ghost function DrainRows(rows: seq<Batch>, passes: nat -> DiskPass, n: nat): seq<Batch> {
    if n == 0 then rows
    else
      var before := DrainRows(rows, passes, n - 1);
      if passes(n - 1).deleted && before != [] then before[1..] else before
  }

  ghost function DrainEvents(rows: seq<Batch>, passes: nat -> DiskPass, n: nat): seq<Event> {
    if n == 0 then []
    else
      var before, p := DrainRows(rows, passes, n - 1), passes(n - 1);
      DrainEvents(rows, passes, n - 1) +
        (if before == [] then [] else [Resend(before[0], p.deleted, p.popped >= 1)])
  }

  // The pass after i others goes through.
  ghost predicate GoesAt(isOpen: bool, rows: seq<Batch>, passes: nat -> DiskPass, i: nat) {
    Goes(isOpen, DrainRows(rows, passes, i), passes(i))
  }

  // Passes go on until one does not, ten at most.
  ghost function DrainCount(isOpen: bool, rows: seq<Batch>, passes: nat -> DiskPass, i: nat): (n: nat)
    requires i <= 10
    ensures i <= n <= 10
    decreases 10 - i, |rows|
  {
    if i < 10 && Goes(isOpen, DrainRows(rows, passes, i), passes(i)) then DrainCount(isOpen, rows, passes, i + 1)
    else i
  }

  // Exactly the leading passes that go through are made.
  lemma {:induction false} DrainCountIsLeading(isOpen: bool, rows: seq<Batch>, passes: nat -> DiskPass, i: nat)
    requires i <= 10
    ensures var n := DrainCount(isOpen, rows, passes, i);
      && (forall j :: i <= j < n ==> GoesAt(isOpen, rows, passes, j))
      && (n < 10 ==> !GoesAt(isOpen, rows, passes, n))
    decreases 10 - i
  {
    if i < 10 && Goes(isOpen, DrainRows(rows, passes, i), passes(i)) {
      DrainCountIsLeading(isOpen, rows, passes, i + 1);
    }
  }

  // Where a drain is after i passes, and that the rest of it goes on from there.
  ghost predicate DrainedTo(isOpen: bool, rows: seq<Batch>, passes: nat -> DiskPass, i: nat,
                            pending: seq<Batch>, events: seq<Event>) {
    && i <= 10 && pending == DrainRows(rows, passes, i) && events == DrainEvents(rows, passes, i)
    && DrainCount(isOpen, rows, passes, i) == DrainCount(isOpen, rows, passes, 0)
  }

  lemma DrainStep(isOpen: bool, rows: seq<Batch>, passes: nat -> DiskPass, i: nat,
                  pending: seq<Batch>, events: seq<Event>)
    requires DrainedTo(isOpen, rows, passes, i, pending, events) && i < 10
    ensures Goes(isOpen, pending, passes(i)) ==>
      DrainedTo(isOpen, rows, passes, i + 1, if passes(i).deleted then pending[1..] else pending,
                events + [Resend(pending[0], passes(i).deleted, passes(i).popped >= 1)])
    ensures !Goes(isOpen, pending, passes(i)) ==> DrainCount(isOpen, rows, passes, 0) == i
  {
  }

  ghost predicate GoodPasses(passes: nat -> DiskPass) {
    forall i: nat :: i < 10 ==> passes(i).counted && passes(i).peeked >= 1 && passes(i).sent && passes(i).deleted
  }

  lemma {:induction false} GoodRows(rows: seq<Batch>, passes: nat -> DiskPass, n: nat)
    requires GoodPasses(passes) && n <= 10 && n <= |rows|
    ensures DrainRows(rows, passes, n) == rows[n..]
    ensures |DrainEvents(rows, passes, n)| == n
  {
    if n > 0 { GoodRows(rows, passes, n - 1); }
  }

  // When everything works, a drain removes ten rows, or all there are.
  lemma GoodDrain(rows: seq<Batch>, passes: nat -> DiskPass)
    requires GoodPasses(passes)
    ensures var n := DrainCount(true, rows, passes, 0);
      n == Min(10, |rows|) && DrainRows(rows, passes, n) == rows[n..]
  {
    var n, m := DrainCount(true, rows, passes, 0), Min(10, |rows|);
    DrainCountIsLeading(true, rows, passes, 0);
    GoodRows(rows, passes, Min(n, m));
    assert m < n ==> GoesAt(true, rows, passes, m);
  }

  // ----- how a delivery goes -----

  // Whether the collector accepts, and how the drain afterwards goes.
  datatype SendOutcome = SendOutcome(accepted: bool, drain: nat -> DiskPass)

  // The rows on disk after n sends, each followed by a drain, and the events of both.
  ghost function AfterSends(isOpen: bool, rows: seq<Batch>, sends: nat -> SendOutcome, n: nat): seq<Batch> {
    if n == 0 then rows
    else
      var before := AfterSends(isOpen, rows, sends, n - 1);
      DrainRows(before, sends(n - 1).drain, DrainCount(isOpen, before, sends(n - 1).drain, 0))
  }

  ghost function SendEvents(isOpen: bool, rows: seq<Batch>, sends: nat -> SendOutcome, n: nat): seq<Event> {
    if n == 0 then []
    else
      var before := AfterSends(isOpen, rows, sends, n - 1);
      SendEvents(isOpen, rows, sends, n - 1) + [Sent]
        + DrainEvents(before, sends(n - 1).drain, DrainCount(isOpen, before, sends(n - 1).drain, 0))
  }

  // n is the number of leading accepted sends, as far as the quota goes.
  ghost predicate LeadingSends(sends: nat -> SendOutcome, quota: nat, n: nat) {
    n <= quota && (forall j :: 0 <= j < n ==> sends(j).accepted) && (n < quota ==> !sends(n).accepted)
  }

  ghost predicate Accepted(sends: nat -> SendOutcome, n: nat) { forall j :: 0 <= j < n ==> sends(j).accepted }

  // One batch a pass, or up to eight when there are more.
  ghost function Quota(waiting: nat): nat { if waiting > 1 then Min(8, waiting) else waiting }

  ghost predicate AlwaysAccepted(sends: nat -> SendOutcome) { forall j :: sends(j).accepted }

  // With a connected collector the quota is used up, and eight waiting batches all go.
  lemma AllGo(sends: nat -> SendOutcome, waiting: seq<Batch>, n: nat)
    requires n <= |waiting| && LeadingSends(sends, Quota(|waiting|), n) && AlwaysAccepted(sends)
    ensures n == Quota(|waiting|) && (1 <= |waiting| <= 8 ==> waiting[n..] == [])
  {
  }

  lemma AcceptedOneMore(sends: nat -> SendOutcome, n: nat)
    requires Accepted(sends, n) && sends(n).accepted
    ensures Accepted(sends, n + 1)
  {
  }

  lemma AcceptedAreLeading(sends: nat -> SendOutcome, quota: nat, n: nat)
    requires Accepted(sends, n) && n <= quota && (n < quota ==> !sends(n).accepted)
    ensures LeadingSends(sends, quota, n)
  {
  }

  // One send and the drain after it.
  ghost predicate SendMoves(isOpen: bool, passes: nat -> DiskPass, rows: seq<Batch>, rows': seq<Batch>,
                            events: seq<Event>, events': seq<Event>) {
    var k := DrainCount(isOpen, rows, passes, 0);
    rows' == DrainRows(rows, passes, k) && events' == events + [Sent] + DrainEvents(rows, passes, k)
  }

  // Each send moves the rows and the log on.
  ghost predicate Follow(isOpen: bool, sends: nat -> SendOutcome, after: nat -> seq<Batch>, log: nat -> seq<Event>) {
    forall j: nat :: SendMoves(isOpen, sends(j).drain, after(j), after(j + 1), log(j), log(j + 1))
  }

  ghost predicate AllGood(sends: nat -> SendOutcome) { forall j: nat :: GoodPasses(sends(j).drain) }

  lemma GoodStep(rows: seq<Batch>, passes: nat -> DiskPass, n: nat)
    requires GoodPasses(passes)
    ensures var left := rows[Min(10 * n, |rows|)..];
      DrainRows(left, passes, DrainCount(true, left, passes, 0)) == rows[Min(10 * n + 10, |rows|)..]
  {
    GoodDrain(rows[Min(10 * n, |rows|)..], passes);
  }

  // When everything works, n sends take the ten oldest rows each off the disk, as far as there are any.
  lemma {:induction false} GoodSends(rows: seq<Batch>, sends: nat -> SendOutcome, n: nat)
    requires AllGood(sends)
    ensures AfterSends(true, rows, sends, n) == rows[Min(10 * n, |rows|)..]
  {
    if n > 0 {
      GoodSends(rows, sends, n - 1);
      GoodStep(rows, sends(n - 1).drain, n - 1);
    }
  }

  lemma PrefixTrans<T>(a: seq<T>, b: seq<T>, c: seq<T>)
    requires a <= b && b <= c
    ensures a <= c
  {
  }

  lemma TotalOfOne(b: Batch)
    ensures Total([b]) == b.size && Total([]) == 0
  {
  }

  class Agent {
    const maxBuffer: nat
    const disk: DiskBuffer
    var queue: seq<Batch>
    var arrived: seq<Batch>
    var memory: seq<Batch>
    var nextTicket: nat
    var bufferDrops: nat
    var diskSpills: nat
    var diskDrained: nat
    // Whether the disk counters were right at the start.
    ghost const counted: bool
    ghost const start: State
    ghost var history: seq<Event>

    ghost function Model(): State
      reads this`history
    {
      Exec(start, history)
    }

    ghost predicate Valid()
      reads this, disk
    {
      var m := Model();
      && queue == m.queue && arrived == m.drained && memory == m.memory && nextTicket == m.nextTicket
      && disk.Valid() && disk.pending == m.disk && disk.inherited == m.inherited
      && disk.rows == m.rows && disk.bytes == m.bytes && disk.maxBytes == m.cap
      && bufferDrops == |m.dropped| && start == Initial(start.disk, counted, start.cap, start.nextTicket)
    }

    // Takes over a disk buffer that has just been opened.
    constructor (maxBuffer: nat, disk: DiskBuffer, firstTicket: nat)
      requires disk.Valid() && disk.inherited == |disk.pending|
      requires disk.Exact() || (disk.rows == 0 && disk.bytes == 0)
      ensures Valid() && this.disk == disk && this.maxBuffer == maxBuffer && counted == disk.Exact()
      ensures history == [] && memory == []
      ensures start == Initial(disk.pending, disk.Exact(), disk.maxBytes, firstTicket)
    {
      this.maxBuffer, this.disk, nextTicket := maxBuffer, disk, firstTicket;
      queue, arrived, memory := [], [], [];
      bufferDrops, diskSpills, diskDrained := 0, 0, 0;
      counted, history := disk.Exact(), [];
      start := Initial(disk.pending, disk.Exact(), disk.maxBytes, firstTicket);
    }

    ghost method Record(e: Event)
      modifies this`history
      ensures history == old(history) + [e] && Model() == Apply(old(Model()), e)
    {
      history := history + [e];
      assert history[..|history| - 1] == old(history);
    }

    // End of a probe cycle, on the probe thread: a full queue loses its oldest batch.
    method Produce(size: Length, serializes: bool, parses: bool)
      requires Valid()
      modifies this
      ensures Valid() && history == old(history) + [Event.Produce(size, serializes, parses)]
      ensures memory == old(memory) && arrived == old(arrived) && nextTicket == old(nextTicket) + 1
      ensures queue == (if |old(queue)| >= 50 then old(queue)[1..] else old(queue))
        + [Batch(old(nextTicket), size, serializes, parses)]
    {
      if |queue| >= MAX_QUEUED { queue := queue[1..]; }
      queue := queue + [Batch(nextTicket, size, serializes, parses)];
      nextTicket := nextTicket + 1;
      Record(Event.Produce(size, serializes, parses));
    }

    // What a pass takes from the queue.
    ghost function Queued(): seq<Batch>
      reads this
    {
      queue[..Min(50, |queue|)]
    }

    method Drain()
      requires Valid()
      modifies `queue, `arrived, `history
      ensures Valid() && history == old(history) + [DrainQueue]
      ensures arrived == old(arrived + Queued())
      ensures queue == old(queue)[Min(50, |old(queue)|)..]
    {
      var n := if |queue| < MAX_QUEUED then |queue| else MAX_QUEUED;
      arrived := arrived + queue[..n];
      queue := queue[n..];
      Record(DrainQueue);
    }

    method Store(b: Batch, p: PushOutcome) returns (stored: bool, trims: nat)
      requires disk.Valid()
      modifies disk
      ensures disk.Valid() && disk.isOpen == old(disk.isOpen)
      ensures trims <= old(disk.inherited) <= |old(disk.pending)| && disk.inherited == old(disk.inherited) - trims
      ensures trims > 0 ==> old(disk.bytes) > disk.maxBytes
      ensures disk.pending == old(disk.pending)[trims..] + (if stored then [b] else [])
      ensures disk.rows == Reduced(old(disk.rows), trims) + if stored then 1 else 0
      ensures disk.bytes == Reduced(old(disk.bytes), Total(old(disk.pending)[..trims])) + if stored then b.size else 0
      ensures stored ==> disk.isOpen && b.serializes && p.inserted && disk.bytes <= disk.maxBytes
      ensures disk.isOpen && b.serializes && p.inserted && !stored ==> disk.bytes + b.size > disk.maxBytes
    {
      stored, trims := false, 0;
      assert disk.pending[0..] == disk.pending && disk.pending[..0] == [];
      if disk.isOpen && b.serializes {
        stored, trims := disk.Push(b, p.read, p.trimmed, p.inserted);
      } else {
        assert disk.pending[0..] + [] == disk.pending;
      }
    }

    // Moves the oldest batch in memory to disk, or counts it as dropped. Unless the counter is above
    // the cap, it is stored exactly when the disk is open, the batch can be written out, the insertion
    // works and the counter has room for it.
    method SpillOldest(p: PushOutcome) returns (stored: bool)
      requires Valid() && memory != []
      modifies `memory, `bufferDrops, `diskSpills, `history, disk
      ensures Valid() && memory == old(memory)[1..] && disk.isOpen == old(disk.isOpen)
      ensures old(history) <= history
      ensures stored ==> disk.isOpen && old(memory)[0].serializes && p.inserted && disk.bytes <= disk.maxBytes
      ensures disk.isOpen && old(memory)[0].serializes && p.inserted && !stored ==>
        disk.bytes + old(memory)[0].size > disk.maxBytes
      ensures stored ==> disk.pending != [] && disk.pending[|disk.pending| - 1] == old(memory)[0]
      ensures bufferDrops == old(bufferDrops) + (if stored then 0 else 1)
      ensures diskSpills == old(diskSpills) + (if stored then 1 else 0)
      ensures old(disk.bytes) <= disk.maxBytes ==>
        && disk.pending == old(disk.pending) + (if stored then [old(memory)[0]] else [])
        && disk.bytes == old(disk.bytes) + (if stored then old(memory)[0].size else 0)
    {
      var b := memory[0];
      memory := memory[1..];
      var trims;
      stored, trims := Store(b, p);
      if stored { diskSpills := diskSpills + 1; } else { bufferDrops := bufferDrops + 1; }
      Record(Spill(trims, stored));
    }

    // The disk has room for all of these batches.
    ghost predicate Roomy(bs: seq<Batch>)
      reads this, disk
    {
      disk.isOpen && disk.bytes + Total(bs) <= disk.maxBytes && forall b :: b in bs ==> b.serializes
    }

    method SpillExcess(pushes: nat -> PushOutcome, from: nat, ghost rest: seq<Batch>) returns (spilled: nat)
      requires Valid()
      modifies `memory, `bufferDrops, `diskSpills, `history, disk
      ensures Valid() && |memory| <= maxBuffer && old(history) <= history
      ensures spilled <= |old(memory)| && memory == old(memory)[spilled..]
      ensures spilled == if |old(memory)| <= maxBuffer then 0 else |old(memory)| - maxBuffer
      ensures bufferDrops + diskSpills == old(bufferDrops + diskSpills) + spilled
      ensures bufferDrops >= old(bufferDrops) && disk.isOpen == old(disk.isOpen)
      ensures old(Roomy(memory + rest)) && AllInserted(pushes) ==>
        Roomy(memory + rest) && bufferDrops == old(bufferDrops)
      ensures !disk.isOpen ==> diskSpills == old(diskSpills)
    {
      spilled := 0;
      while |memory| > maxBuffer
        invariant Valid() && old(history) <= history
        invariant spilled <= |old(memory)| && memory == old(memory)[spilled..]
        invariant spilled > 0 ==> |memory| >= maxBuffer
        invariant bufferDrops + diskSpills == old(bufferDrops + diskSpills) + spilled
        invariant bufferDrops >= old(bufferDrops) && disk.isOpen == old(disk.isOpen)
        invariant old(Roomy(memory + rest)) && AllInserted(pushes) ==>
          Roomy(memory + rest) && bufferDrops == old(bufferDrops)
        invariant !disk.isOpen ==> diskSpills == old(diskSpills)
        decreases |memory|
      {
        var stored := SpillRoomy(pushes, from + spilled, rest);
        spilled := spilled + 1;
      }
    }

    // The same step; if there is room for everything the batch is stored and the room is as before.
    method SpillRoomy(pushes: nat -> PushOutcome, i: nat, ghost rest: seq<Batch>) returns (stored: bool)
      requires Valid() && memory != []
      modifies `memory, `bufferDrops, `diskSpills, `history, disk
      ensures Valid() && memory == old(memory)[1..] && disk.isOpen == old(disk.isOpen) && old(history) <= history
      ensures bufferDrops == old(bufferDrops) + (if stored then 0 else 1)
      ensures diskSpills == old(diskSpills) + (if stored then 1 else 0) && (stored ==> disk.isOpen)
      ensures old(Roomy(memory + rest)) && AllInserted(pushes) ==> Roomy(memory + rest) && stored
    {
      ghost var mem, bytes := memory, disk.bytes;
      stored := SpillOldest(pushes(i));
      if old(Roomy(memory + rest)) && AllInserted(pushes) {
        assert (mem + rest)[1..] == memory + rest && mem[0] in mem + rest;
        assert Total(mem + rest) == mem[0].size + Total(memory + rest);
      }
    }

    // Takes everything drained into memory, oldest first; afterwards the newest maxBuffer batches
    // are in memory and every older one was spilled or counted as dropped, and none dropped if the
    // disk had room for all of them.
    method Intake(pushes: nat -> PushOutcome)
      requires Valid() && |memory| <= maxBuffer
      modifies `memory, `arrived, `bufferDrops, `diskSpills, `history, disk
      ensures Valid() && arrived == [] && old(history) <= history && disk.isOpen == old(disk.isOpen)
      ensures memory == Newest(old(memory + arrived), maxBuffer)
      ensures bufferDrops + diskSpills == old(bufferDrops + diskSpills) + |old(memory + arrived)| - |memory|
      ensures old(Roomy(memory + arrived)) && AllInserted(pushes) ==> bufferDrops == old(bufferDrops)
      ensures !disk.isOpen ==> diskSpills == old(diskSpills)
    {
      ghost var all := memory + arrived;
      var k := 0;
      while arrived != []
        invariant Valid() && |memory| <= maxBuffer && old(history) <= history && disk.isOpen == old(disk.isOpen)
        invariant 0 <= k <= |all| && memory + arrived == all[k..] && (k > 0 ==> |memory| == maxBuffer)
        invariant bufferDrops + diskSpills == old(bufferDrops + diskSpills) + k
        invariant old(Roomy(memory + arrived)) && AllInserted(pushes) ==>
          Roomy(memory + arrived) && bufferDrops == old(bufferDrops)
        invariant !disk.isOpen ==> diskSpills == old(diskSpills)
        decreases |arrived|
      {
        var spilled := TakeAndSpill(pushes, k);
        k := k + spilled;
      }
    }

    // Takes one batch into memory and spills what is then too much.
    method TakeAndSpill(pushes: nat -> PushOutcome, from: nat) returns (spilled: nat)
      requires Valid() && arrived != [] && |memory| <= maxBuffer
      modifies `memory, `arrived, `bufferDrops, `diskSpills, `history, disk
      ensures Valid() && |memory| <= maxBuffer && |arrived| < |old(arrived)|
      ensures old(history) <= history && disk.isOpen == old(disk.isOpen)
      ensures spilled <= |old(memory + arrived)| && memory + arrived == old(memory + arrived)[spilled..]
      ensures spilled > 0 || |old(memory)| == maxBuffer ==> |memory| == maxBuffer
      ensures bufferDrops + diskSpills == old(bufferDrops + diskSpills) + spilled
      ensures old(Roomy(memory + arrived)) && AllInserted(pushes) ==>
        Roomy(memory + arrived) && bufferDrops == old(bufferDrops)
      ensures !disk.isOpen ==> diskSpills == old(diskSpills)
    {
      TakeOne();
      ghost var all, taken := memory + arrived, history;
      spilled := SpillExcess(pushes, from, arrived);
      assert memory + arrived == all[spilled..];
      PrefixTrans(old(history), taken, history);
    }

    method TakeOne()
      requires Valid() && arrived != []
      modifies `memory, `arrived, `history
      ensures Valid() && history == old(history) + [Arrive]
      ensures memory == old(memory) + [old(arrived)[0]] && arrived == old(arrived)[1..]
      ensures memory + arrived == old(memory + arrived)
    {
      memory := memory + [arrived[0]];
      arrived := arrived[1..];
      Record(Arrive);
    }

    // Resends from disk, oldest first, until a pass does not go through or ten have.
    method DrainDisk(passes: nat -> DiskPass)
      requires Valid()
      modifies `diskDrained, `history, disk
      ensures Valid() && disk.isOpen == old(disk.isOpen)
      ensures var n := DrainCount(disk.isOpen, old(disk.pending), passes, 0);
        && disk.pending == DrainRows(old(disk.pending), passes, n)
        && history == old(history) + DrainEvents(old(disk.pending), passes, n)
        && diskDrained == old(diskDrained) + n
    {
      ghost var rows, events := disk.pending, [];
      var i := 0;
      assert history + [] == history;
      while i < MAX_DISK_SENDS
        invariant 0 <= i <= 10 && Valid() && disk.isOpen == old(disk.isOpen)
        invariant DrainedTo(disk.isOpen, rows, passes, i, disk.pending, events)
        invariant history == old(history) + events && diskDrained == old(diskDrained) + i
      {
        DrainStep(disk.isOpen, rows, passes, i, disk.pending, events);
        var pending := disk.Size(passes(i).counted);
        if pending == 0 { break; }
        ghost var e := Resend(disk.pending[0], passes(i).deleted, passes(i).popped >= 1);
        var more := ResendOldest(passes(i));
        if !more { break; }
        Appended(old(history), events, [e]);
        events := events + [e];
        i := i + 1;
      }
    }

    // Sends the oldest batch on disk, unless it cannot be parsed, and removes it.
    method ResendOldest(p: DiskPass) returns (more: bool)
      requires Valid() && p.counted
      modifies `diskDrained, `history, disk
      ensures Valid() && disk.isOpen == old(disk.isOpen)
      ensures more <==> Goes(old(disk.isOpen), old(disk.pending), p)
      ensures more ==> diskDrained == old(diskDrained) + 1
      ensures more ==> history == old(history) + [Resend(old(disk.pending)[0], p.deleted, p.popped >= 1)]
      ensures more ==> disk.pending == if p.deleted then old(disk.pending)[1..] else old(disk.pending)
      ensures !more ==> disk.pending == old(disk.pending) && history == old(history)
      ensures !more ==> diskDrained == old(diskDrained)
    {
      var blobs := disk.Peek(1, p.peeked);
      if blobs == [] { return false; }
      if blobs[0].parses && !p.sent { return false; }
      RemoveOldest(p);
      more := true;
    }

    method RemoveOldest(p: DiskPass)
      requires Valid() && disk.isOpen && disk.pending != []
      modifies `diskDrained, `history, disk
      ensures Valid() && diskDrained == old(diskDrained) + 1 && disk.isOpen
      ensures history == old(history) + [Resend(old(disk.pending)[0], p.deleted, p.popped >= 1)]
      ensures disk.pending == if p.deleted then old(disk.pending)[1..] else old(disk.pending)
    {
      ghost var head := disk.pending[0];
      ResendMoves(Model(), p.deleted, p.popped >= 1);
      disk.Pop(1, p.popped, p.deleted);
      TotalOfOne(head);
      assert old(disk.pending)[0..1] == [head] && old(disk.pending)[0..0] == [];
      diskDrained := diskDrained + 1;
      Record(Resend(head, p.deleted, p.popped >= 1));
    }

    // Sends from memory, oldest first, until a send fails or this pass's quota is used up, and drains
    // the disk after each. sends(j) is the outcome of the j-th send.
    method Deliver(sends: nat -> SendOutcome) returns (n: nat)
      requires Valid()
      modifies `memory, `diskDrained, `history, disk
      ensures Valid() && disk.isOpen == old(disk.isOpen)
      ensures LeadingSends(sends, Quota(|old(memory)|), n) && n <= |old(memory)| && memory == old(memory)[n..]
      ensures disk.pending == AfterSends(disk.isOpen, old(disk.pending), sends, n)
      ensures history == old(history) + SendEvents(disk.isOpen, old(disk.pending), sends, n)
    {
      ghost var isOpen, rows := disk.isOpen, disk.pending;
      ghost var after := (j: nat) => AfterSends(isOpen, rows, sends, j);
      ghost var log := (j: nat) => SendEvents(isOpen, rows, sends, j);
      n := SendQuota(sends, if |memory| > 1 then MAX_SENDS else 1, after, log);
    }

    method SendQuota(sends: nat -> SendOutcome, maxSends: nat, ghost after: nat -> seq<Batch>,
                     ghost log: nat -> seq<Event>)
      returns (n: nat)
      requires Valid() && Follow(disk.isOpen, sends, after, log) && after(0) == disk.pending && log(0) == []
      modifies `memory, `diskDrained, `history, disk
      ensures Valid() && disk.isOpen == old(disk.isOpen)
      ensures LeadingSends(sends, Min(maxSends, |old(memory)|), n) && memory == old(memory)[n..]
      ensures disk.pending == after(n) && history == old(history) + log(n)
    {
      n := 0;
      assert memory[0..] == memory && history + [] == history;
      while n < maxSends && memory != []
        invariant Valid() && disk.isOpen == old(disk.isOpen)
        invariant n <= |old(memory)| && n <= maxSends && memory == old(memory)[n..]
        invariant Accepted(sends, n)
        invariant disk.pending == after(n) && history == old(history) + log(n)
      {
        if !sends(n).accepted { break; }
        AcceptedOneMore(sends, n);
        SendOne(sends(n).drain, old(history), log(n), log(n + 1), after(n + 1));
        n := n + 1;
      }
      AcceptedAreLeading(sends, Min(maxSends, |old(memory)|), n);
    }

    // An accepted send, and the drain after it.
    method SendOne(passes: nat -> DiskPass, ghost past: seq<Event>, ghost events: seq<Event>,
                   ghost events': seq<Event>, ghost rows': seq<Batch>)
      requires Valid() && memory != [] && history == past + events
      requires SendMoves(disk.isOpen, passes, disk.pending, rows', events, events')
      modifies `memory, `diskDrained, `history, disk
      ensures Valid() && memory == old(memory)[1..] && disk.isOpen == old(disk.isOpen)
      ensures disk.pending == rows' && history == past + events'
    {
      ghost var drained := DrainEvents(disk.pending, passes, DrainCount(disk.isOpen, disk.pending, passes, 0));
      memory := memory[1..];
      Record(Sent);
      DrainDisk(passes);
      AppendedTwice(past, events, [Sent], drained);
    }

    // The first half of a pass: what was queued goes to memory, and from there to disk when it is too
    // much.
    method TakeQueued(pushes: nat -> PushOutcome) returns (gotSome: bool)
      requires Valid() && |memory| <= maxBuffer && arrived == []
      modifies this, disk
      ensures Valid() && |memory| <= maxBuffer && arrived == [] && old(history) <= history
      ensures gotSome <==> old(queue) != []
      ensures queue == old(queue)[Min(50, |old(queue)|)..]
      ensures memory == Newest(old(memory + Queued()), maxBuffer)
      ensures old(Roomy(memory + Queued())) && AllInserted(pushes) ==> bufferDrops == old(bufferDrops)
    {
      ghost var all := memory + Queued();
      Drain();
      ghost var drained := history;
      assert memory + arrived == all;
      gotSome := arrived != [];
      Intake(pushes);
      PrefixTrans(old(history), drained, history);
    }

    // One pass of the main loop; whether it is time to send depends on the clock. Memory takes what was
    // queued, keeps the newest, and gives up from its front what the collector accepts.
    method Cycle(sendTimeReached: bool, pushes: nat -> PushOutcome, sends: nat -> SendOutcome)
      returns (ghost n: nat)
      requires Valid() && |memory| <= maxBuffer && arrived == []
      modifies this, disk
      ensures Valid() && |memory| <= maxBuffer && arrived == [] && old(history) <= history
      ensures queue == old(queue)[Min(50, |old(queue)|)..]
      ensures var waiting := Newest(old(memory + Queued()), maxBuffer);
        && n <= |waiting| && memory == waiting[n..]
        && if |waiting| > 0 && (old(queue) != [] || |waiting| > 1 || sendTimeReached)
           then LeadingSends(sends, Quota(|waiting|), n) else n == 0
      ensures AlwaysAccepted(sends) && 1 < |Newest(old(memory + Queued()), maxBuffer)| <= 8 ==> memory == []
      ensures old(Roomy(memory + Queued())) && AllInserted(pushes) ==> bufferDrops == old(bufferDrops)
    {
      ghost var before := history;
      var gotSome := TakeQueued(pushes);
      n := 0;
      assert memory[0..] == memory;
      ghost var taken := history;
      if memory != [] && (gotSome || |memory| > 1 || sendTimeReached) {
        ghost var waiting := memory;
        n := Deliver(sends);
        if AlwaysAccepted(sends) { AllGo(sends, waiting, n); }
        PrefixTrans(before, taken, history);
      }
    }
  }

  ghost predicate AllInserted(pushes: nat -> PushOutcome) { forall i :: pushes(i).inserted }

  // The last n batches, or all.
  ghost function Newest(bs: seq<Batch>, n: nat): seq<Batch> { if |bs| <= n then bs else bs[|bs| - n..] }

  lemma Appended<T>(a: seq<T>, b: seq<T>, c: seq<T>)
    ensures (a + b) + c == a + (b + c)
  {
  }

  lemma AppendedTwice<T>(a: seq<T>, b: seq<T>, c: seq<T>, d: seq<T>)
    ensures ((a + b) + c) + d == a + ((b + c) + d)
  {
  }

  // What the delivery theorems say of the agent's own buffers, in every state its methods can leave:
  // nothing was lost or duplicated, and what waits is in production order.
  lemma BuffersAccountForEverything(a: Agent)
    requires a.Valid() && InOrder(a.start.disk, a.start.nextTicket)
    ensures InOrder(a.disk.pending + a.memory + a.arrived + a.queue, a.nextTicket)
    ensures multiset(a.disk.pending) + multiset(a.memory) + multiset(a.arrived) + multiset(a.queue)
      + Settled(a.Model()) == multiset(Made(a.start.disk, a.start.nextTicket, a.history))
  {
    WaitingInProductionOrder(a.start.disk, a.counted, a.start.cap, a.start.nextTicket, a.history);
    EveryBatchAccountedFor(a.start.disk, a.counted, a.start.cap, a.start.nextTicket, a.history);
  }

  // And of the counters of its disk buffer. If they were right at the start they are right exactly
  // when no payload was deleted unread; if they could not be read and none was, exactly when the
  // table has been empty since.
  lemma CountersMatchIff(a: Agent)
    requires a.Valid()
    ensures a.counted ==> (a.disk.Exact() <==> forall i :: !MiscountsAt(a.start, a.history, i))
    ensures !a.counted && (forall i :: !MiscountsAt(a.start, a.history, i)) ==>
      (a.disk.Exact() <==> EverEmpty(a.start, a.history))
  {
    if a.counted {
      StayRightIff(a.start, a.history);
    } else if forall i :: !MiscountsAt(a.start, a.history, i) {
      HealIff(a.start.disk, a.start.cap, a.start.nextTicket, a.history);
    }
  }
}
