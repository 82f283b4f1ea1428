/** The collector's way in: the streaming RPC that cuts a metric stream into batches, and the
    insertion of a batch into the metrics table in statements of a bounded number of rows. */
module Ingest {
  const FLUSH_THRESHOLD := 500

  datatype Metric = Metric(checkType: string, target: string, seqNo: int, payload: nat)

  // Primary key of network_metrics.
  datatype Key = Key(time: int, agent: string, checkType: string, target: string, seqNo: int)

  type Table = map<Key, Metric>

  function KeyOf(agent: string, timestamp: int, m: Metric, i: nat): Key {
    Key(timestamp + i, agent, m.checkType, m.target, m.seqNo)
  }

  // The columns of the primary key hold this.
  ghost predicate IsKeyOf(k: Key, agent: string, time: int, m: Metric) {
    k.time == time && k.agent == agent && k.checkType == m.checkType && k.target == m.target && k.seqNo == m.seqNo
  }

  // Rows lo..hi of a batch, each offset by its position, existing keys left alone.
  function InsertRows(t: Table, agent: string, timestamp: int, ms: seq<Metric>, lo: nat, hi: nat): Table
    requires lo <= hi <= |ms|
    decreases hi
  {
    if lo == hi then t
    else
      var before := InsertRows(t, agent, timestamp, ms, lo, hi - 1);
      var key := KeyOf(agent, timestamp, ms[hi - 1], hi - 1);
      if key in before then before else before[key := ms[hi - 1]]
  }

  lemma {:induction false} InsertKeys(t: Table, agent: string, timestamp: int, ms: seq<Metric>, n: nat)
    requires n <= |ms|
    ensures var r := InsertRows(t, agent, timestamp, ms, 0, n);
      forall k :: k in r <==> k in t || exists i :: 0 <= i < n && IsKeyOf(k, agent, timestamp + i, ms[i])
    ensures forall k :: k in t ==> InsertRows(t, agent, timestamp, ms, 0, n)[k] == t[k]
  {
    if n > 0 { InsertKeys(t, agent, timestamp, ms, n - 1); }
  }

  // Redelivering a batch with the same timestamp changes nothing.
  lemma {:induction false} ReinsertIsNoOp(t: Table, agent: string, timestamp: int, ms: seq<Metric>, n: nat)
    requires n <= |ms| && forall i :: 0 <= i < n ==> KeyOf(agent, timestamp, ms[i], i) in t
    ensures InsertRows(t, agent, timestamp, ms, 0, n) == t
  {
    if n > 0 { ReinsertIsNoOp(t, agent, timestamp, ms, n - 1); }
  }

  lemma RedeliveryIsIdempotent(t: Table, agent: string, timestamp: int, ms: seq<Metric>, n: nat)
    requires n <= |ms|
    ensures var once := InsertRows(t, agent, timestamp, ms, 0, n);
      InsertRows(once, agent, timestamp, ms, 0, n) == once
  {
    InsertKeys(t, agent, timestamp, ms, n);
    ReinsertIsNoOp(InsertRows(t, agent, timestamp, ms, 0, n), agent, timestamp, ms, n);
  }

  // But direct mode reads the clock anew for each delivery: a batch that was stored under t1 and is
  // delivered again under t2 is skipped if and only if both readings are the same.
  lemma RedeliveryIsSkippedIff(t: Table, agent: string, t1: int, t2: int, ms: seq<Metric>)
    requires ms != [] && forall i :: 0 < i < |ms| ==> ms[i].seqNo != ms[0].seqNo
    requires forall k :: k in t && k.agent == agent ==> k.seqNo != ms[0].seqNo
    ensures var once := InsertRows(t, agent, t1, ms, 0, |ms|);
      InsertRows(once, agent, t2, ms, 0, |ms|) == once <==> t1 == t2
  {
    var once := InsertRows(t, agent, t1, ms, 0, |ms|);
    RedeliveryIsIdempotent(t, agent, t1, ms, |ms|);
    if t1 != t2 {
      var key := KeyOf(agent, t2, ms[0], 0);
      InsertKeys(t, agent, t1, ms, |ms|);
      InsertKeys(once, agent, t2, ms, |ms|);
      assert key !in once;
      assert key in InsertRows(once, agent, t2, ms, 0, |ms|);
    }
  }

  // The metric is stored under a key whose columns are this time and agent and its own check type,
  // target and sequence number.
  ghost predicate IsStored(t: Table, agent: string, time: int, m: Metric) {
    var key := Key(time, agent, m.checkType, m.target, m.seqNo);
    key in t && t[key] == m
  }

  // No row of this agent lies at one of these times.
  ghost predicate IsFree(t: Table, agent: string, start: int, n: nat) {
    forall k :: k in t && k.agent == agent ==> k.time < start || start + n <= k.time
  }

  lemma FreshKey(t: Table, agent: string, timestamp: int, ms: seq<Metric>, n: nat)
    requires n < |ms| && IsFree(t, agent, timestamp, n + 1)
    ensures KeyOf(agent, timestamp, ms[n], n) !in InsertRows(t, agent, timestamp, ms, 0, n)
  {
    InsertKeys(t, agent, timestamp, ms, n);
  }

  lemma OneRowMore(t: Table, key: Key, m: Metric)
    requires key !in t
    ensures |t[key := m]| == |t| + 1
    ensures forall agent, time, other :: IsStored(t, agent, time, other) ==> IsStored(t[key := m], agent, time, other)
  {
    assert t[key := m].Keys == t.Keys + {key};
  }

  // The position offset keeps equal metrics apart: into a table with no row of this agent at these
  // times, all n rows go in.
  lemma {:induction false} FreshBatchInsertsAll(t: Table, agent: string, timestamp: int, ms: seq<Metric>, n: nat)
    requires n <= |ms| && IsFree(t, agent, timestamp, n)
    ensures |InsertRows(t, agent, timestamp, ms, 0, n)| == |t| + n
    ensures forall i :: 0 <= i < n ==> IsStored(InsertRows(t, agent, timestamp, ms, 0, n), agent, timestamp + i, ms[i])
  {
    if n > 0 {
      FreshBatchInsertsAll(t, agent, timestamp, ms, n - 1);
      FreshKey(t, agent, timestamp, ms, n - 1);
      OneRowMore(InsertRows(t, agent, timestamp, ms, 0, n - 1), KeyOf(agent, timestamp, ms[n - 1], n - 1), ms[n - 1]);
    }
  }

  class Storage {
    const batchSize: int
    var table: Table

    // Rows one statement takes.
    function RowsPerStatement(): nat { if batchSize < 1 then 1 else batchSize }

    constructor (batchSize: int, table: Table)
      ensures this.batchSize == batchSize && this.table == table
    {
      this.batchSize, this.table := batchSize, table;
    }

    // Inserts a batch. `works` is whether the database accepts a well-formed statement. Flushing
    // clears the statement text, INSERT INTO included, so only the first statement has a header;
    // a batch is stored whole exactly when it fits in that one, and otherwise its beginning is.
    method InsertMetrics(agent: string, timestamp: int, metrics: seq<Metric>, works: bool) returns (ok: bool)
      modifies this
      ensures ok <==> metrics == [] || (works && |metrics| <= RowsPerStatement())
      ensures table ==
        if works
        then InsertRows(old(table), agent, timestamp, metrics, 0,
                        if |metrics| <= RowsPerStatement() then |metrics| else RowsPerStatement())
        else old(table)
    {
      var total, batchRows, header, i := 0, 0, true, 0;
      ghost var before := table;
      while i < |metrics|
        invariant 0 <= i <= |metrics| && total + batchRows == i
        invariant header ==> total == 0 && batchRows < RowsPerStatement() && table == before
        invariant !header ==> works && total == RowsPerStatement() && batchRows < RowsPerStatement()
        invariant !header ==> table == InsertRows(before, agent, timestamp, metrics, 0, total)
      {
        batchRows := batchRows + 1;
        i := i + 1;
        if batchRows >= batchSize {
          var flushed := Flush(agent, timestamp, metrics, total, i, header && works);
          if !flushed { return false; }
          total, batchRows, header := total + batchRows, 0, false;
        }
      }
      if batchRows == 0 { return true; }
      ok := Flush(agent, timestamp, metrics, total, i, header && works);
    }

    // Executes the statement holding rows lo..hi.
    method Flush(agent: string, timestamp: int, metrics: seq<Metric>, lo: nat, hi: nat, accepted: bool)
      returns (ok: bool)
      requires lo <= hi <= |metrics|
      modifies this
      ensures ok == accepted
      ensures table == if accepted then InsertRows(old(table), agent, timestamp, metrics, lo, hi) else old(table)
    {
      ok := accepted;
      if !ok { return; }
      var i := lo;
      while i < hi
        invariant lo <= i <= hi && table == InsertRows(old(table), agent, timestamp, metrics, lo, i)
      {
        var key := KeyOf(agent, timestamp, metrics[i], i);
        if key !in table { table := table[key := metrics[i]]; }
        i := i + 1;
      }
    }
  }

  // ----- the streaming RPC -----

  // The k-th batch of a stream.
  function Piece(stream: seq<Metric>, k: nat): seq<Metric>
    requires FLUSH_THRESHOLD * k <= |stream|
  {
    stream[FLUSH_THRESHOLD * k..if FLUSH_THRESHOLD * (k + 1) < |stream| then FLUSH_THRESHOLD * (k + 1) else |stream|]
  }

  function PieceCount(n: nat): nat { (n + FLUSH_THRESHOLD - 1) / FLUSH_THRESHOLD }

  function Pieces(stream: seq<Metric>, k: nat): (ps: seq<seq<Metric>>)
    requires k <= PieceCount(|stream|)
    ensures |ps| == k
  {
    if k == 0 then [] else Pieces(stream, k - 1) + [Piece(stream, k - 1)]
  }

  function Concat(ps: seq<seq<Metric>>): seq<Metric> {
    if ps == [] then [] else Concat(ps[..|ps| - 1]) + ps[|ps| - 1]
  }

  // The first k batches are consecutive pieces of the stream: together they are its beginning.
  lemma {:induction false} PiecesAreThePrefix(stream: seq<Metric>, k: nat)
    requires k <= PieceCount(|stream|)
    ensures Concat(Pieces(stream, k)) == stream[..if 500 * k < |stream| then 500 * k else |stream|]
  {
    if k > 0 {
      PiecesAreThePrefix(stream, k - 1);
      assert Pieces(stream, k)[..k - 1] == Pieces(stream, k - 1);
      PieceExtends(stream, k - 1);
    }
  }

  lemma PieceExtends(stream: seq<Metric>, k: nat)
    requires k < PieceCount(|stream|)
    ensures stream[..FLUSH_THRESHOLD * k] + Piece(stream, k)
         == stream[..if FLUSH_THRESHOLD * (k + 1) < |stream| then FLUSH_THRESHOLD * (k + 1) else |stream|]
  {
  }

  lemma {:induction false} PiecesAreBounded(stream: seq<Metric>, k: nat, i: nat)
    requires i < k <= PieceCount(|stream|)
    ensures 0 < |Pieces(stream, k)[i]| <= 500
  {
    if i < k - 1 { PiecesAreBounded(stream, k - 1, i); }
  }

  // A piece is stored whole: the database takes it and it fits one statement.
  predicate Lands(stream: seq<Metric>, works: nat -> bool, capacity: nat, k: nat)
    requires k < PieceCount(|stream|)
  {
    works(k) && |Piece(stream, k)| <= capacity
  }

  ghost predicate AllLand(stream: seq<Metric>, works: nat -> bool, capacity: nat, n: nat)
    requires n <= PieceCount(|stream|)
  {
    forall k :: 0 <= k < n ==> Lands(stream, works, capacity, k)
  }

  ghost predicate FailsFirstAt(stream: seq<Metric>, works: nat -> bool, capacity: nat, f: nat) {
    f < PieceCount(|stream|) && !Lands(stream, works, capacity, f) && AllLand(stream, works, capacity, f)
  }

  // The first k pieces stored one after the other, each under its own clock reading.
  function InsertPieces(t: Table, agent: string, stream: seq<Metric>, clock: nat -> int, k: nat): Table
    requires k <= PieceCount(|stream|)
  {
    if k == 0 then t
    else
      var piece := Piece(stream, k - 1);
      InsertRows(InsertPieces(t, agent, stream, clock, k - 1), agent, clock(k - 1), piece, 0, |piece|)
  }

  // What a piece that does not land leaves behind it: nothing, or as much as one statement takes.
  function InsertBeginning(t: Table, agent: string, now: int, piece: seq<Metric>, works: bool, capacity: nat): Table {
    if works then InsertRows(t, agent, now, piece, 0, if |piece| <= capacity then |piece| else capacity) else t
  }

  datatype Response = Response(ack: bool, accepted: int, rejected: int)

  // A stream under way: its agent and metrics, the clock at each batch, whether the database then
  // accepts a statement, the rows of a statement, and the table before.
  datatype Upload = Upload(
    agent: string, stream: seq<Metric>, clock: nat -> int, works: nat -> bool, capacity: nat, before: Table)
  {
    // The first n pieces are stored.
    ghost predicate Stored(n: nat, table: Table, made: seq<seq<Metric>>) {
      && n <= PieceCount(|stream|) && AllLand(stream, works, capacity, n)
      && table == InsertPieces(before, agent, stream, clock, n) && made == Pieces(stream, n)
    }

    // Those before the f-th are stored, and that one was the last to be tried.
    ghost predicate Stopped(f: nat, table: Table, made: seq<seq<Metric>>) {
      && FailsFirstAt(stream, works, capacity, f) && made == Pieces(stream, f + 1)
      && table == InsertBeginning(InsertPieces(before, agent, stream, clock, f), agent, clock(f), Piece(stream, f),
                                  works(f), capacity)
    }

    // What is left of the stream behind n full pieces, less than another one.
    ghost predicate Rest(n: nat, rest: seq<Metric>) {
      FLUSH_THRESHOLD * n <= |stream| < FLUSH_THRESHOLD * (n + 1) && rest == stream[FLUSH_THRESHOLD * n..]
    }

    ghost predicate AllWork() { forall k :: 0 <= k < PieceCount(|stream|) ==> works(k) }
  }

  lemma FullIsPiece(stream: seq<Metric>, n: nat, full: seq<Metric>)
    requires FLUSH_THRESHOLD * (n + 1) <= |stream|
    requires full == stream[FLUSH_THRESHOLD * n..FLUSH_THRESHOLD * n + FLUSH_THRESHOLD]
    ensures n < PieceCount(|stream|) && full == Piece(stream, n)
  {
  }

  lemma NoRest(d: Upload, n: nat, made: seq<seq<Metric>>, table: Table)
    requires d.Rest(n, []) && d.Stored(n, table, made)
    ensures d.Stored(PieceCount(|d.stream|), table, made + [])
  {
    assert |d.stream| == FLUSH_THRESHOLD * n;
    assert PieceCount(|d.stream|) == n && made + [] == made;
  }

  lemma RestIsPiece(d: Upload, n: nat, rest: seq<Metric>)
    requires d.Rest(n, rest) && rest != []
    ensures PieceCount(|d.stream|) == n + 1 && rest == Piece(d.stream, n)
  {
  }

  lemma Appended<T>(a: seq<T>, b: seq<T>, c: seq<T>)
    ensures (a + b) + c == a + (b + c)
  {
  }

  // The service in direct mode, where batches go straight into the table.
  class MetricsService {
    const storage: Storage
    var received: int
    var rejectedTotal: int
    // Batches handed to ingestion, in order.
    ghost var ingested: seq<seq<Metric>>

    constructor (storage: Storage)
      ensures this.storage == storage && received == 0 && rejectedTotal == 0 && ingested == []
    {
      this.storage, received, rejectedTotal, ingested := storage, 0, 0, [];
    }

    // Stores the k-th piece, after the ones before it.
    method IngestBatch(d: Upload, batch: seq<Metric>, k: nat, ghost made: seq<seq<Metric>>) returns (ok: bool)
      requires k < PieceCount(|d.stream|) && batch == Piece(d.stream, k)
      requires d.capacity == storage.RowsPerStatement() && d.Stored(k, storage.table, made)
      modifies `ingested, storage
      ensures ingested == old(ingested) + [batch]
      ensures ok ==> d.Stored(k + 1, storage.table, made + [batch])
      ensures !ok ==> d.Stopped(k, storage.table, made + [batch])
    {
      ingested := ingested + [batch];
      ok := storage.InsertMetrics(d.agent, d.clock(k), batch, d.works(k));
    }

    // Reads a whole stream. Every metric read is accepted or rejected. The first batch that is not
    // stored whole, and all that follows it, is rejected; with statements of at least 500 rows a
    // working database stores every metric.
    method StreamMetrics(d: Upload) returns (r: Response, ghost made: seq<seq<Metric>>)
      requires d.capacity == storage.RowsPerStatement() && d.before == storage.table
      modifies this, storage
      ensures r.accepted + r.rejected == |d.stream| && received == old(received) + |d.stream|
      ensures rejectedTotal == old(rejectedTotal) + r.rejected && ingested == old(ingested) + made
      ensures d.agent == "" ==> !r.ack && r.accepted == 0 && made == [] && storage.table == old(storage.table)
      ensures r.ack ==> r.rejected == 0 && d.Stored(PieceCount(|d.stream|), storage.table, made)
      ensures d.agent != "" && !r.ack ==>
        exists f: nat :: d.Stopped(f, storage.table, made) && r.accepted == FLUSH_THRESHOLD * f
      ensures d.agent != "" && FLUSH_THRESHOLD <= storage.batchSize && d.AllWork() ==> r.ack
    {
      made := [];
      if d.agent == "" {
        received, rejectedTotal := received + |d.stream|, rejectedTotal + |d.stream|;
        r := Response(false, 0, |d.stream|);
        return;
      }
      var read, flushed, rest, ok;
      read, flushed, rest, ok, made := ReadPieces(d);
      if !ok {
        WorkingStreamNeverStops(d, flushed, storage, made);
        var rejected := FLUSH_THRESHOLD + (|d.stream| - read);
        received := received + (|d.stream| - read);
        rejectedTotal := rejectedTotal + rejected;
        r := Response(false, FLUSH_THRESHOLD * flushed, rejected);
        return;
      }
      ghost var more;
      ok, more := FlushRest(d, flushed, rest, made);
      Appended(old(ingested), made, more);
      made := made + more;
      if !ok {
        WorkingStreamNeverStops(d, flushed, storage, made);
        var rejected := |d.stream| - FLUSH_THRESHOLD * flushed;
        rejectedTotal := rejectedTotal + rejected;
        r := Response(false, FLUSH_THRESHOLD * flushed, rejected);
        return;
      }
      r := Response(true, |d.stream|, 0);
    }

    // Hands on what is left at the end of the stream, if anything is.
    method FlushRest(d: Upload, flushed: nat, rest: seq<Metric>, ghost made: seq<seq<Metric>>)
      returns (ok: bool, ghost more: seq<seq<Metric>>)
      requires d.Rest(flushed, rest)
      requires d.capacity == storage.RowsPerStatement() && d.Stored(flushed, storage.table, made)
      modifies `ingested, storage
      ensures ingested == old(ingested) + more
      ensures ok ==> d.Stored(PieceCount(|d.stream|), storage.table, made + more)
      ensures !ok ==> d.Stopped(flushed, storage.table, made + more)
    {
      if rest == [] {
        NoRest(d, flushed, made, storage.table);
        ok, more := true, [];
      } else {
        RestIsPiece(d, flushed, rest);
        more := [rest];
        ok := IngestBatch(d, rest, flushed, made);
      }
    }

    // Reads on until the batch is full or the stream ends.
    method FillBatch(stream: seq<Metric>, from: nat) returns (batch: seq<Metric>)
      requires from <= |stream|
      modifies `received
      ensures |batch| == if |stream| - from < FLUSH_THRESHOLD then |stream| - from else FLUSH_THRESHOLD
      ensures batch == stream[from..from + |batch|] && received == old(received) + |batch|
    {
      batch := [];
      while from + |batch| < |stream| && |batch| < FLUSH_THRESHOLD
        invariant from + |batch| <= |stream| && |batch| <= FLUSH_THRESHOLD
        invariant batch == stream[from..from + |batch|] && received == old(received) + |batch|
      {
        batch := batch + [stream[from + |batch|]];
        received := received + 1;
      }
    }

    // The read loop: hands each full batch on, until one is not stored or the stream ends.
    method ReadPieces(d: Upload)
      returns (read: nat, flushed: nat, rest: seq<Metric>, ok: bool, ghost made: seq<seq<Metric>>)
      requires d.capacity == storage.RowsPerStatement() && d.before == storage.table
      modifies `received, `ingested, storage
      ensures read <= |d.stream| && received == old(received) + read && ingested == old(ingested) + made
      ensures ok ==> d.Stored(flushed, storage.table, made) && d.Rest(flushed, rest) && read == |d.stream|
      ensures !ok ==> d.Stopped(flushed, storage.table, made) && read == FLUSH_THRESHOLD * (flushed + 1)
    {
      flushed, made := 0, [];
      while true
        invariant FLUSH_THRESHOLD * flushed <= |d.stream| && d.Stored(flushed, storage.table, made)
        invariant received == old(received) + FLUSH_THRESHOLD * flushed && ingested == old(ingested) + made
        decreases |d.stream| - FLUSH_THRESHOLD * flushed
      {
        rest := FillBatch(d.stream, FLUSH_THRESHOLD * flushed);
        read := FLUSH_THRESHOLD * flushed + |rest|;
        if |rest| < FLUSH_THRESHOLD {
          ok := true;
          return;
        }
        FullIsPiece(d.stream, flushed, rest);
        ok := IngestBatch(d, rest, flushed, made);
        Appended(old(ingested), made, [rest]);
        made := made + [rest];
        if !ok { return; }
        flushed := flushed + 1;
      }
    }
  }

  // Every piece of a stream fits one statement of at least 500 rows, so the header that a flush clears
  // is never missed: with a working database nothing stops it.
  lemma WorkingStreamNeverStops(d: Upload, f: nat, s: Storage, made: seq<seq<Metric>>)
    requires d.capacity == s.RowsPerStatement() && d.Stopped(f, s.table, made)
    ensures !(FLUSH_THRESHOLD <= s.batchSize && d.AllWork())
  {
  }
}
