/** The on-disk overflow buffer: a table of pending payloads in insertion order, and two counters
    that shadow its row count and total size. Statements may fail at any time, and a cursor may stop
    before the last row; whether one succeeds and how many rows it returns are inputs. */
module DiskBuffering {
  const U64 := 0x1_0000_0000_0000_0000

  // The size of an object in memory.
  type Length = n: int | 0 <= n < U64

  // A serialised batch. Tickets number batches in production order; the buffer never looks at them.
  datatype Batch = Batch(ticket: nat, size: Length, serializes: bool, parses: bool)

  function Total(rows: seq<Batch>): nat {
    if rows == [] then 0 else rows[0].size + Total(rows[1..])
  }

  // Number of oldest rows to give up so that the rest fits, if any rest does.
  function TrimCount(rows: seq<Batch>, cap: int): (k: nat)
    ensures k <= |rows|
  {
    if rows == [] || Total(rows) <= cap then 0 else 1 + TrimCount(rows[1..], cap)
  }

  lemma {:induction false} TrimCountIsLeast(rows: seq<Batch>, cap: int)
    ensures TrimCount(rows, cap) == |rows| || Total(rows[TrimCount(rows, cap)..]) <= cap
    ensures forall k :: 0 <= k < TrimCount(rows, cap) ==> Total(rows[k..]) > cap
  {
    assert rows[0..] == rows;
    if rows != [] && Total(rows) > cap {
      TrimCountIsLeast(rows[1..], cap);
      assert rows[1..][TrimCount(rows[1..], cap)..] == rows[TrimCount(rows, cap)..];
      forall k | 1 <= k < TrimCount(rows, cap) ensures Total(rows[k..]) > cap {
        assert rows[1..][k - 1..] == rows[k..];
      }
    }
  }

  lemma {:induction false} TotalSplit(rows: seq<Batch>, k: nat)
    requires k <= |rows|
    ensures Total(rows) == Total(rows[..k]) + Total(rows[k..])
  {
    if k > 0 {
      TotalSplit(rows[1..], k - 1);
      assert rows[1..][..k - 1] == rows[..k][1..] && rows[1..][k - 1..] == rows[k..];
    } else {
      assert rows[..0] == [] && rows[0..] == rows;
    }
  }

  lemma SplitThree(rows: seq<Batch>, i: nat, n: nat)
    requires i <= n <= |rows|
    ensures Total(rows) == Total(rows[..i]) + Total(rows[i..n]) + Total(rows[n..])
  {
    TotalSplit(rows, n);
    TotalSplit(rows[..n], i);
    assert rows[..n][..i] == rows[..i] && rows[..n][i..] == rows[i..n];
  }

  lemma TotalAppend(rows: seq<Batch>, b: Batch)
    ensures Total(rows + [b]) == Total(rows) + b.size
  {
    TotalSplit(rows + [b], |rows|);
    assert (rows + [b])[..|rows|] == rows && (rows + [b])[|rows|..] == [b];
  }

  // Counting up to the trim count, one is there when the rest fits or nothing is left.
  lemma AtTrimCount(rows: seq<Batch>, cap: int, t: nat)
    requires t <= TrimCount(rows, cap)
    ensures t == TrimCount(rows, cap) <==> t == |rows| || Total(rows) - Total(rows[..t]) <= cap
    ensures Total(rows[..t]) <= Total(rows)
    ensures t < |rows| ==> rows[t].size <= Total(rows) - Total(rows[..t])
  {
    TrimCountIsLeast(rows, cap);
    TotalSplit(rows, t);
    if t < |rows| { StepTotal(rows, t); }
  }

  lemma StepTotal(rows: seq<Batch>, i: nat)
    requires i < |rows|
    ensures Total(rows[i..]) == rows[i].size + Total(rows[i + 1..])
    ensures Total(rows[..i + 1]) == Total(rows[..i]) + rows[i].size
  {
    assert rows[i..][1..] == rows[i + 1..];
    TotalAppend(rows[..i], rows[i]);
    assert rows[..i] + [rows[i]] == rows[..i + 1];
  }

  function Min(a: nat, b: nat): nat { if a < b then a else b }

  // The saturating subtraction of the counters.
  function Reduced(a: nat, b: nat): nat { if a > b then a - b else 0 }

  // Subtraction of unsigned 64-bit counters.
  function Minus(a: nat, b: nat): (d: nat)
    ensures d == a - b <==> b <= a
    requires b < U64
  {
    if b <= a then a - b else a - b + U64
  }

  datatype OpenOutcome = CannotOpen | SchemaFailed | CountFailed | Ready

  class DiskBuffer {
    const maxBytes: nat
    var isOpen: bool
    var pending: seq<Batch>
    var rows: nat
    var bytes: nat
    // How many of the oldest rows were in the file when it was opened.
    ghost var inherited: nat

    // The shadow counters are right.
    ghost predicate Exact()
      reads this
    {
      rows == |pending| && bytes == Total(pending)
    }

    // The row counter is right and the byte counter is too large by d.
    ghost predicate OverBy(d: nat)
      reads this
    {
      rows == |pending| && bytes == Total(pending) + d
    }

    // Rows go in only while the counter is within the cap, and it can be above the cap only if it was
    // read from the table: so then the rows are those inherited, and it is not too small.
    ghost predicate Valid()
      reads this
    {
      && inherited <= |pending|
      && (bytes > maxBytes ==> inherited == |pending| == rows && bytes >= Total(pending))
    }

    constructor (maxBytes: nat, file: seq<Batch>)
      ensures Valid() && this.maxBytes == maxBytes && pending == file && !isOpen && rows == 0 && bytes == 0
    {
      this.maxBytes := maxBytes;
      isOpen, pending, rows, bytes, inherited := false, file, 0, 0, |file|;
    }

    // Opening makes the counters right exactly when the counting query ran or there was nothing to
    // count. A handle whose schema could not be set up stays in use all the same.
    method Open(outcome: OpenOutcome) returns (ok: bool)
      requires Valid() && !isOpen && rows == 0 && bytes == 0
      modifies this
      ensures Valid() && pending == old(pending) && inherited == |pending|
      ensures isOpen <==> outcome != CannotOpen
      ensures ok <==> outcome in {CountFailed, Ready}
      ensures Exact() <==> outcome == Ready || pending == []
      ensures outcome != Ready ==> rows == 0 && bytes == 0
    {
      inherited := |pending|;
      isOpen := outcome != CannotOpen;
      if outcome == Ready {
        rows := |pending|;
        bytes := Total(pending);
      }
      ok := outcome == CountFailed || outcome == Ready;
    }

    // When the counter is above the cap, drops the shortest run of oldest rows that would bring it
    // back, or as much of it as the cursor returned. Only inherited rows ever go, the unsigned
    // subtraction never wraps, and a counter too large by d stays so.
    method Trim(read: nat, deleted: bool) returns (removed: nat)
      requires Valid()
      modifies this
      ensures Valid() && isOpen == old(isOpen)
      ensures removed <= old(inherited) <= |old(pending)| && pending == old(pending)[removed..]
      ensures inherited == old(inherited) - removed
      ensures removed == if isOpen && deleted && old(bytes) > maxBytes
        then Min(read, TrimCount(old(pending), maxBytes - old(bytes) + Total(old(pending)))) else 0
      ensures rows == Reduced(old(rows), removed)
      ensures bytes == Reduced(old(bytes), Total(old(pending)[..removed]))
      ensures forall d: nat :: old(OverBy(d)) ==> OverBy(d)
    {
      assert pending[0..] == pending && pending[..0] == [];
      if !isOpen || bytes <= maxBytes { return 0; }
      var toRemove, kept := CountToTrim(read);
      if toRemove == 0 { return 0; }
      if toRemove > rows { toRemove := rows; }
      if !deleted { return 0; }
      TotalSplit(pending, toRemove);
      inherited := if toRemove < inherited then inherited - toRemove else 0;
      pending := pending[toRemove..];
      rows := if rows > toRemove then rows - toRemove else 0;
      bytes := kept;
      removed := toRemove;
    }

    // Reads payload sizes, oldest first, until the rest fits by the counter or the cursor stops.
    method CountToTrim(read: nat) returns (toRemove: nat, kept: nat)
      requires bytes >= Total(pending)
      ensures toRemove == Min(read, TrimCount(pending, maxBytes - bytes + Total(pending)))
      ensures kept == bytes - Total(pending[..toRemove])
    {
      ghost var cap := maxBytes - bytes + Total(pending);
      toRemove, kept := 0, bytes;
      assert pending[..0] == [];
      while toRemove < |pending| && toRemove < read && kept > maxBytes
        invariant 0 <= toRemove <= TrimCount(pending, cap) && toRemove <= read
        invariant kept == bytes - Total(pending[..toRemove])
      {
        AtTrimCount(pending, cap, toRemove);
        StepTotal(pending, toRemove);
        kept := Minus(kept, pending[toRemove].size);
        toRemove := toRemove + 1;
      }
      AtTrimCount(pending, cap, toRemove);
    }

    // Either stores the payload at the end of the table or refuses it, by what the counter says. When
    // it is not too small a success ends within the cap.
    method Push(b: Batch, trimRead: nat, trimDeleted: bool, inserted: bool) returns (stored: bool, trimmed: nat)
      requires Valid()
      modifies this
      ensures Valid() && isOpen == old(isOpen)
      ensures trimmed <= old(inherited) <= |old(pending)| && inherited == old(inherited) - trimmed
      ensures trimmed > 0 ==> old(bytes) > maxBytes
      ensures pending == old(pending)[trimmed..] + (if stored then [b] else [])
      ensures rows == Reduced(old(rows), trimmed) + if stored then 1 else 0
      ensures bytes == Reduced(old(bytes), Total(old(pending)[..trimmed])) + if stored then b.size else 0
      ensures stored ==> isOpen && inserted && bytes <= maxBytes
      ensures isOpen && inserted && !stored ==> bytes + b.size > maxBytes
      ensures forall d: nat :: old(OverBy(d)) ==> OverBy(d) && (stored ==> Total(pending) <= maxBytes)
    {
      assert pending[0..] == pending && pending[..0] == [];
      if !isOpen { return false, 0; }
      trimmed := Trim(trimRead, trimDeleted);
      if bytes + b.size > maxBytes || !inserted { return false, trimmed; }
      TotalAppend(pending, b);
      pending := pending + [b];
      rows := rows + 1;
      bytes := bytes + b.size;
      stored := true;
    }

    method Peek(limit: nat, read: nat) returns (out: seq<Batch>)
      ensures out == if isOpen then pending[..Min(|pending|, Min(limit, read))] else []
    {
      out := [];
      if !isOpen || limit == 0 { return; }
      var i := 0;
      while i < |pending| && i < limit && i < read
        invariant 0 <= i <= |pending| && i <= limit && i <= read && out == pending[..i]
      {
        out := out + [pending[i]];
        i := i + 1;
      }
    }

    // Removes the oldest `count` rows, or all there are. The bytes of the rows the cursor returned
    // are taken off the counter, but the deletion does not wait for the cursor to have returned them
    // all: right counters stay right exactly when nothing deleted was left unread but empty payloads.
    method Pop(count: nat, read: nat, deleted: bool)
      requires Valid()
      modifies this
      ensures Valid() && isOpen == old(isOpen)
      ensures !isOpen || !deleted ==>
        pending == old(pending) && rows == old(rows) && bytes == old(bytes) && inherited == old(inherited)
      ensures isOpen && deleted ==> var n := Min(count, |old(pending)|); var m := Min(read, n);
        && pending == old(pending)[n..] && inherited == Reduced(old(inherited), n)
        && rows == Reduced(old(rows), count) && bytes == Reduced(old(bytes), Total(old(pending)[..m]))
        && (forall d: nat :: old(OverBy(d)) ==> OverBy(d + Total(old(pending)[m..n])))
        && (old(Exact()) ==> (Exact() <==> Total(old(pending)[m..n]) == 0))
    {
      assert pending[0..] == pending;
      if !isOpen || count == 0 { return; }
      var removed := SizesRead(count, read);
      if deleted {
        ghost var n := Min(count, |pending|);
        SplitThree(pending, Min(read, n), n);
        RemoveRows(count);
        rows := if rows > count then rows - count else 0;
        bytes := if bytes > removed then bytes - removed else 0;
      }
    }

    // Sums the sizes of the rows the cursor returns.
    method SizesRead(count: nat, read: nat) returns (removed: nat)
      ensures removed == Total(pending[..Min(read, Min(count, |pending|))])
    {
      removed := 0;
      var i := 0;
      assert pending[..0] == [];
      while i < |pending| && i < count && i < read
        invariant 0 <= i <= |pending| && i <= count && i <= read && removed == Total(pending[..i])
      {
        StepTotal(pending, i);
        removed := removed + pending[i].size;
        i := i + 1;
      }
    }

    // The DELETE statement.
    method RemoveRows(count: nat)
      modifies `pending, `inherited
      ensures var n := Min(count, |old(pending)|);
        pending == old(pending)[n..] && inherited == Reduced(old(inherited), n)
    {
      var n := Min(count, |pending|);
      pending := pending[n..];
      inherited := if n < inherited then inherited - n else 0;
    }

    method Size(prepared: bool) returns (n: nat)
      ensures n == if isOpen && prepared then |pending| else 0
    {
      n := if isOpen && prepared then |pending| else 0;
    }
  }
}
