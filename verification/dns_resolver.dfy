/** The DNS resolver: a cache and an in-flight table under one mutex, shared by callers that may
    time out and by detached workers that may finish long after everyone stopped waiting.

    The check of the two tables and the insertion of a new in-flight entry are separate critical
    sections, and a caller reads the clock before it enters the first. */
module DnsResolver {
  import opened Common
  import opened Decimal

  const TTL_MS := 60000
  const SEP := '\U{1f}'

  // Host, service and hints. canonName is the one hint flag that is part of the key; otherFlags
  // stands for all the others, which the lookup honours but the key leaves out.
  datatype Query = Query(
    host: string, service: string, family: int, socktype: int, protocol: int, canonName: int, otherFlags: int)
  {
    predicate Clean() { SEP !in host && SEP !in service }

    ghost predicate SameBut(that: Query) { this.(otherFlags := that.otherFlags) == that }
  }

  function MakeKey(q: Query): string {
    q.host + [SEP] + q.service + [SEP] + IntToString(q.family) + [SEP] + IntToString(q.socktype) + [SEP]
    + IntToString(q.protocol) + [SEP] + IntToString(q.canonName)
  }

  datatype Answer = Answer(query: Query, ok: bool, data: nat)

  datatype Entry = Entry(answer: Answer, expiry: int)

  // A PendingLookup and its worker: resolving, then done, then retired.
  datatype Lookup = Lookup(query: Query, result: Option<Answer>, retired: bool)

  datatype Shared = Shared(cache: map<string, Entry>, inflight: map<string, nat>, lookups: seq<Lookup>)

  datatype Checked = Hit(entry: Entry) | Join(id: nat) | Miss

  // The first critical section of Lookup.
  function Check(s: Shared, q: Query, bypass: bool, calledAt: int): Checked {
    var key := MakeKey(q);
    if bypass then Miss
    else if key in s.cache && s.cache[key].expiry > calledAt then Hit(s.cache[key])
    else if key in s.inflight then Join(s.inflight[key])
    else Miss
  }

  // The second: a fresh pending lookup replaces whatever is in flight for the key.
  function Inserted(s: Shared, q: Query): Shared {
    s.(inflight := s.inflight[MakeKey(q) := |s.lookups|], lookups := s.lookups + [Lookup(q, None, false)])
  }

  function Published(s: Shared, id: nat, ok: bool, data: nat): Shared
    requires id < |s.lookups|
  {
    var l := s.lookups[id];
    if l.result.Some? then s
    else s.(lookups := s.lookups[id := l.(result := Some(Answer(l.query, ok, data)))])
  }

  // The worker's last critical section.
  function Retired(s: Shared, id: nat, now: int): Shared
    requires id < |s.lookups| && s.lookups[id].result.Some?
  {
    var l := s.lookups[id];
    var key, a := MakeKey(l.query), l.result.value;
    if l.retired then s
    else
      Shared(
        if a.ok && (key !in s.cache || s.cache[key].expiry <= now)
        then s.cache[key := Entry(a, now + TTL_MS)] else s.cache,
        if key in s.inflight && s.inflight[key] == id then s.inflight - {key} else s.inflight,
        s.lookups[id := l.(retired := true)])
  }

  function Cleared(s: Shared): Shared { s.(cache := map[], inflight := map[]) }

  // ----- callers and the clock -----

  datatype Source = FromCache(expiry: int, calledAt: int, checkedAt: int) | FromLookup(id: nat)

  datatype Caller =
    | Called(query: Query, bypass: bool, calledAt: int)
    | Missed(query: Query)
    | Waiting(query: Query, id: nat)
    | Served(query: Query, answer: Answer, source: Source)
    | TimedOut(query: Query)

  datatype World = World(shared: Shared, now: int, callers: map<nat, Caller>)

  datatype Event =
    | Pass(ms: nat)
    | Call(caller: nat, query: Query, bypass: bool)
    | CheckTables(caller: nat)
    | Insert(caller: nat)
    | Publish(id: nat, ok: bool, data: nat)
    | Retire(id: nat)
    | Collect(caller: nat)
    | GiveUp(caller: nat)
    | Clear

  const START := World(Shared(map[], map[], []), 0, map[])

  ghost function Apply(w: World, e: Event): World {
    var s := w.shared;
    match e
    case Pass(ms) => w.(now := w.now + ms)
    case Call(c, q, bypass) => if c in w.callers then w else w.(callers := w.callers[c := Called(q, bypass, w.now)])
    case CheckTables(c) =>
      if c !in w.callers || !w.callers[c].Called? then w
      else
        var caller := w.callers[c];
        var next := match Check(s, caller.query, caller.bypass, caller.calledAt)
          case Hit(entry) => Served(caller.query, entry.answer, FromCache(entry.expiry, caller.calledAt, w.now))
          case Join(id) => Waiting(caller.query, id)
          case Miss => Missed(caller.query);
        w.(callers := w.callers[c := next])
    case Insert(c) =>
      if c !in w.callers || !w.callers[c].Missed? then w
      else
        w.(shared := Inserted(s, w.callers[c].query),
           callers := w.callers[c := Waiting(w.callers[c].query, |s.lookups|)])
    case Publish(id, ok, data) => if id < |s.lookups| then w.(shared := Published(s, id, ok, data)) else w
    case Retire(id) =>
      if id < |s.lookups| && s.lookups[id].result.Some? then w.(shared := Retired(s, id, w.now)) else w
    case Collect(c) =>
      if c !in w.callers || !w.callers[c].Waiting? || w.callers[c].id >= |s.lookups|
         || s.lookups[w.callers[c].id].result.None? then w
      else
        var caller := w.callers[c];
        w.(callers := w.callers[c :=
             Served(caller.query, s.lookups[caller.id].result.value, FromLookup(caller.id))])
    case GiveUp(c) =>
      if c !in w.callers || !w.callers[c].Waiting? then w
      else w.(callers := w.callers[c := TimedOut(w.callers[c].query)])
    case Clear => w.(shared := Cleared(s))
  }

  ghost function Exec(events: seq<Event>): World {
    if events == [] then START else Apply(Exec(events[..|events| - 1]), events[|events| - 1])
  }

  // ----- what every run keeps -----

  // Every in-flight entry has a worker that has not reached its last section.
  ghost predicate InflightInv(s: Shared) {
    forall k :: k in s.inflight ==>
      && s.inflight[k] < |s.lookups|
      && MakeKey(s.lookups[s.inflight[k]].query) == k
      && !s.lookups[s.inflight[k]].retired
  }

  ghost predicate CacheInv(s: Shared, now: int) {
    forall k :: k in s.cache ==>
      s.cache[k].answer.ok && MakeKey(s.cache[k].answer.query) == k && s.cache[k].expiry <= now + TTL_MS
  }

  ghost predicate AnswersInv(s: Shared) {
    forall i :: 0 <= i < |s.lookups| && s.lookups[i].result.Some? ==>
      s.lookups[i].result.value.query == s.lookups[i].query
  }

  ghost predicate SharedInv(s: Shared, now: int) { InflightInv(s) && CacheInv(s, now) && AnswersInv(s) }

  ghost predicate CallerInv(s: Shared, now: int, c: Caller) {
    match c
    case Called(q, bypass, calledAt) => calledAt <= now
    case Waiting(q, id) => id < |s.lookups| && MakeKey(s.lookups[id].query) == MakeKey(q)
    case Served(q, a, source) =>
      MakeKey(a.query) == MakeKey(q) && (source.FromCache? ==> a.ok && TimelyHit(source))
    case _ => true
  }

  ghost predicate TimelyHit(source: Source)
    requires source.FromCache?
  {
    source.calledAt < source.expiry <= source.checkedAt + TTL_MS && source.calledAt <= source.checkedAt
  }

  ghost predicate Inv(w: World) {
    SharedInv(w.shared, w.now) && forall c :: c in w.callers ==> CallerInv(w.shared, w.now, w.callers[c])
  }

  lemma PublishKeeps(s: Shared, now: int, id: nat, ok: bool, data: nat)
    requires SharedInv(s, now) && id < |s.lookups|
    ensures SharedInv(Published(s, id, ok, data), now) && SameQueries(s, Published(s, id, ok, data))
  {
  }

  lemma RetireKeeps(s: Shared, now: int, id: nat)
    requires SharedInv(s, now) && id < |s.lookups| && s.lookups[id].result.Some?
    ensures SharedInv(Retired(s, id, now), now) && SameQueries(s, Retired(s, id, now))
  {
    RetireKeepsInflight(s, now, id);
    RetireKeepsCache(s, now, id);
  }

  lemma RetireKeepsInflight(s: Shared, now: int, id: nat)
    requires InflightInv(s) && id < |s.lookups| && s.lookups[id].result.Some?
    ensures InflightInv(Retired(s, id, now))
  {
  }

  lemma RetireKeepsCache(s: Shared, now: int, id: nat)
    requires CacheInv(s, now) && AnswersInv(s) && id < |s.lookups| && s.lookups[id].result.Some?
    ensures CacheInv(Retired(s, id, now), now) && AnswersInv(Retired(s, id, now))
  {
  }

  lemma InsertKeeps(s: Shared, now: int, q: Query)
    requires SharedInv(s, now)
    ensures SharedInv(Inserted(s, q), now) && SameQueries(s, Inserted(s, q))
  {
  }

  // Lookups are only ever added, and never change their query.
  ghost predicate SameQueries(s: Shared, s': Shared) {
    |s.lookups| <= |s'.lookups| && forall i :: 0 <= i < |s.lookups| ==> s'.lookups[i].query == s.lookups[i].query
  }

  lemma CallersKeep(s: Shared, s': Shared, now: int, callers: map<nat, Caller>)
    requires SameQueries(s, s') && forall c :: c in callers ==> CallerInv(s, now, callers[c])
    ensures forall c :: c in callers ==> CallerInv(s', now, callers[c])
  {
  }

  lemma CallerMoves(w: World, e: Event)
    requires Inv(w) && (e.Call? || e.CheckTables? || e.Collect? || e.GiveUp?)
    ensures Inv(Apply(w, e))
  {
  }

  lemma InvStep(w: World, e: Event)
    requires Inv(w)
    ensures Inv(Apply(w, e))
  {
    var s := w.shared;
    match e
    case Pass(_) =>
    case Clear => CallersKeep(s, Cleared(s), w.now, w.callers);
    case Publish(id, ok, data) =>
      if id < |s.lookups| {
        PublishKeeps(s, w.now, id, ok, data);
        CallersKeep(s, Published(s, id, ok, data), w.now, w.callers);
      }
    case Retire(id) =>
      if id < |s.lookups| && s.lookups[id].result.Some? {
        RetireKeeps(s, w.now, id);
        CallersKeep(s, Retired(s, id, w.now), w.now, w.callers);
      }
    case Insert(c) =>
      if c in w.callers && w.callers[c].Missed? {
        InsertKeeps(s, w.now, w.callers[c].query);
        CallersKeep(s, Inserted(s, w.callers[c].query), w.now, w.callers);
      }
    case _ => CallerMoves(w, e);
  }

  lemma {:induction false} InvHolds(events: seq<Event>)
    ensures Inv(Exec(events))
  {
    if events != [] {
      InvHolds(events[..|events| - 1]);
      InvStep(Exec(events[..|events| - 1]), events[|events| - 1]);
    }
  }

  // ----- the theorems about whole runs -----

  // Once every worker has finished, no entry is left in flight.
  lemma NothingLeftInFlight(events: seq<Event>)
    requires forall i :: 0 <= i < |Exec(events).shared.lookups| ==> Exec(events).shared.lookups[i].retired
    ensures Exec(events).shared.inflight == map[]
  {
    InvHolds(events);
    var s := Exec(events).shared;
    assert forall k :: k !in s.inflight;
  }

  lemma RetireInflight(s: Shared, id: nat, now: int, k: string)
    requires SharedInv(s, now) && k in s.inflight && id < |s.lookups| && s.lookups[id].result.Some?
    ensures k in Retired(s, id, now).inflight <==> s.inflight[k] != id
  {
  }

  // A worker's last section removes its own entry if it is still there, and nobody else's.
  lemma RetireRemovesOnlyItsOwn(events: seq<Event>, id: nat, k: string)
    requires k in Exec(events).shared.inflight
    requires id < |Exec(events).shared.lookups| && Exec(events).shared.lookups[id].result.Some?
    ensures var w := Exec(events);
      k in Retired(w.shared, id, w.now).inflight <==> w.shared.inflight[k] != id
  {
    InvHolds(events);
    RetireInflight(Exec(events).shared, id, Exec(events).now, k);
  }

  lemma RetireKeepsUnexpired(s: Shared, id: nat, now: int, k: string)
    requires id < |s.lookups| && s.lookups[id].result.Some?
    requires k in s.cache && now < s.cache[k].expiry
    ensures k in Retired(s, id, now).cache && Retired(s, id, now).cache[k] == s.cache[k]
  {
  }

  ghost predicate Cached(w: World, k: string, entry: Entry) {
    k in w.shared.cache && w.shared.cache[k] == entry
  }

  lemma UnexpiredStep(w: World, e: Event, k: string, entry: Entry)
    requires Cached(w, k, entry) && w.now < entry.expiry && e != Clear
    ensures Cached(Apply(w, e), k, entry)
  {
    if e.Retire? && e.id < |w.shared.lookups| && w.shared.lookups[e.id].result.Some? {
      RetireKeepsUnexpired(w.shared, e.id, w.now, k);
    }
  }

  // Through any run that does not clear the resolver and ends before the entry expires, a cached
  // answer stays as it is.
  lemma {:induction false} UnexpiredIsNeverReplaced(before: seq<Event>, after: seq<Event>, k: string, entry: Entry)
    requires Cached(Exec(before), k, entry) && Clear !in after && Exec(before + after).now < entry.expiry
    ensures Cached(Exec(before + after), k, entry)
  {
    if after == [] {
      assert before + after == before;
    } else {
      var front, e := after[..|after| - 1], after[|after| - 1];
      ExecMore(before, front, e);
      assert front + [e] == after;
      ClockGoesForward(Exec(before + front), e);
      UnexpiredIsNeverReplaced(before, front, k, entry);
      UnexpiredStep(Exec(before + front), e, k, entry);
    }
  }

  lemma ExecMore(before: seq<Event>, front: seq<Event>, e: Event)
    ensures Exec(before + (front + [e])) == Apply(Exec(before + front), e)
  {
    assert before + (front + [e]) == (before + front) + [e];
    assert ((before + front) + [e])[..|before + front|] == before + front;
  }

  lemma ClockGoesForward(w: World, e: Event)
    ensures w.now <= Apply(w, e).now
  {
  }

  lemma KeyPart(a: string, x: string, b: string, y: string)
    requires SEP !in a && SEP !in b && a + [SEP] + x == b + [SEP] + y
    ensures a == b && x == y
  {
    var s := a + [SEP] + x;
    assert s[|a|] == SEP && s[|b|] == SEP;
    assert forall i :: 0 <= i < |a| ==> s[i] == a[i];
    assert forall i :: 0 <= i < |b| ==> s[i] == b[i];
    assert |a| == |b|;
    assert s[..|a|] == a && s[..|b|] == b && s[|a| + 1..] == x && s[|b| + 1..] == y;
  }

  // The same from the other end.
  lemma KeyTail(x: string, a: string, y: string, b: string)
    requires SEP !in a && SEP !in b && x + [SEP] + a == y + [SEP] + b
    ensures x == y && a == b
  {
    var s := x + [SEP] + a;
    assert s[|x|] == SEP && s[|y|] == SEP;
    assert forall i :: |x| < i < |s| ==> s[i] == a[i - |x| - 1];
    assert forall i :: |y| < i < |s| ==> s[i] == b[i - |y| - 1];
    assert |x| == |y|;
    assert s[..|x|] == x && s[..|y|] == y && s[|x| + 1..] == a && s[|y| + 1..] == b;
  }

  lemma NumberTail(x: string, m: int, y: string, n: int)
    requires x + [SEP] + IntToString(m) == y + [SEP] + IntToString(n)
    ensures x == y && m == n
  {
    KeyTail(x, IntToString(m), y, IntToString(n));
    IntRoundTrip(m);
    IntRoundTrip(n);
  }

  function NamesKey(q: Query): string { q.host + [SEP] + q.service }

  // For all queries: two lookups share a key exactly when their joined names agree, and all hints
  // but the other flags do.
  lemma KeysAgreeIff(p: Query, q: Query)
    ensures MakeKey(p) == MakeKey(q) <==>
      NamesKey(p) == NamesKey(q) && p.family == q.family && p.socktype == q.socktype
      && p.protocol == q.protocol && p.canonName == q.canonName
  {
    var p1, q1 := NamesKey(p) + [SEP] + IntToString(p.family), NamesKey(q) + [SEP] + IntToString(q.family);
    var p2, q2 := p1 + [SEP] + IntToString(p.socktype), q1 + [SEP] + IntToString(q.socktype);
    var p3, q3 := p2 + [SEP] + IntToString(p.protocol), q2 + [SEP] + IntToString(q.protocol);
    assert MakeKey(p) == p3 + [SEP] + IntToString(p.canonName);
    assert MakeKey(q) == q3 + [SEP] + IntToString(q.canonName);
    if MakeKey(p) == MakeKey(q) {
      NumberTail(p3, p.canonName, q3, q.canonName);
      NumberTail(p2, p.protocol, q2, q.protocol);
      NumberTail(p1, p.socktype, q1, q.socktype);
      NumberTail(NamesKey(p), p.family, NamesKey(q), q.family);
    }
  }

  // With names that do not hold the separator: exactly when they agree on everything but those flags.
  lemma KeyIdentifiesIff(p: Query, q: Query)
    requires p.Clean() && q.Clean()
    ensures MakeKey(p) == MakeKey(q) <==> p.SameBut(q)
  {
    KeysAgreeIff(p, q);
    if MakeKey(p) == MakeKey(q) { KeyPart(p.host, p.service, q.host, q.service); }
  }

  // Whatever a caller is given was resolved for a query with its own key; so, among names without
  // the separator, for its own query but for the other hint flags. From the cache it is a success.
  lemma AnswersAreForTheQuestion(events: seq<Event>, c: nat)
    requires c in Exec(events).callers && Exec(events).callers[c].Served?
    ensures var caller := Exec(events).callers[c];
      && MakeKey(caller.answer.query) == MakeKey(caller.query)
      && (caller.query.Clean() && caller.answer.query.Clean() ==> caller.answer.query.SameBut(caller.query))
      && (caller.source.FromCache? ==> caller.answer.ok)
  {
    InvHolds(events);
    var caller := Exec(events).callers[c];
    assert CallerInv(Exec(events).shared, Exec(events).now, caller);
    if caller.query.Clean() && caller.answer.query.Clean() { KeyIdentifiesIff(caller.answer.query, caller.query); }
  }

  // ----- single flight -----

  ghost predicate Running(s: Shared, i: int) { 0 <= i < |s.lookups| && !s.lookups[i].retired }

  // Two lookups of one key that both have to retire.
  ghost predicate Double(s: Shared) {
    exists i, j :: i < j && Running(s, i) && Running(s, j) && MakeKey(s.lookups[i].query) == MakeKey(s.lookups[j].query)
  }

  // Every lookup that has to retire is the in-flight entry of its key.
  ghost predicate Single(s: Shared) {
    forall i :: Running(s, i) ==>
      MakeKey(s.lookups[i].query) in s.inflight && s.inflight[MakeKey(s.lookups[i].query)] == i
  }

  lemma RunningAfterInsert(s: Shared, q: Query)
    ensures forall i :: Running(Inserted(s, q), i) <==> Running(s, i) || i == |s.lookups|
    ensures forall i :: Running(s, i) ==> Inserted(s, q).lookups[i] == s.lookups[i]
  {
  }

  lemma FreeInsert(s: Shared, q: Query)
    requires Single(s) && MakeKey(q) !in s.inflight
    ensures Single(Inserted(s, q))
  {
    RunningAfterInsert(s, q);
  }

  lemma SingleIsNotDouble(s: Shared)
    requires Single(s)
    ensures !Double(s)
  {
  }

  lemma TakenInsert(s: Shared, q: Query)
    requires InflightInv(s) && MakeKey(q) in s.inflight
    ensures Double(Inserted(s, q))
  {
    var i, n := s.inflight[MakeKey(q)], |s.lookups|;
    RunningAfterInsert(s, q);
    assert Running(s, i) && Running(Inserted(s, q), i) && Running(Inserted(s, q), n);
  }

  // The guard the second critical section does not have.
  lemma InsertDoublesIff(s: Shared, q: Query)
    requires Single(s) && InflightInv(s)
    ensures Single(Inserted(s, q)) <==> MakeKey(q) !in s.inflight
    ensures Double(Inserted(s, q)) <==> MakeKey(q) in s.inflight
  {
    if MakeKey(q) in s.inflight { TakenInsert(s, q); } else { FreeInsert(s, q); }
    if Single(Inserted(s, q)) { SingleIsNotDouble(Inserted(s, q)); }
  }

  lemma OthersKeepSingle(w: World, e: Event)
    requires Single(w.shared) && !e.Insert? && e != Clear
    ensures Single(Apply(w, e).shared)
  {
    var s, s' := w.shared, Apply(w, e).shared;
    assert forall i :: Running(s', i) ==> Running(s, i);
  }

  // The i-th event inserts a lookup for q.
  ghost predicate InsertsAt(events: seq<Event>, i: int, q: Query) {
    && 0 <= i < |events| && events[i].Insert? && events[i].caller in Exec(events[..i]).callers
    && Exec(events[..i]).callers[events[i].caller] == Missed(q)
  }

  ghost predicate EveryInsertFindsItsKeyFree(events: seq<Event>) {
    forall i, q :: InsertsAt(events, i, q) ==> MakeKey(q) !in Exec(events[..i]).shared.inflight
  }

  ghost predicate NeverDouble(events: seq<Event>) {
    forall n :: 0 <= n <= |events| ==> !Double(Exec(events[..n]).shared)
  }

  lemma {:induction false} FreeInsertsKeepSingle(events: seq<Event>, n: nat)
    requires EveryInsertFindsItsKeyFree(events) && Clear !in events && n <= |events|
    ensures Single(Exec(events[..n]).shared)
  {
    if n > 0 {
      FreeInsertsKeepSingle(events, n - 1);
      var w, e := Exec(events[..n - 1]), events[n - 1];
      InvHolds(events[..n - 1]);
      assert events[..n][..n - 1] == events[..n - 1];
      if e.Insert? {
        if e.caller in w.callers && w.callers[e.caller].Missed? {
          assert InsertsAt(events, n - 1, w.callers[e.caller].query);
          InsertDoublesIff(w.shared, w.callers[e.caller].query);
        }
      } else {
        OthersKeepSingle(w, e);
      }
    }
  }

  lemma TakenInsertStep(w: World, events: seq<Event>, e: Event, q: Query)
    requires w == Exec(events) && e.Insert? && e.caller in w.callers && w.callers[e.caller] == Missed(q)
    requires MakeKey(q) in w.shared.inflight
    ensures Double(Apply(w, e).shared)
  {
    InvHolds(events);
    assert Apply(w, e).shared == Inserted(w.shared, q);
    TakenInsert(w.shared, q);
  }

  lemma TakenInsertDoubles(events: seq<Event>, i: nat, q: Query)
    requires InsertsAt(events, i, q) && MakeKey(q) in Exec(events[..i]).shared.inflight
    ensures i < |events| && Double(Exec(events[..i + 1]).shared)
  {
    var front, e := events[..i], events[i];
    ExecMore(front, [], e);
    assert front + [] == front && front + ([] + [e]) == events[..i + 1];
    TakenInsertStep(Exec(front), front, e, q);
  }

  // There is no single flight by construction. Over runs that do not clear the resolver, no key ever
  // has two lookups under way if and only if every insert happens to find its key free.
  lemma SingleFlightIff(events: seq<Event>)
    requires Clear !in events
    ensures NeverDouble(events) <==> EveryInsertFindsItsKeyFree(events)
  {
    if EveryInsertFindsItsKeyFree(events) {
      forall n | 0 <= n <= |events| ensures !Double(Exec(events[..n]).shared) {
        FreeInsertsKeepSingle(events, n);
        SingleIsNotDouble(Exec(events[..n]).shared);
      }
    } else {
      var i, q :| InsertsAt(events, i, q) && MakeKey(q) in Exec(events[..i]).shared.inflight;
      TakenInsertDoubles(events, i, q);
    }
  }

  lemma Extend(events: seq<Event>, w: World, e: Event) returns (more: seq<Event>)
    requires Exec(events) == w
    ensures Exec(more) == Apply(w, e)
  {
    more := events + [e];
    assert more[..|events|] == events;
  }

  // What does not hold. Two callers that check before either inserts both start a lookup of one
  // key, so there is no single flight.
  lemma NoSingleFlight(q: Query) returns (events: seq<Event>)
    ensures Exec(events).shared.lookups == [Lookup(q, None, false), Lookup(q, None, false)]
    ensures Double(Exec(events).shared)
  {
    var key, l := MakeKey(q), Lookup(q, None, false);
    var t := BothMissed(q);
    var w4 := World(START.shared, 0, map[0 := Missed(q), 1 := Missed(q)]);
    t := Extend(t, w4, Insert(0));
    var w5 := World(Shared(map[], map[key := 0], [l]), 0, map[0 := Waiting(q, 0), 1 := Missed(q)]);
    assert Exec(t) == w5;
    events := Extend(t, w5, Insert(1));
    assert Running(Exec(events).shared, 0) && Running(Exec(events).shared, 1);
  }

  lemma BothMissed(q: Query) returns (events: seq<Event>)
    ensures Exec(events) == World(START.shared, 0, map[0 := Missed(q), 1 := Missed(q)])
  {
    var empty := START.shared;
    var t := Extend([], START, Call(0, q, false));
    var w2 := World(empty, 0, map[0 := Called(q, false, 0), 1 := Called(q, false, 0)]);
    t := Extend(t, World(empty, 0, map[0 := Called(q, false, 0)]), Call(1, q, false));
    assert Exec(t) == w2;
    assert Check(empty, q, false, 0) == Miss;
    t := Extend(t, w2, CheckTables(0));
    var w3 := World(empty, 0, map[0 := Missed(q), 1 := Called(q, false, 0)]);
    assert Exec(t) == w3;
    events := Extend(t, w3, CheckTables(1));
  }

  // ----- where answers come from -----

  // A worker said how its lookup ended.
  ghost predicate SaysResult(events: seq<Event>, n: int, id: nat) {
    0 <= n < |events| && events[n].Publish? && events[n].id == id && id < |Exec(events[..n]).shared.lookups|
  }

  // The first time it did, this is what it said.
  ghost predicate FirstResult(events: seq<Event>, n: int, id: nat, ok: bool, data: nat) {
    && SaysResult(events, n, id) && events[n] == Publish(id, ok, data)
    && forall m :: 0 <= m < n ==> !SaysResult(events, m, id)
  }

  ghost predicate NoResultYet(events: seq<Event>, id: nat) { forall n :: !SaysResult(events, n, id) }

  lemma SaidBefore(front: seq<Event>, e: Event, n: int, id: nat)
    ensures SaysResult(front + [e], n, id)
      <==> SaysResult(front, n, id) || (n == |front| && SaysNow(Exec(front), e, id))
  {
    if 0 <= n <= |front| { assert (front + [e])[..n] == front[..n]; }
    assert front[..|front|] == front;
  }

  ghost predicate SaysNow(w: World, e: Event, id: nat) {
    e.Publish? && e.id == id && id < |w.shared.lookups|
  }

  // What one event does to a lookup: only the first result of its own worker is taken.
  lemma LookupMoves(w: World, e: Event, id: nat)
    requires id < |w.shared.lookups|
    ensures id < |Apply(w, e).shared.lookups|
    ensures var l, l' := w.shared.lookups[id], Apply(w, e).shared.lookups[id];
      && l'.query == l.query
      && l'.result == if SaysNow(w, e, id) && l.result.None? then Some(Answer(l.query, e.ok, e.data)) else l.result
  {
  }

  lemma NewLookup(w: World, e: Event, id: nat)
    requires |w.shared.lookups| <= id < |Apply(w, e).shared.lookups|
    ensures Apply(w, e).shared.lookups[id].result.None? && !SaysNow(w, e, id)
  {
  }

  lemma {:induction false} NoneBeforeItsTime(events: seq<Event>, id: nat)
    requires |Exec(events).shared.lookups| <= id
    ensures NoResultYet(events, id)
  {
    if events != [] {
      var front, e := events[..|events| - 1], events[|events| - 1];
      assert events == front + [e];
      if id < |Exec(front).shared.lookups| { LookupMoves(Exec(front), e, id); }
      NoneBeforeItsTime(front, id);
      forall n ensures !SaysResult(events, n, id) { SaidBefore(front, e, n, id); }
    }
  }

  // A lookup has a result once its worker has said so, and it is what the worker said first.
  ghost predicate ResultIsFirst(events: seq<Event>, id: nat)
    requires id < |Exec(events).shared.lookups|
  {
    var l := Exec(events).shared.lookups[id];
    if l.result.None? then NoResultYet(events, id)
    else exists n :: FirstResult(events, n, id, l.result.value.ok, l.result.value.data)
  }

  lemma {:induction false} ResultsAreFirst(events: seq<Event>, id: nat)
    requires id < |Exec(events).shared.lookups|
    ensures ResultIsFirst(events, id)
  {
    var front, e := events[..|events| - 1], events[|events| - 1];
    var w := Exec(front);
    assert events == front + [e];
    forall n ensures SaysResult(events, n, id) <==> SaysResult(front, n, id) || (n == |front| && SaysNow(w, e, id)) {
      SaidBefore(front, e, n, id);
    }
    if id < |w.shared.lookups| {
      ResultsAreFirst(front, id);
      LookupMoves(w, e, id);
      var l := w.shared.lookups[id];
      if l.result.Some? {
        var n :| FirstResult(front, n, id, l.result.value.ok, l.result.value.data);
        assert FirstResult(events, n, id, l.result.value.ok, l.result.value.data);
      } else if SaysNow(w, e, id) {
        assert FirstResult(events, |front|, id, e.ok, e.data);
      }
    } else {
      NewLookup(w, e, id);
      NoneBeforeItsTime(front, id);
    }
  }

  ghost predicate IsResult(s: Shared, a: Answer) {
    exists id :: 0 <= id < |s.lookups| && s.lookups[id].result == Some(a)
  }

  // Whatever is cached or was served is the result of a lookup.
  ghost predicate FromLookups(w: World) {
    && (forall k :: k in w.shared.cache ==> IsResult(w.shared, w.shared.cache[k].answer))
    && forall c :: c in w.callers && w.callers[c].Served? ==> IsResult(w.shared, w.callers[c].answer)
  }

  lemma ResultsStay(w: World, e: Event, a: Answer)
    requires IsResult(w.shared, a)
    ensures IsResult(Apply(w, e).shared, a)
  {
    var id: int :| 0 <= id < |w.shared.lookups| && w.shared.lookups[id].result == Some(a);
    LookupMoves(w, e, id);
    assert Apply(w, e).shared.lookups[id].result == Some(a);
  }

  lemma CacheMoves(w: World, e: Event, k: string)
    requires k in Apply(w, e).shared.cache
    ensures (k in w.shared.cache && Apply(w, e).shared.cache[k] == w.shared.cache[k])
      || IsResult(w.shared, Apply(w, e).shared.cache[k].answer)
  {
  }

  lemma ServedMoves(w: World, e: Event, c: nat)
    requires FromLookups(w) && c in Apply(w, e).callers && Apply(w, e).callers[c].Served?
    ensures IsResult(w.shared, Apply(w, e).callers[c].answer)
  {
  }

  lemma {:induction false} FromLookupsHolds(events: seq<Event>)
    ensures FromLookups(Exec(events))
  {
    if events != [] {
      var w, e := Exec(events[..|events| - 1]), events[|events| - 1];
      FromLookupsHolds(events[..|events| - 1]);
      forall k | k in Apply(w, e).shared.cache
        ensures IsResult(Apply(w, e).shared, Apply(w, e).shared.cache[k].answer)
      {
        CacheMoves(w, e, k);
        ResultsStay(w, e, Apply(w, e).shared.cache[k].answer);
      }
      forall c | c in Apply(w, e).callers && Apply(w, e).callers[c].Served?
        ensures IsResult(Apply(w, e).shared, Apply(w, e).callers[c].answer)
      {
        ServedMoves(w, e, c);
        ResultsStay(w, e, Apply(w, e).callers[c].answer);
      }
    }
  }

  // An answer comes from a lookup of this key, and is what its worker said first.
  ghost predicate Said(events: seq<Event>, n: int, id: nat, key: string, a: Answer) {
    && FirstResult(events, n, id, a.ok, a.data)
    && id < |Exec(events).shared.lookups| && MakeKey(Exec(events).shared.lookups[id].query) == key
  }

  lemma ResultWasSaid(events: seq<Event>, a: Answer) returns (n: int, id: nat)
    requires IsResult(Exec(events).shared, a)
    ensures Said(events, n, id, MakeKey(a.query), a)
  {
    InvHolds(events);
    var s := Exec(events).shared;
    id :| 0 <= id < |s.lookups| && s.lookups[id].result == Some(a);
    ResultsAreFirst(events, id);
    n :| FirstResult(events, n, id, a.ok, a.data);
  }

  // Every answer a caller was served is what the worker of a lookup of the caller's key said first:
  // its success or failure, and its data. One from the cache was a success.
  lemma ServedWasSaid(events: seq<Event>, c: nat) returns (n: int, id: nat)
    requires c in Exec(events).callers && Exec(events).callers[c].Served?
    ensures var caller := Exec(events).callers[c];
      Said(events, n, id, MakeKey(caller.query), caller.answer)
      && (caller.source.FromCache? ==> events[n] == Publish(id, true, caller.answer.data))
  {
    InvHolds(events);
    FromLookupsHolds(events);
    assert CallerInv(Exec(events).shared, Exec(events).now, Exec(events).callers[c]);
    n, id := ResultWasSaid(events, Exec(events).callers[c].answer);
  }

  // What is cached was said to be a success.
  lemma CachedWasSaid(events: seq<Event>, key: string) returns (n: int, id: nat)
    requires key in Exec(events).shared.cache
    ensures Said(events, n, id, key, Exec(events).shared.cache[key].answer)
    ensures events[n] == Publish(id, true, Exec(events).shared.cache[key].answer.data)
  {
    InvHolds(events);
    FromLookupsHolds(events);
    n, id := ResultWasSaid(events, Exec(events).shared.cache[key].answer);
  }

  lemma FirstResultStands(events: seq<Event>, n: int, id: nat, ok: bool, data: nat)
    requires FirstResult(events, n, id, ok, data) && id < |Exec(events).shared.lookups|
    ensures var l := Exec(events).shared.lookups[id]; l.result == Some(Answer(l.query, ok, data))
  {
    ResultsAreFirst(events, id);
    assert SaysResult(events, n, id);
    var a := Exec(events).shared.lookups[id].result.value;
    var m :| FirstResult(events, m, id, a.ok, a.data);
    assert SaysResult(events, m, id) && m == n;
    InvHolds(events);
  }

  // Retiring the lookup leaves the cache as it is, or, after a success whose key is not cached or has
  // expired, adds the answer for a minute.
  ghost predicate RetireCaches(w: World, id: nat, ok: bool, data: nat)
    requires id < |w.shared.lookups|
  {
    var q, cache := w.shared.lookups[id].query, w.shared.cache;
    Apply(w, Retire(id)).shared.cache ==
      if ok && (MakeKey(q) in cache ==> cache[MakeKey(q)].expiry <= w.now)
      then cache[MakeKey(q) := Entry(Answer(q, true, data), w.now + 60000)] else cache
  }

  lemma ResultIsCached(w: World, id: nat, ok: bool, data: nat)
    requires id < |w.shared.lookups| && !w.shared.lookups[id].retired
    requires w.shared.lookups[id].result == Some(Answer(w.shared.lookups[id].query, ok, data))
    ensures RetireCaches(w, id, ok, data)
  {
  }

  // The end of a worker: what it said first decides what is cached.
  lemma WorkerCaches(events: seq<Event>, n: int, id: nat, ok: bool, data: nat)
    requires FirstResult(events, n, id, ok, data)
    requires id < |Exec(events).shared.lookups| && !Exec(events).shared.lookups[id].retired
    ensures RetireCaches(Exec(events), id, ok, data)
  {
    FirstResultStands(events, n, id, ok, data);
    ResultIsCached(Exec(events), id, ok, data);
  }

  // ----- how late a hit can be -----

  // A caller was given a cached answer, this long after it had read the clock.
  ghost predicate HitAfter(events: seq<Event>, c: nat, delay: nat) {
    && c in Exec(events).callers && Exec(events).callers[c].Served?
    && var source := Exec(events).callers[c].source;
       source.FromCache? && source.checkedAt == source.calledAt + delay
  }

  ghost function HitOf(events: seq<Event>, c: nat, delay: nat): Source
    requires HitAfter(events, c, delay)
    ensures HitOf(events, c, delay).FromCache?
  {
    Exec(events).callers[c].source
  }

  // In every run a hit is past its expiry by less than the time its caller spent on the way.
  lemma StalenessIsBounded(events: seq<Event>, c: nat, delay: nat)
    requires HitAfter(events, c, delay)
    ensures var source := HitOf(events, c, delay);
      source.checkedAt - source.expiry < delay && source.expiry - source.checkedAt <= TTL_MS
  {
    InvHolds(events);
    assert CallerInv(Exec(events).shared, Exec(events).now, Exec(events).callers[c]);
  }

  // And any delay can make it that late: the bound is exact.
  lemma StaleHitIsReachable(q: Query, data: nat, delay: nat) returns (events: seq<Event>)
    ensures HitAfter(events, 0, delay)
    ensures var source := HitOf(events, 0, delay); source.checkedAt - source.expiry == delay - 1
  {
    var a := Answer(q, true, data);
    var s := Shared(map[MakeKey(q) := Entry(a, TTL_MS)], map[], [Lookup(q, Some(a), true)]);
    var w := World(s, 0, map[1 := Waiting(q, 0)]);
    var t := CachedAtZero(q, data);
    t := Extend(t, w, Pass(TTL_MS - 1));
    t := Extend(t, w.(now := TTL_MS - 1), Call(0, q, false));
    var w' := World(s, TTL_MS - 1, map[1 := Waiting(q, 0), 0 := Called(q, false, TTL_MS - 1)]);
    assert Exec(t) == w';
    t := Extend(t, w', Pass(delay));
    assert Check(s, q, false, TTL_MS - 1) == Hit(Entry(a, TTL_MS));
    events := Extend(t, w'.(now := TTL_MS - 1 + delay), CheckTables(0));
  }

  ghost predicate AlwaysFresh(delay: nat) {
    forall events, c | HitAfter(events, c, delay) :: HitOf(events, c, delay).checkedAt < HitOf(events, c, delay).expiry
  }

  // So hits are sure to be unexpired exactly when the table is looked at the very moment the clock
  // is read.
  lemma HitsAreFreshIff(delay: nat)
    ensures AlwaysFresh(delay) <==> delay == 0
  {
    if delay == 0 {
      forall events, c | HitAfter(events, c, delay)
        ensures HitOf(events, c, delay).checkedAt < HitOf(events, c, delay).expiry
      {
        StalenessIsBounded(events, c, delay);
      }
    } else {
      var events := StaleHitIsReachable(Query("", "", 0, 0, 0, 0, 0), 0, delay);
      assert HitAfter(events, 0, delay);
    }
  }

  lemma CachedAtZero(q: Query, data: nat) returns (events: seq<Event>)
    ensures var a := Answer(q, true, data);
      Exec(events) == World(Shared(map[MakeKey(q) := Entry(a, TTL_MS)], map[], [Lookup(q, Some(a), true)]),
                            0, map[1 := Waiting(q, 0)])
  {
    var key, a := MakeKey(q), Answer(q, true, data);
    var s2 := Shared(map[], map[key := 0], [Lookup(q, Some(a), false)]);
    var t := FirstLookup(q);
    var w := World(Shared(map[], map[key := 0], [Lookup(q, None, false)]), 0, map[1 := Waiting(q, 0)]);
    t := Extend(t, w, Publish(0, true, data));
    assert Exec(t) == w.(shared := s2);
    events := Extend(t, w.(shared := s2), Retire(0));
    RetireFirst(q, a);
  }

  lemma FirstLookup(q: Query) returns (events: seq<Event>)
    ensures Exec(events)
         == World(Shared(map[], map[MakeKey(q) := 0], [Lookup(q, None, false)]), 0, map[1 := Waiting(q, 0)])
  {
    var empty := START.shared;
    var t := Extend([], START, Call(1, q, false));
    assert Check(empty, q, false, 0) == Miss;
    t := Extend(t, World(empty, 0, map[1 := Called(q, false, 0)]), CheckTables(1));
    events := Extend(t, World(empty, 0, map[1 := Missed(q)]), Insert(1));
  }

  lemma RetireFirst(q: Query, a: Answer)
    requires a.ok && a.query == q
    ensures Retired(Shared(map[], map[MakeKey(q) := 0], [Lookup(q, Some(a), false)]), 0, 0)
         == Shared(map[MakeKey(q) := Entry(a, TTL_MS)], map[], [Lookup(q, Some(a), true)])
  {
    assert map[MakeKey(q) := 0 as nat] - {MakeKey(q)} == map[];
  }

  /** The resolver object: one method for each critical section. The history holds what happened to
      it, and to the clock and the callers, so far. */
  class Resolver {
    var cache: map<string, Entry>
    var inflight: map<string, nat>
    var lookups: seq<Lookup>
    ghost var history: seq<Event>

    ghost function Contents(): Shared
      reads this
    {
      Shared(cache, inflight, lookups)
    }

    // The tables are those of a run, so the theorems above speak of them.
    ghost predicate Valid()
      reads this
    {
      Contents() == Exec(history).shared
    }

    // A caller of the run has got as far as this.
    ghost predicate IsAt(c: nat, caller: Caller)
      reads this
    {
      c in Exec(history).callers && Exec(history).callers[c] == caller
    }

    constructor ()
      ensures Valid() && history == []
    {
      cache, inflight, lookups, history := map[], map[], [], [];
    }

    ghost method Record(e: Event)
      requires Contents() == Apply(Exec(history), e).shared
      modifies this`history
      ensures Valid() && history == old(history) + [e]
    {
      history := history + [e];
      assert history[..|history| - 1] == old(history);
    }

    // The clock and the callers move outside the critical sections.
    ghost method Outside(e: Event)
      requires Valid() && (e.Pass? || e.Call? || e.Collect? || e.GiveUp?)
      modifies this`history
      ensures Valid() && history == old(history) + [e]
    {
      Record(e);
    }

    method CheckTables(ghost c: nat, q: Query, bypass: bool, calledAt: int) returns (r: Checked)
      requires Valid() && IsAt(c, Called(q, bypass, calledAt))
      modifies this`history
      ensures Valid() && history == old(history) + [Event.CheckTables(c)]
      ensures r == Check(old(Contents()), q, bypass, calledAt) && Contents() == old(Contents())
      ensures r.Hit? <==> !bypass && MakeKey(q) in cache && calledAt < cache[MakeKey(q)].expiry
      ensures r.Hit? ==> r.entry == cache[MakeKey(q)]
      ensures r.Join? <==> !bypass && !r.Hit? && MakeKey(q) in inflight
      ensures r.Join? ==> r.id == inflight[MakeKey(q)]
    {
      Record(Event.CheckTables(c));
      var key := MakeKey(q);
      if !bypass {
        if key in cache && cache[key].expiry > calledAt { return Hit(cache[key]); }
        if key in inflight { return Join(inflight[key]); }
      }
      return Miss;
    }

    method Insert(ghost c: nat, q: Query) returns (id: nat)
      requires Valid() && IsAt(c, Missed(q))
      modifies this
      ensures Valid() && history == old(history) + [Event.Insert(c)]
      ensures Contents() == Inserted(old(Contents()), q) && id == |old(lookups)| && cache == old(cache)
      ensures lookups == old(lookups) + [Lookup(q, None, false)] && inflight == old(inflight)[MakeKey(q) := id]
    {
      id := |lookups|;
      lookups := lookups + [Lookup(q, None, false)];
      inflight := inflight[MakeKey(q) := id];
      Record(Event.Insert(c));
    }

    method Publish(id: nat, ok: bool, data: nat)
      requires Valid() && id < |lookups| && lookups[id].result.None?
      modifies this
      ensures Valid() && history == old(history) + [Event.Publish(id, ok, data)]
      ensures Contents() == Published(old(Contents()), id, ok, data) && cache == old(cache) && inflight == old(inflight)
      ensures var l := old(lookups)[id];
        lookups == old(lookups)[id := Lookup(l.query, Some(Answer(l.query, ok, data)), l.retired)]
    {
      lookups := lookups[id := lookups[id].(result := Some(Answer(lookups[id].query, ok, data)))];
      Record(Event.Publish(id, ok, data));
    }

    method Retire(id: nat, now: int)
      requires Valid() && id < |lookups| && lookups[id].result.Some? && !lookups[id].retired
      requires now == Exec(history).now
      modifies this
      ensures Valid() && history == old(history) + [Event.Retire(id)]
      ensures Contents() == Retired(old(Contents()), id, now)
      ensures var l := old(lookups)[id]; var key, a := MakeKey(l.query), l.result.value;
        && lookups == old(lookups)[id := Lookup(l.query, Some(a), true)]
        && inflight == (if key in old(inflight) && old(inflight)[key] == id
                        then old(inflight) - {key} else old(inflight))
        && cache == if a.ok && (key in old(cache) ==> old(cache)[key].expiry <= now)
           then old(cache)[key := Entry(a, now + 60000)] else old(cache)
    {
      LeaveTables(id, now);
      Record(Event.Retire(id));
    }

    method LeaveTables(id: nat, now: int)
      requires id < |lookups| && lookups[id].result.Some?
      modifies `cache, `inflight, `lookups
      ensures var l := old(lookups)[id]; var key, a := MakeKey(l.query), l.result.value;
        && lookups == old(lookups)[id := Lookup(l.query, Some(a), true)]
        && inflight == (if key in old(inflight) && old(inflight)[key] == id
                        then old(inflight) - {key} else old(inflight))
        && cache == if a.ok && (key in old(cache) ==> old(cache)[key].expiry <= now)
           then old(cache)[key := Entry(a, now + 60000)] else old(cache)
    {
      var l := lookups[id];
      var key := MakeKey(l.query);
      if key in inflight && inflight[key] == id {
        inflight := inflight - {key};
      }
      if l.result.value.ok {
        if key !in cache || cache[key].expiry <= now {
          cache := cache[key := Entry(l.result.value, now + TTL_MS)];
        }
      }
      lookups := lookups[id := l.(retired := true)];
    }

    method ClearTables()
      requires Valid()
      modifies this
      ensures Valid() && history == old(history) + [Clear]
      ensures cache == map[] && inflight == map[] && lookups == old(lookups)
    {
      cache, inflight := map[], map[];
      Record(Clear);
    }
  }
}
