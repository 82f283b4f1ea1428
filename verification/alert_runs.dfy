/** What holds of the alert engine over every run of evaluations, acknowledgements and rule edits. */
module AlertRuns {
  import opened Arithmetic
  import opened Common
  import opened AlertRules
  import opened AlertKeys
  import opened AlertEngine

  // ----- the shape of the trace -----

  // The last firing or resolved record of a key.
  ghost function LastRecord(trace: seq<Entry>, key: string): Option<Entry> {
    if trace == [] then None
    else
      var last := trace[|trace| - 1];
      if last.key == key && !last.Acked? then Some(last) else LastRecord(trace[..|trace| - 1], key)
  }

  // Whether the key's current episode has been acknowledged.
  ghost predicate AckedInEpisode(trace: seq<Entry>, key: string) {
    if trace == [] then false
    else
      var last := trace[|trace| - 1];
      if last.key != key || (last.Fired? && !last.opening) then AckedInEpisode(trace[..|trace| - 1], key)
      else last.Acked?
  }

  // Times of the firing records of the key's current episode, oldest first.
  ghost function EpisodeTimes(trace: seq<Entry>, key: string): seq<int> {
    if trace == [] then []
    else
      var last, front := trace[|trace| - 1], trace[..|trace| - 1];
      if last.key != key || last.Acked? then EpisodeTimes(front, key)
      else if last.Resolved? then []
      else if last.opening then [last.rec.timeMs]
      else EpisodeTimes(front, key) + [last.rec.timeMs]
  }

  ghost predicate LastFired(trace: seq<Entry>, key: string) {
    LastRecord(trace, key).Some? && LastRecord(trace, key).value.Fired?
  }

  ghost predicate EntryOk(before: seq<Entry>, e: Entry) {
    match e
    case Fired(key, rec, opening, repeatMs) =>
      !opening ==> LastFired(before, key) && rec.timeMs - LastRecord(before, key).value.rec.timeMs >= repeatMs
    case Resolved(key, rec) => LastFired(before, key)
    case Acked(key) => LastFired(before, key) && !AckedInEpisode(before, key)
  }

  ghost predicate WellFormed(trace: seq<Entry>) {
    forall i :: 0 <= i < |trace| ==> EntryOkAt(trace, i)
  }

  ghost predicate EntryOkAt(trace: seq<Entry>, i: int)
    requires 0 <= i < |trace|
  {
    EntryOk(trace[..i], trace[i])
  }

  // The states agree with the trace they came from.
  ghost predicate StatesOk(e: Engine) {
    forall key :: key in e.states ==> StateOk(e, key)
  }

  ghost predicate StateOk(e: Engine, key: string)
    requires key in e.states
  {
    var st := e.states[key];
    && (st.firing ==> LastFired(e.trace, key) && LastRecord(e.trace, key).value.rec.timeMs == st.lastNotifiedMs)
    && (st.firing ==> LastRecord(e.trace, key).value.rec.value == st.lastValue)
    && (st.firing ==> EpisodeTimes(e.trace, key) != [] && EpisodeTimes(e.trace, key)[0] == st.firstFiredMs)
    && (st.firing ==> (st.acknowledged <==> AckedInEpisode(e.trace, key)))
    && (st.acknowledged ==> st.firing)
  }

  // Every state belongs to a rule of the current rule set.
  ghost predicate StatesOwned(e: Engine) {
    forall key :: key in e.states ==> exists r :: r in e.rules && HasPrefix(key, r.id + [SEP])
  }

  ghost predicate Inv(e: Engine) { WellFormed(e.trace) && StatesOk(e) && StatesOwned(e) }

  // What one more entry makes of an episode.
  ghost function EpisodeGoesOn(times: seq<int>, x: Entry, key: string): seq<int> {
    if x.key != key || x.Acked? then times
    else if x.Resolved? then []
    else if x.opening then [x.rec.timeMs]
    else times + [x.rec.timeMs]
  }

  lemma AppendEntry(trace: seq<Entry>, x: Entry)
    requires WellFormed(trace) && EntryOk(trace, x)
    ensures WellFormed(trace + [x])
    ensures forall key :: LastRecord(trace + [x], key)
                       == (if x.key == key && !x.Acked? then Some(x) else LastRecord(trace, key))
    ensures forall key :: AckedInEpisode(trace + [x], key)
                       == (if x.key != key || (x.Fired? && !x.opening) then AckedInEpisode(trace, key) else x.Acked?)
    ensures forall key :: EpisodeTimes(trace + [x], key) == EpisodeGoesOn(EpisodeTimes(trace, key), x, key)
  {
    assert (trace + [x])[..|trace|] == trace;
    forall i | 0 <= i < |trace + [x]| ensures EntryOkAt(trace + [x], i) {
      if i < |trace| { assert EntryOkAt(trace, i) && (trace + [x])[..i] == trace[..i]; }
    }
  }

  ghost predicate AckOf(e: Engine, key: string, st: FiringState) {
    key in e.states && e.states[key].firing && st == e.states[key].(acknowledged := true)
  }

  // Logging an entry for a key and giving the key the state the entry calls for.
  lemma LogKeeps(e: Engine, key: string, st: FiringState, x: Entry)
    requires Inv(e) && x.key == key && EntryOk(e.trace, x)
    requires exists r :: r in e.rules && HasPrefix(key, r.id + [SEP])
    requires match x
      case Fired(_, rec, opening, _) => st.firing && st.lastNotifiedMs == rec.timeMs && st.lastValue == rec.value
        && (if opening then st.firstFiredMs == rec.timeMs
            else EpisodeTimes(e.trace, key) != [] && EpisodeTimes(e.trace, key)[0] == st.firstFiredMs)
        && (st.acknowledged <==> !opening && AckedInEpisode(e.trace, key))
      case Resolved(_, _) => !st.firing && !st.acknowledged
      case Acked(_) => AckOf(e, key, st)
    ensures Inv(e.(states := e.states[key := st], trace := e.trace + [x]))
  {
    AppendEntry(e.trace, x);
    var e' := e.(states := e.states[key := st], trace := e.trace + [x]);
    forall k | k in e'.states ensures StateOk(e', k) {
      if k != key { assert StateOk(e, k); }
    }
  }

  // Touching a key without changing its state only makes the key present.
  lemma TouchKeeps(e: Engine, key: string)
    requires Inv(e) && exists r :: r in e.rules && HasPrefix(key, r.id + [SEP])
    ensures Inv(e.(states := e.states[key := StateOf(e, key)]))
  {
    var e' := e.(states := e.states[key := StateOf(e, key)]);
    forall k | k in e'.states ensures StateOk(e', k) {
      if k in e.states { assert StateOk(e, k); }
    }
  }

  lemma EvalRuleKeeps(e: Engine, p: Probe, r: Rule)
    requires Inv(e) && r in e.rules
    ensures Inv(EvalRule(e, p, r)) && EvalRule(e, p, r).rules == e.rules
    ensures e.trace <= EvalRule(e, p, r).trace
  {
    var e' := EvalRule(e, p, r);
    var key := StateKey(r.id, p.agent, p.metric.target);
    assert HasPrefix(key, r.id + [SEP]);
    assert key in e.states ==> StateOk(e, key);
    if e'.trace != e.trace {
      var x := e'.trace[|e.trace|];
      assert e'.trace == e.trace + [x];
      LogKeeps(e, key, e'.states[key], x);
    } else if Matches(r, p.agent, p.metric) {
      TouchKeeps(e, key);
    }
  }

  lemma {:induction false} EvalRulesKeep(e: Engine, p: Probe, n: nat)
    requires Inv(e) && n <= |e.rules|
    ensures Inv(EvalRules(e, p, n)) && e.trace <= EvalRules(e, p, n).trace
  {
    if n > 0 {
      EvalRulesKeep(e, p, n - 1);
      EvalRuleKeeps(EvalRules(e, p, n - 1), p, e.rules[n - 1]);
    }
  }

  lemma {:induction false} EvalProbesKeep(e: Engine, probes: seq<Probe>)
    requires Inv(e)
    ensures Inv(EvalProbes(e, probes)) && e.trace <= EvalProbes(e, probes).trace
  {
    if probes != [] {
      EvalProbesKeep(e, probes[..|probes| - 1]);
      var before := EvalProbes(e, probes[..|probes| - 1]);
      EvalRulesKeep(before, probes[|probes| - 1], |before.rules|);
    }
  }

  // ----- rule edits -----

  lemma {:induction false} UpsertedIds(rules: seq<Rule>, r: Rule)
    ensures forall q :: q in rules ==> exists q' :: q' in Upserted(rules, r) && q'.id == q.id
  {
    if rules != [] {
      var up := Upserted(rules, r);
      assert up[0] in up && up[0].id == rules[0].id;
      UpsertedIds(rules[1..], r);
      forall q | q in rules ensures exists q' :: q' in up && q'.id == q.id {
        if q != rules[0] {
          assert q in rules[1..];
          if rules[0].id == r.id {
            assert q in up;
          } else {
            var q' :| q' in Upserted(rules[1..], r) && q'.id == q.id;
            assert q' in up;
          }
        }
      }
    }
  }

  lemma {:induction false} WithoutIs(rules: seq<Rule>, id: string)
    ensures forall q :: q in Without(rules, id) <==> q in rules && q.id != id
  {
    if rules != [] { WithoutIs(rules[1..], id); }
  }

  lemma {:induction false} FindRuleIs(rules: seq<Rule>, id: string)
    ensures FindRule(rules, id).Some? <==> exists r :: r in rules && r.id == id
    ensures FindRule(rules, id).Some? ==> FindRule(rules, id).value in rules && FindRule(rules, id).value.id == id
  {
    if rules != [] {
      FindRuleIs(rules[1..], id);
      if r :| r in rules && r.id == id {
        assert r == rules[0] || r in rules[1..];
      }
    }
  }

  lemma DeleteKeeps(e: Engine, id: string)
    requires Inv(e)
    ensures Inv(DeleteById(e, id))
  {
    var e' := DeleteById(e, id);
    WithoutIs(e.rules, id);
    forall key | key in e'.states
      ensures StateOk(e', key) && exists r :: r in e'.rules && HasPrefix(key, r.id + [SEP])
    {
      assert StateOk(e, key);
      var r :| r in e.rules && HasPrefix(key, r.id + [SEP]);
      assert r in e'.rules;
    }
  }

  lemma ApplyKeeps(e: Engine, op: Op)
    requires Inv(e)
    ensures Inv(Apply(e, op)) && e.trace <= Apply(e, op).trace
  {
    match op
    case Evaluate(agent, metrics, now) => EvalProbesKeep(e, ProbesOf(agent, metrics, now));
    case Ack(ruleId, agent, target) =>
      var key := StateKey(ruleId, agent, target);
      if CanAck(e, key) {
        assert StateOk(e, key);
        LogKeeps(e, key, e.states[key].(acknowledged := true), Acked(key));
      }
    case Upsert(rule, persisted) =>
      if persisted {
        UpsertedIds(e.rules, rule);
        var e' := Apply(e, op);
        forall key | key in e'.states
          ensures StateOk(e', key) && exists r :: r in e'.rules && HasPrefix(key, r.id + [SEP])
        {
          assert StateOk(e, key);
          var r :| r in e.rules && HasPrefix(key, r.id + [SEP]);
          var r' :| r' in e'.rules && r'.id == r.id;
        }
      }
    case Delete(ruleId, persisted) => DeleteKeeps(e, ruleId);
    case Load(rules) =>
  }

  lemma {:induction false} InvHolds(ops: seq<Op>)
    ensures Inv(Exec(ops))
  {
    if ops != [] {
      InvHolds(ops[..|ops| - 1]);
      ApplyKeeps(Exec(ops[..|ops| - 1]), ops[|ops| - 1]);
    }
  }

  // ----- the theorems about whole runs -----

  lemma {:induction false} LastRecordAt(trace: seq<Entry>, key: string) returns (j: nat)
    requires LastRecord(trace, key).Some?
    ensures j < |trace| && LastRecord(trace, key) == Some(trace[j]) && trace[j].key == key && !trace[j].Acked?
    ensures forall k :: j < k < |trace| && trace[k].key == key ==> trace[k].Acked?
  {
    var last := trace[|trace| - 1];
    if last.key == key && !last.Acked? { j := |trace| - 1; }
    else { j := LastRecordAt(trace[..|trace| - 1], key); }
  }

  // In every run each "resolved" record is preceded, among its key's records, immediately by a
  // "firing" one.
  lemma ResolvedFollowsFiring(ops: seq<Op>, i: nat)
    requires i < |Exec(ops).trace| && Exec(ops).trace[i].Resolved?
    ensures var t := Exec(ops).trace;
      exists j :: 0 <= j < i && t[j].Fired? && t[j].key == t[i].key
               && forall k :: j < k < i && t[k].key == t[i].key ==> t[k].Acked?
  {
    InvHolds(ops);
    var t := Exec(ops).trace;
    assert EntryOkAt(t, i);
    var j := LastRecordAt(t[..i], t[i].key);
    assert t[j].Fired? && forall k :: j < k < i && t[k].key == t[i].key ==> t[..i][k].Acked?;
  }

  // A repeat notification follows its predecessor in the same episode by at least the repeat
  // interval of the rule as it then stood; clocks and rule edits are arbitrary.
  lemma RepeatsAreSpaced(ops: seq<Op>, i: nat)
    requires i < |Exec(ops).trace| && Exec(ops).trace[i].Fired? && !Exec(ops).trace[i].opening
    ensures var t := Exec(ops).trace;
      exists j :: 0 <= j < i && t[j].Fired? && t[j].key == t[i].key
               && t[i].rec.timeMs - t[j].rec.timeMs >= t[i].repeatMs
               && forall k :: j < k < i && t[k].key == t[i].key ==> t[k].Acked?
  {
    InvHolds(ops);
    var t := Exec(ops).trace;
    assert EntryOkAt(t, i);
    var j := LastRecordAt(t[..i], t[i].key);
    assert t[j].Fired? && forall k :: j < k < i && t[k].key == t[i].key ==> t[..i][k].Acked?;
  }

  // Between two successful acknowledgements of one key a new episode opened: no episode is
  // acknowledged twice.
  lemma OneAckPerEpisode(ops: seq<Op>, i: nat, j: nat)
    requires i < j < |Exec(ops).trace| && Exec(ops).trace[i].Acked? && Exec(ops).trace[j] == Exec(ops).trace[i]
    ensures var t := Exec(ops).trace;
      exists k :: i < k < j && t[k].key == t[i].key && t[k].Fired? && t[k].opening
  {
    InvHolds(ops);
    var t := Exec(ops).trace;
    var key := t[i].key;
    assert EntryOkAt(t, j);
    if forall k :: i < k < j && t[k].key == key ==> !(t[k].Fired? && t[k].opening) {
      NoOpeningNoFreshAck(t, key, i, j);
      assert false;
    }
  }

  // Without an opening, an acknowledged episode can only go on or end.
  lemma {:induction false} NoOpeningNoFreshAck(t: seq<Entry>, key: string, i: nat, j: nat)
    requires WellFormed(t) && i < j <= |t| && t[i] == Acked(key)
    requires forall k :: i < k < j && t[k].key == key ==> !(t[k].Fired? && t[k].opening)
    ensures AckedOrOver(t[..j], key)
  {
    if i + 1 < j { NoOpeningNoFreshAck(t, key, i, j - 1); }
    AckedStays(t, j - 1, key);
  }

  ghost predicate AckedOrOver(t: seq<Entry>, key: string) {
    AckedInEpisode(t, key) || (LastRecord(t, key).Some? && LastRecord(t, key).value.Resolved?)
  }

  lemma AckedStays(t: seq<Entry>, j: nat, key: string)
    requires WellFormed(t) && j < |t| && (t[j].key == key ==> !(t[j].Fired? && t[j].opening))
    requires t[j] == Acked(key) || AckedOrOver(t[..j], key)
    ensures AckedOrOver(t[..j + 1], key)
  {
    PrefixWellFormed(t, j);
    assert EntryOkAt(t, j) && t[..j + 1] == t[..j] + [t[j]];
    AppendEntry(t[..j], t[j]);
  }

  lemma PrefixWellFormed(trace: seq<Entry>, n: nat)
    requires WellFormed(trace) && n <= |trace|
    ensures WellFormed(trace[..n])
  {
    forall i | 0 <= i < n ensures EntryOkAt(trace[..n], i) {
      assert EntryOkAt(trace, i) && trace[..n][..i] == trace[..i];
    }
  }

  // The record that opened the key's current episode.
  ghost predicate OpenedAt(t: seq<Entry>, key: string, i: int) {
    && 0 <= i < |t| && t[i].Fired? && t[i].opening && t[i].key == key
    && forall k :: i < k < |t| && t[k].key == key ==> t[k].Acked? || (t[k].Fired? && !t[k].opening)
  }

  ghost predicate AckedSince(t: seq<Entry>, key: string, i: int) {
    exists k :: i < k < |t| && 0 <= k && t[k] == Acked(key)
  }

  lemma OpeningStays(front: seq<Entry>, x: Entry, key: string, i: int)
    requires OpenedAt(front, key, i) && (x.key == key ==> x.Acked? || (x.Fired? && !x.opening))
    ensures OpenedAt(front + [x], key, i) && (front + [x])[i] == front[i]
    ensures AckedSince(front + [x], key, i) <==> AckedSince(front, key, i) || x == Acked(key)
  {
    var t := front + [x];
    assert t[|front|] == x;
    if k :| i < k < |front| && 0 <= k && front[k] == Acked(key) { assert t[k] == Acked(key); }
  }

  lemma {:induction false} OpeningOf(t: seq<Entry>, key: string) returns (i: nat)
    requires WellFormed(t) && LastFired(t, key)
    ensures OpenedAt(t, key, i) && EpisodeTimes(t, key) != [] && EpisodeTimes(t, key)[0] == t[i].rec.timeMs
    ensures AckedInEpisode(t, key) <==> AckedSince(t, key, i)
  {
    var front, last := t[..|t| - 1], t[|t| - 1];
    PrefixWellFormed(t, |t| - 1);
    assert EntryOkAt(t, |t| - 1) && t == front + [last];
    AppendEntry(front, last);
    if last.key == key && last.Fired? && last.opening {
      i := |t| - 1;
    } else {
      i := OpeningOf(front, key);
      OpeningStays(front, last, key, i);
    }
  }

  // What a firing state remembers: the value of the key's last record, which is a firing one, the time
  // of the record that opened its episode, and whether it was acknowledged since.
  lemma FiringStateReadsTheLog(ops: seq<Op>, key: string) returns (i: nat, j: nat)
    requires key in Exec(ops).states && Exec(ops).states[key].firing
    ensures var t, st := Exec(ops).trace, Exec(ops).states[key];
      && OpenedAt(t, key, i) && st.firstFiredMs == t[i].rec.timeMs
      && i <= j < |t| && t[j].Fired? && t[j].key == key && st.lastValue == t[j].rec.value
      && (forall k :: j < k < |t| && t[k].key == key ==> t[k].Acked?)
      && (st.acknowledged <==> AckedSince(t, key, i))
  {
    InvHolds(ops);
    assert StateOk(Exec(ops), key);
    i := OpeningOf(Exec(ops).trace, key);
    j := LastRecordAt(Exec(ops).trace, key);
  }

  // Acknowledged implies firing, and the firing state knows when its key last notified.
  lemma AcknowledgedIsFiring(ops: seq<Op>, key: string)
    requires key in Exec(ops).states
    ensures var st := Exec(ops).states[key];
      && (st.acknowledged ==> st.firing)
      && (st.firing ==> LastFired(Exec(ops).trace, key))
      && (st.firing ==> LastRecord(Exec(ops).trace, key).value.rec.timeMs == st.lastNotifiedMs)
  {
    InvHolds(ops);
    assert StateOk(Exec(ops), key);
  }

  // The alert list never meets a rule it cannot find, while rule ids have no separator in them.
  lemma UnknownRuleIsDead(ops: seq<Op>, key: string)
    requires key in Exec(ops).states && forall r :: r in Exec(ops).rules ==> SEP !in r.id
    ensures FindRule(Exec(ops).rules, SplitKey(key).0).Some?
  {
    InvHolds(ops);
    var r :| r in Exec(ops).rules && HasPrefix(key, r.id + [SEP]);
    assert key[|r.id|] == (r.id + [SEP])[|r.id|];
    PrefixIsRulePart(key, r.id);
    FindRuleIs(Exec(ops).rules, r.id);
  }

  // DeleteRule forgets the states whose rule part is the deleted id and keeps all others as they
  // were, while rule ids have no separator in them.
  lemma DeleteForgetsItsRule(ops: seq<Op>, id: string)
    requires SEP !in id
    ensures var e, e' := Exec(ops), DeleteById(Exec(ops), id);
      forall key :: key in e.states ==>
        && (key in e'.states <==> SplitKey(key).0 != id)
        && (key in e'.states ==> e'.states[key] == e.states[key])
  {
    InvHolds(ops);
    forall key | key in Exec(ops).states
      ensures HasPrefix(key, id + [SEP]) <==> SplitKey(key).0 == id
    {
      var r :| r in Exec(ops).rules && HasPrefix(key, r.id + [SEP]);
      assert key[|r.id|] == (r.id + [SEP])[|r.id|];
      PrefixIsRulePart(key, id);
    }
  }

  // The comment above the resolve branch says a failed probe can neither fire nor resolve a
  // field-based alert. The code leaves the alert alone exactly when it was not firing; a firing
  // one is resolved.
  lemma FailedProbeKeepsAlertIff(e: Engine, p: Probe, r: Rule)
    requires Matches(r, p.agent, p.metric) && !r.onFailure && !p.metric.success
    requires var st := StateOf(e, StateKey(r.id, p.agent, p.metric.target)); st.acknowledged ==> st.firing
    ensures var key := StateKey(r.id, p.agent, p.metric.target);
      && ((StateOf(EvalRule(e, p, r), key) == StateOf(e, key) && EvalRule(e, p, r).trace == e.trace)
          <==> !StateOf(e, key).firing)
      && !StateOf(EvalRule(e, p, r), key).firing
  {
  }

  // ----- how often one episode may notify -----

  lemma {:induction false} EpisodeEndsAtLast(trace: seq<Entry>, key: string)
    requires WellFormed(trace) && LastFired(trace, key)
    ensures EpisodeTimes(trace, key) != []
    ensures EpisodeTimes(trace, key)[|EpisodeTimes(trace, key)| - 1] == LastRecord(trace, key).value.rec.timeMs
  {
    var front, last := trace[..|trace| - 1], trace[|trace| - 1];
    PrefixWellFormed(trace, |trace| - 1);
    if last.key != key || last.Acked? { EpisodeEndsAtLast(front, key); }
  }

  // Every firing of the key happened under a repeat interval of at least gap milliseconds.
  ghost predicate SlowTrace(key: string, gap: int, trace: seq<Entry>) {
    forall i :: 0 <= i < |trace| && trace[i].key == key && trace[i].Fired? ==> trace[i].repeatMs >= gap
  }

  ghost predicate Spaced(ts: seq<int>, gap: int) {
    ts == [] || (|ts| - 1) * gap <= ts[|ts| - 1] - ts[0]
  }

  lemma SpacedStep(ts: seq<int>, x: int, gap: int)
    requires ts != [] && Spaced(ts, gap) && x - ts[|ts| - 1] >= gap
    ensures Spaced(ts + [x], gap)
  {
    Distribute(|ts| - 1, |ts|, gap);
  }

  lemma {:induction false} EpisodeIsSpaced(trace: seq<Entry>, key: string, gap: int)
    requires WellFormed(trace) && SlowTrace(key, gap, trace)
    ensures Spaced(EpisodeTimes(trace, key), gap)
  {
    if trace != [] {
      var front, last := trace[..|trace| - 1], trace[|trace| - 1];
      PrefixWellFormed(trace, |trace| - 1);
      EpisodeIsSpaced(front, key, gap);
      assert EntryOkAt(trace, |trace| - 1) && trace == front + [last];
      EpisodeStaysSpaced(front, last, key, gap);
    }
  }

  lemma EpisodeStaysSpaced(front: seq<Entry>, x: Entry, key: string, gap: int)
    requires WellFormed(front) && EntryOk(front, x) && Spaced(EpisodeTimes(front, key), gap)
    requires x.key == key && x.Fired? ==> x.repeatMs >= gap
    ensures Spaced(EpisodeTimes(front + [x], key), gap)
  {
    AppendEntry(front, x);
    if x.key == key && x.Fired? && !x.opening {
      EpisodeEndsAtLast(front, key);
      SpacedStep(EpisodeTimes(front, key), x.rec.timeMs, gap);
    }
  }

  // In any run in which every firing of a key happened under a repeat interval of at least `gap`
  // milliseconds, an episode that has lasted D milliseconds has notified at most 1 + D / gap times.
  lemma EpisodeNotificationsBounded(ops: seq<Op>, key: string, gap: int)
    requires gap > 0 && SlowTrace(key, gap, Exec(ops).trace)
    ensures var ts := EpisodeTimes(Exec(ops).trace, key);
      ts == [] || |ts| <= 1 + (ts[|ts| - 1] - ts[0]) / gap
  {
    InvHolds(ops);
    var t := Exec(ops).trace;
    EpisodeIsSpaced(t, key, gap);
    var ts := EpisodeTimes(t, key);
    if ts != [] { QuotientBound(|ts| - 1, gap, ts[|ts| - 1] - ts[0]); }
  }

  // ----- from the rules that were given -----

  // The rules an operation hands over.
  ghost function RulesGiven(op: Op): seq<Rule> {
    match op
    case Upsert(rule, persisted) => [rule]
    case Load(rules) => rules
    case _ => []
  }

  // Whatever may fire this key repeats no sooner than after gap milliseconds.
  ghost predicate SlowFor(key: string, gap: int, rules: seq<Rule>) {
    forall r :: r in rules && HasPrefix(key, r.id + [SEP]) ==> r.repeatIntervalSec * 1000 >= gap
  }

  lemma SlowRule(e: Engine, p: Probe, r: Rule, key: string, gap: int)
    requires SlowFor(key, gap, e.rules) && SlowTrace(key, gap, e.trace) && r in e.rules
    ensures SlowTrace(key, gap, EvalRule(e, p, r).trace)
  {
    var own := StateKey(r.id, p.agent, p.metric.target);
    assert HasPrefix(own, r.id + [SEP]);
  }

  lemma {:induction false} SlowRules(e: Engine, p: Probe, n: nat, key: string, gap: int)
    requires SlowFor(key, gap, e.rules) && SlowTrace(key, gap, e.trace) && n <= |e.rules|
    ensures SlowTrace(key, gap, EvalRules(e, p, n).trace)
  {
    if n > 0 {
      SlowRules(e, p, n - 1, key, gap);
      SlowRule(EvalRules(e, p, n - 1), p, e.rules[n - 1], key, gap);
    }
  }

  lemma {:induction false} SlowProbes(e: Engine, probes: seq<Probe>, key: string, gap: int)
    requires SlowFor(key, gap, e.rules) && SlowTrace(key, gap, e.trace)
    ensures SlowTrace(key, gap, EvalProbes(e, probes).trace)
  {
    if probes != [] {
      var before := EvalProbes(e, probes[..|probes| - 1]);
      SlowProbes(e, probes[..|probes| - 1], key, gap);
      SlowRules(before, probes[|probes| - 1], |before.rules|, key, gap);
    }
  }

  lemma {:induction false} UpsertedFrom(rules: seq<Rule>, r: Rule)
    ensures forall q :: q in Upserted(rules, r) ==> q in rules || q == r
  {
    if rules != [] { UpsertedFrom(rules[1..], r); }
  }

  lemma SlowStep(e: Engine, op: Op, key: string, gap: int)
    requires SlowFor(key, gap, e.rules) && SlowTrace(key, gap, e.trace) && SlowFor(key, gap, RulesGiven(op))
    ensures SlowFor(key, gap, Apply(e, op).rules) && SlowTrace(key, gap, Apply(e, op).trace)
  {
    match op
    case Evaluate(agent, metrics, now) => SlowProbes(e, ProbesOf(agent, metrics, now), key, gap);
    case Ack(_, _, _) =>
    case Upsert(rule, persisted) =>
      assert rule in RulesGiven(op);
      UpsertedFrom(e.rules, rule);
    case Delete(ruleId, _) => WithoutIs(e.rules, ruleId);
    case Load(_) =>
  }

  lemma {:induction false} SlowHolds(ops: seq<Op>, key: string, gap: int)
    requires forall op :: op in ops ==> SlowFor(key, gap, RulesGiven(op))
    ensures SlowFor(key, gap, Exec(ops).rules) && SlowTrace(key, gap, Exec(ops).trace)
  {
    if ops != [] {
      SlowHolds(ops[..|ops| - 1], key, gap);
      SlowStep(Exec(ops[..|ops| - 1]), ops[|ops| - 1], key, gap);
    }
  }

  // If every version of the rule that was ever given has a repeat interval of at least gap
  // milliseconds, an episode of D milliseconds has notified at most 1 + D / gap times, whatever else
  // was evaluated, acknowledged, edited or loaded.
  lemma RepeatIntervalBoundsEpisode(ops: seq<Op>, key: string, gap: int)
    requires gap > 0 && forall op :: op in ops ==> SlowFor(key, gap, RulesGiven(op))
    ensures var ts := EpisodeTimes(Exec(ops).trace, key);
      ts == [] || |ts| <= 1 + (ts[|ts| - 1] - ts[0]) / gap
  {
    SlowHolds(ops, key, gap);
    EpisodeNotificationsBounded(ops, key, gap);
  }

  lemma QuotientBound(n: int, gap: int, d: int)
    requires gap > 0 && n * gap <= d
    ensures n <= d / gap
  {
    Floor(d, gap, d / gap);
    ProductOrder(d / gap, n, gap);
  }

  // ----- a repeat interval of zero -----

  // A violated probe of a firing alert notifies again exactly when the interval has passed.
  lemma ZeroRepeatAlwaysNotifies(e: Engine, p: Probe, r: Rule)
    requires Matches(r, p.agent, p.metric) && Violated(r, p.metric)
    requires StateOf(e, StateKey(r.id, p.agent, p.metric.target)).firing
    ensures CountFired(EvalRule(e, p, r).trace) == CountFired(e.trace) + 1
       <==> p.now - StateOf(e, StateKey(r.id, p.agent, p.metric.target)).lastNotifiedMs >= r.repeatIntervalSec * 1000
    ensures r.repeatIntervalSec == 0
         && StateOf(e, StateKey(r.id, p.agent, p.metric.target)).lastNotifiedMs <= p.now
         ==> CountFired(EvalRule(e, p, r).trace) == CountFired(e.trace) + 1
  {
    var t := EvalRule(e, p, r).trace;
    assert t != e.trace ==> t[..|e.trace|] == e.trace;
  }

  ghost predicate NotifiedBy(e: Engine, now: int) {
    forall key :: key in e.states && e.states[key].firing ==> e.states[key].lastNotifiedMs <= now
  }

  // An interval of zero does not switch repeats off: with a clock that does not run backwards each
  // violated probe of the rule is one more notification, first or repeated.
  lemma {:induction false} ZeroRepeatNotifiesEveryTime(r: Rule, probes: seq<Probe>)
    requires r.repeatIntervalSec == 0
    requires forall p :: p in probes ==> Matches(r, p.agent, p.metric) && Violated(r, p.metric)
    requires forall i, j :: 0 <= i < j < |probes| ==> probes[i].now <= probes[j].now
    ensures CountFired(EvalProbes(Engine([r], map[], []), probes).trace) == |probes|
    ensures probes != [] ==> NotifiedBy(EvalProbes(Engine([r], map[], []), probes), probes[|probes| - 1].now)
  {
    if probes != [] {
      var front, p := probes[..|probes| - 1], probes[|probes| - 1];
      ZeroRepeatNotifiesEveryTime(r, front);
      var e := EvalProbes(Engine([r], map[], []), front);
      assert front == [] ==> e.states == map[];
      ViolatedProbeNotifies(e, p, r);
      assert EvalRules(e, p, 1) == EvalRule(EvalRules(e, p, 0), p, r);
    }
  }

  lemma ViolatedProbeNotifies(e: Engine, p: Probe, r: Rule)
    requires r.repeatIntervalSec == 0 && Matches(r, p.agent, p.metric) && Violated(r, p.metric)
    requires NotifiedBy(e, p.now)
    ensures CountFired(EvalRule(e, p, r).trace) == CountFired(e.trace) + 1
    ensures NotifiedBy(EvalRule(e, p, r), p.now)
  {
    var key := StateKey(r.id, p.agent, p.metric.target);
    if StateOf(e, key).firing {
      ZeroRepeatAlwaysNotifies(e, p, r);
    } else {
      var t := EvalRule(e, p, r).trace;
      assert t[..|e.trace|] == e.trace;
    }
  }
}
