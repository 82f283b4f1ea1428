/** The alert manager object: rules, one state a key, the bounded history and the fired counter,
    updated in place by each operation under the manager's mutex. */
module AlertManagement {
  import opened Common
  import opened AlertRules
  import opened AlertKeys
  import opened AlertEngine
  import opened AlertMeaning
  import opened AlertRuns

  const MAX_HISTORY := 1000

  function LastOf<T>(s: seq<T>, n: nat): seq<T> {
    if |s| <= n then s else s[|s| - n..]
  }

  // Trimming after each append keeps exactly the end of the full sequence.
  lemma LastOfAppend<T>(s: seq<T>, x: T, n: nat)
    requires n > 0
    ensures LastOf(s + [x], n) == LastOf(LastOf(s, n) + [x], n)
  {
  }

  lemma AppendToLog(trace: seq<Entry>, x: Entry)
    requires !x.Acked?
    ensures Records(trace + [x]) == Records(trace) + [x.rec]
    ensures CountFired(trace + [x]) == CountFired(trace) + if x.Fired? then 1 else 0
  {
    assert (trace + [x])[..|trace|] == trace;
  }

  // The records added between two states of the log are the ones handed out as notifications.
  ghost predicate Noted(before: seq<Entry>, after: seq<Entry>, notes: seq<Record>) {
    Records(after) == Records(before) + notes
  }

  lemma NotedNothing(trace: seq<Entry>)
    ensures Noted(trace, trace, [])
  {
  }

  lemma NotedMore(a: seq<Entry>, b: seq<Entry>, c: seq<Entry>, notes: seq<Record>, more: seq<Record>)
    requires Noted(a, b, notes) && Noted(b, c, more)
    ensures Noted(a, c, notes + more)
  {
    assert (Records(a) + notes) + more == Records(a) + (notes + more);
  }

  // One row of the active alert list.
  datatype Active = Active(
    ruleId: string, ruleName: string, severity: string, agent: string, target: string,
    value: real, threshold: real, acknowledged: bool, firedMs: int)

  function ActiveOf(rules: seq<Rule>, key: string, st: FiringState): Active {
    var (ruleId, agent, target) := SplitKey(key);
    match FindRule(rules, ruleId)
    case Some(r) =>
      Active(ruleId, r.name, r.severity, agent, target, st.lastValue, r.threshold, st.acknowledged, st.firstFiredMs)
    case None =>
      Active(ruleId, ruleId, "unknown", agent, target, st.lastValue, 0.0, st.acknowledged, st.firstFiredMs)
  }

  // The rule replaces the first one with its id, at i, or comes last.
  ghost predicate TakesPlace(rules: seq<Rule>, r: Rule, i: nat, after: seq<Rule>) {
    && i <= |rules| && (forall j :: 0 <= j < i ==> rules[j].id != r.id)
    && (i < |rules| ==> rules[i].id == r.id && after == rules[i := r])
    && (i == |rules| ==> after == rules + [r])
  }

  lemma {:induction false} UpsertedIs(rules: seq<Rule>, r: Rule, i: nat)
    requires i <= |rules| && (forall j :: 0 <= j < i ==> rules[j].id != r.id) && (i < |rules| ==> rules[i].id == r.id)
    ensures Upserted(rules, r) == if i < |rules| then rules[i := r] else rules + [r]
  {
    if i > 0 { UpsertedIs(rules[1..], r, i - 1); }
  }

  lemma {:induction false} WithoutAppend(rules: seq<Rule>, r: Rule, id: string)
    ensures Without(rules + [r], id) == Without(rules, id) + if r.id == id then [] else [r]
  {
    if rules != [] {
      assert (rules + [r])[1..] == rules[1..] + [r];
      WithoutAppend(rules[1..], r, id);
    }
  }

  // Something was left out exactly when there is such a rule.
  lemma {:induction false} WithoutLength(rules: seq<Rule>, id: string)
    ensures |Without(rules, id)| <= |rules|
    ensures |Without(rules, id)| == |rules| <==> FindRule(rules, id).None?
  {
    if rules != [] { WithoutLength(rules[1..], id); }
  }

  class AlertManager {
    var rules: seq<Rule>
    var states: map<string, FiringState>
    var history: seq<Record>
    var firedTotal: nat
    ghost var trace: seq<Entry>
    // The operations so far.
    ghost var past: seq<Op>

    // The history is the end of the full log, and the counter counts all of it.
    ghost predicate Counted()
      reads this
    {
      history == LastOf(Records(trace), MAX_HISTORY) && firedTotal == CountFired(trace)
    }

    // The manager is in the state of a run, so what holds of every run holds of it.
    ghost predicate Valid()
      reads this
    {
      Counted() && Contents() == Exec(past)
    }

    ghost function Contents(): Engine
      reads this
    {
      Engine(rules, states, trace)
    }

    constructor ()
      ensures Valid() && past == [] && Contents() == EMPTY
    {
      rules, states, history, firedTotal, trace, past := [], map[], [], 0, [], [];
    }

    ghost method Record(op: Op)
      requires Counted() && Contents() == Apply(Exec(past), op)
      modifies `past
      ensures Valid() && past == old(past) + [op]
    {
      past := past + [op];
      assert past[..|past| - 1] == old(past);
    }

    // Appends one record and trims the history to its bound.
    method Log(x: Entry)
      requires Counted() && !x.Acked?
      modifies `history, `firedTotal, `trace
      ensures Counted() && trace == old(trace) + [x] && Noted(old(trace), trace, [x.rec])
      ensures history == (if |old(history)| < 1000 then old(history) else old(history)[1..]) + [x.rec]
      ensures firedTotal == old(firedTotal) + if x.Fired? then 1 else 0
    {
      AppendToLog(trace, x);
      LastOfAppend(Records(trace), x.rec, MAX_HISTORY);
      trace := trace + [x];
      if x.Fired? { firedTotal := firedTotal + 1; }
      history := history + [x.rec];
      if |history| > MAX_HISTORY {
        history := history[|history| - MAX_HISTORY..];
      }
    }

    // The conditions under which the loop goes on to the next rule.
    static method Applies(r: Rule, agent: string, m: Metric) returns (applies: bool)
      ensures applies <==> LooksAt(r, agent, m)
      ensures applies <==> Matches(r, agent, m)
    {
      MatchesIff(r, agent, m);
      if r.agentId != "" && r.agentId != agent { return false; }
      if r.checkType != "" {
        var ct := CheckTypeFromString(r.checkType);
        if ct.Some? && ct.value != m.checkType { return false; }
      }
      return r.target == "" || r.target == m.target;
    }

    static method Judge(r: Rule, m: Metric) returns (violated: bool, value: real, detail: string)
      ensures violated <==> ShouldFire(r, m)
      ensures violated ==> Seen(r, m, value) && detail == if r.onFailure then m.detail else ""
      ensures violated <==> Violated(r, m)
      ensures violated ==> value == ObservedValue(r, m) && detail == ObservedDetail(r, m)
    {
      violated, value, detail := false, 0.0, "";
      ViolatedIff(r, m);
      if r.onFailure {
        if !m.success { violated, detail := true, m.detail; }
      } else if m.success && MetricValue(m, r.metricField).Some? {
        value := MetricValue(m, r.metricField).value;
        ValueIff(m, r.metricField, value);
        violated := if r.greaterThan then value > r.threshold else value < r.threshold;
      }
    }

    method EvaluateRule(p: Probe, r: Rule) returns (notes: seq<Record>)
      requires Counted()
      modifies `states, `history, `firedTotal, `trace
      ensures Counted() && Contents() == EvalRule(old(Contents()), p, r)
      ensures Noted(old(trace), trace, notes)
    {
      NotedNothing(trace);
      notes := [];
      var applies := Applies(r, p.agent, p.metric);
      if !applies { return; }
      var key := StateKey(r.id, p.agent, p.metric.target);
      var st := if key in states then states[key] else IDLE;
      var violated, value, detail := Judge(r, p.metric);
      if violated {
        var repeatMs := r.repeatIntervalSec * 1000;
        if !st.firing || p.now - st.lastNotifiedMs >= repeatMs {
          var rec := MakeRecord(r, p, value, true);
          Log(Fired(key, rec, !st.firing, repeatMs));
          notes := [rec];
          st := if st.firing then st.(lastNotifiedMs := p.now, lastValue := value, lastDetail := detail)
                else FiringState(true, st.acknowledged, p.now, p.now, value, detail);
        }
      } else if st.firing {
        var rec := MakeRecord(r, p, st.lastValue, false).(detail := st.lastDetail);
        Log(Resolved(key, rec));
        notes := [rec];
        st := IDLE;
      }
      states := states[key := st];
    }

    method EvaluateProbe(p: Probe) returns (notes: seq<Record>)
      requires Counted()
      modifies `states, `history, `firedTotal, `trace
      ensures Counted() && Contents() == EvalRules(old(Contents()), p, |rules|)
      ensures Noted(old(trace), trace, notes)
    {
      notes := [];
      ghost var before := Contents();
      var i := 0;
      while i < |rules|
        invariant 0 <= i <= |rules| && Counted()
        invariant Contents() == EvalRules(before, p, i)
        invariant Noted(before.trace, trace, notes)
      {
        ghost var mid := trace;
        var more := EvaluateRule(p, rules[i]);
        NotedMore(before.trace, mid, trace, notes, more);
        notes := notes + more;
        i := i + 1;
      }
    }

    // Evaluates a batch; returns the notifications to send once the lock is released.
    method Evaluate(agent: string, metrics: seq<Metric>, now: int) returns (notes: seq<Record>)
      requires Valid()
      modifies `states, `history, `firedTotal, `trace, `past
      ensures Valid() && past == old(past) + [Op.Evaluate(agent, metrics, now)]
      ensures Contents() == Apply(old(Contents()), Op.Evaluate(agent, metrics, now))
      ensures Noted(old(trace), trace, notes)
    {
      notes := [];
      ghost var before, probes := Contents(), ProbesOf(agent, metrics, now);
      if rules == [] {
        NoRulesNoEffect(before, probes);
        Record(Op.Evaluate(agent, metrics, now));
        return;
      }
      var i := 0;
      assert probes[..0] == [];
      while i < |metrics|
        invariant 0 <= i <= |metrics| && Counted() && rules == before.rules && past == old(past)
        invariant Contents() == EvalProbes(before, probes[..i])
        invariant Noted(before.trace, trace, notes)
      {
        ghost var mid := trace;
        var more := EvaluateProbe(Probe(agent, metrics[i], now));
        NotedMore(before.trace, mid, trace, notes, more);
        notes := notes + more;
        assert probes[..i + 1][..i] == probes[..i];
        i := i + 1;
      }
      assert probes[..|metrics|] == probes;
      Record(Op.Evaluate(agent, metrics, now));
    }

    method Acknowledge(ruleId: string, agent: string, target: string) returns (ok: bool)
      requires Valid()
      modifies `states, `trace, `past
      ensures Valid() && past == old(past) + [Op.Ack(ruleId, agent, target)]
      ensures Contents() == Apply(old(Contents()), Op.Ack(ruleId, agent, target))
      ensures var key := ruleId + [SEP] + agent + [SEP] + target;
        && (ok <==> key in old(states) && old(states)[key].firing && !old(states)[key].acknowledged)
        && states == if ok then old(states)[key := old(states)[key].(acknowledged := true)] else old(states)
    {
      var key := StateKey(ruleId, agent, target);
      if key !in states || !states[key].firing || states[key].acknowledged {
        Record(Op.Ack(ruleId, agent, target));
        return false;
      }
      states := states[key := states[key].(acknowledged := true)];
      trace := trace + [Acked(key)];
      assert trace[..|trace| - 1] == old(trace);
      Record(Op.Ack(ruleId, agent, target));
      return true;
    }

    method UpsertRule(rule: Rule, persisted: bool) returns (ok: bool)
      requires Valid()
      modifies `rules, `past
      ensures Valid() && past == old(past) + [Op.Upsert(rule, persisted)] && ok == persisted
      ensures Contents() == Apply(old(Contents()), Op.Upsert(rule, persisted))
      ensures persisted ==> exists i: nat :: TakesPlace(old(rules), rule, i, rules)
      ensures !persisted ==> rules == old(rules)
    {
      var i := 0;
      while i < |rules| && rules[i].id != rule.id
        invariant 0 <= i <= |rules| && forall j :: 0 <= j < i ==> rules[j].id != rule.id
      {
        i := i + 1;
      }
      UpsertedIs(rules, rule, i);
      var candidate := if i < |rules| then rules[i := rule] else rules + [rule];
      assert TakesPlace(rules, rule, i, candidate);
      if persisted { rules := candidate; }
      Record(Op.Upsert(rule, persisted));
      ok := persisted;
    }

    method DeleteRule(ruleId: string, persisted: bool) returns (ok: bool)
      requires Valid()
      modifies `rules, `states, `past
      ensures Valid() && past == old(past) + [Op.Delete(ruleId, persisted)]
      ensures Contents() == Apply(old(Contents()), Op.Delete(ruleId, persisted))
      ensures ok <==> ruleId != "" && persisted && exists r :: r in old(rules) && r.id == ruleId
      ensures !ok ==> rules == old(rules) && states == old(states)
      ensures ok ==> forall r :: r in rules <==> r in old(rules) && r.id != ruleId
      ensures ok ==> states == map key | key in old(states) && !(ruleId + [SEP] <= key) :: old(states)[key]
    {
      ok := false;
      FindRuleIs(rules, ruleId);
      WithoutIs(rules, ruleId);
      if ruleId != "" {
        var candidate := OtherRules(ruleId);
        if |candidate| != |rules| && persisted {
          rules := candidate;
          EraseKeys(ruleId + [SEP]);
          ok := true;
        }
      }
      Record(Op.Delete(ruleId, persisted));
    }

    method OtherRules(ruleId: string) returns (candidate: seq<Rule>)
      ensures candidate == Without(rules, ruleId)
      ensures |candidate| == |rules| <==> FindRule(rules, ruleId).None?
    {
      candidate := [];
      var i := 0;
      while i < |rules|
        invariant 0 <= i <= |rules| && candidate == Without(rules[..i], ruleId)
      {
        WithoutAppend(rules[..i], rules[i], ruleId);
        assert rules[..i + 1] == rules[..i] + [rules[i]];
        if rules[i].id != ruleId { candidate := candidate + [rules[i]]; }
        i := i + 1;
      }
      assert rules[..i] == rules;
      WithoutLength(rules, ruleId);
    }

    method EraseKeys(prefix: string)
      modifies `states
      ensures states == map key | key in old(states) && !HasPrefix(key, prefix) :: old(states)[key]
    {
      ghost var before := states;
      var left := states.Keys;
      while left != {}
        invariant left <= before.Keys
        invariant forall key :: key in states <==> key in before && (key in left || !HasPrefix(key, prefix))
        invariant forall key :: key in states ==> states[key] == before[key]
      {
        var key :| key in left;
        if HasPrefix(key, prefix) { states := states - {key}; }
        left := left - {key};
      }
    }

    method LoadRules(newRules: seq<Rule>)
      requires Valid()
      modifies `rules, `states, `past
      ensures Valid() && past == old(past) + [Op.Load(newRules)]
      ensures Contents() == Apply(old(Contents()), Op.Load(newRules))
    {
      rules, states := newRules, map[];
      Record(Op.Load(newRules));
    }

    // The rows of the active alert list: one for each firing key and nothing else.
    method ActiveAlerts() returns (alerts: seq<Active>)
      ensures |alerts| == |set key | key in states && states[key].firing|
      ensures forall key :: key in states && states[key].firing ==> ActiveOf(rules, key, states[key]) in alerts
      ensures forall a :: a in alerts ==>
        exists key :: key in states && states[key].firing && a == ActiveOf(rules, key, states[key])
    {
      alerts := [];
      var left := states.Keys;
      ghost var listed: set<string> := {};
      while left != {}
        invariant left <= states.Keys && |alerts| == |listed|
        invariant listed == set key | key in states && key !in left && states[key].firing
        invariant forall key :: key in listed ==> ActiveOf(rules, key, states[key]) in alerts
        invariant forall a :: a in alerts ==> exists key :: key in listed && a == ActiveOf(rules, key, states[key])
      {
        var key :| key in left;
        left := left - {key};
        if states[key].firing {
          alerts := alerts + [ActiveOf(rules, key, states[key])];
          listed := listed + {key};
        }
      }
      assert listed == set key | key in states && states[key].firing;
    }
  }

  lemma {:induction false} NoRulesNoEffect(e: Engine, probes: seq<Probe>)
    requires e.rules == []
    ensures EvalProbes(e, probes) == e
  {
    if probes != [] { NoRulesNoEffect(e, probes[..|probes| - 1]); }
  }

  // The rule the list shows for an id: the first of that id.
  ghost predicate FirstWithId(rules: seq<Rule>, id: string, n: int) {
    0 <= n < |rules| && rules[n].id == id && forall m :: 0 <= m < n ==> rules[m].id != id
  }

  lemma {:induction false} FindRuleIsFirst(rules: seq<Rule>, id: string, n: nat)
    requires FirstWithId(rules, id, n)
    ensures FindRule(rules, id) == Some(rules[n])
  {
    if n > 0 {
      assert FirstWithId(rules[1..], id, n - 1);
      FindRuleIsFirst(rules[1..], id, n - 1);
    }
  }

  // A row of the active list in every run: its value is that of the key's last record, its time that
  // of the record which opened the episode, it is acknowledged if that happened since, and name,
  // severity and threshold are those of the rule as it stands now.
  lemma ActiveRowReadsTheLog(ops: seq<Op>, ruleId: string, agent: string, target: string, n: nat)
    returns (i: nat, j: nat)
    requires SEP !in ruleId && SEP !in agent && FirstWithId(Exec(ops).rules, ruleId, n)
    requires var key := StateKey(ruleId, agent, target); key in Exec(ops).states && Exec(ops).states[key].firing
    ensures var key, t, r := StateKey(ruleId, agent, target), Exec(ops).trace, Exec(ops).rules[n];
      && OpenedAt(t, key, i) && i <= j < |t| && t[j].Fired? && t[j].key == key
      && (forall k :: j < k < |t| && t[k].key == key ==> t[k].Acked?)
      && ActiveOf(Exec(ops).rules, key, Exec(ops).states[key])
         == Active(ruleId, r.name, r.severity, agent, target, t[j].rec.value, r.threshold,
                   AckedSince(t, key, i), t[i].rec.timeMs)
  {
    SplitInvertsIff(ruleId, agent, target);
    FindRuleIsFirst(Exec(ops).rules, ruleId, n);
    i, j := FiringStateReadsTheLog(ops, StateKey(ruleId, agent, target));
  }

  // The active list read back: with separator-free ids every row names its own rule, agent and target.
  lemma ActiveRowNamesItsAlert(rules: seq<Rule>, ruleId: string, agent: string, target: string, st: FiringState)
    requires SEP !in ruleId && SEP !in agent
    ensures var row := ActiveOf(rules, StateKey(ruleId, agent, target), st);
      row.ruleId == ruleId && row.agent == agent && row.target == target
  {
    SplitInvertsIff(ruleId, agent, target);
  }
}
