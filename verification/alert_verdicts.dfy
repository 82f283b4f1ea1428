/** With a fixed rule set, an alert fires exactly when the last probe its rule looked at was
    violated: the incremental states agree with a look back over the whole history. */
module AlertVerdicts {
  import opened Common
  import opened AlertRules
  import opened AlertKeys
  import opened AlertEngine

  // Rule ids are distinct and free of the key separator.
  ghost predicate CleanRules(rules: seq<Rule>) {
    && (forall r :: r in rules ==> SEP !in r.id)
    && (forall i, j :: 0 <= i < j < |rules| ==> rules[i].id != rules[j].id)
  }

  ghost predicate CleanProbes(probes: seq<Probe>) {
    forall p :: p in probes ==> SEP !in p.agent
  }

  // The rule looks at this probe on behalf of this agent and target.
  ghost predicate Concerns(r: Rule, agent: string, target: string, p: Probe) {
    p.agent == agent && p.metric.target == target && Matches(r, agent, p.metric)
  }

  ghost predicate LastConcern(r: Rule, agent: string, target: string, probes: seq<Probe>, i: int) {
    && 0 <= i < |probes| && Concerns(r, agent, target, probes[i])
    && forall j :: i < j < |probes| ==> !Concerns(r, agent, target, probes[j])
  }

  // One rule touches only its own key, and leaves it firing as it found the probe.
  lemma EvalRuleAt(e: Engine, p: Probe, r: Rule, key: string)
    ensures var own := StateKey(r.id, p.agent, p.metric.target);
      if Matches(r, p.agent, p.metric) && key == own
      then StateOf(EvalRule(e, p, r), key).firing == Violated(r, p.metric)
      else StateOf(EvalRule(e, p, r), key) == StateOf(e, key)
  {
  }

  lemma {:induction false} EvalRulesAt(e: Engine, p: Probe, n: nat, k: nat, agent: string, target: string)
    requires CleanRules(e.rules) && SEP !in p.agent && SEP !in agent
    requires n <= |e.rules| && k < |e.rules|
    ensures var key := StateKey(e.rules[k].id, agent, target);
      if k < n && Concerns(e.rules[k], agent, target, p)
      then StateOf(EvalRules(e, p, n), key).firing == Violated(e.rules[k], p.metric)
      else StateOf(EvalRules(e, p, n), key) == StateOf(e, key)
  {
    if n > 0 {
      EvalRulesAt(e, p, n - 1, k, agent, target);
      var key, r := StateKey(e.rules[k].id, agent, target), e.rules[n - 1];
      EvalRuleAt(EvalRules(e, p, n - 1), p, r, key);
      assert SEP !in r.id && SEP !in e.rules[k].id;
      if key == StateKey(r.id, p.agent, p.metric.target) {
        StateKeyInjective(e.rules[k].id, agent, target, r.id, p.agent, p.metric.target);
      }
    }
  }

  // Whether the last probe the rule looked at for this agent and target was violated.
  ghost predicate LastViolated(r: Rule, agent: string, target: string, probes: seq<Probe>) {
    exists i :: LastConcern(r, agent, target, probes, i) && Violated(r, probes[i].metric)
  }

  lemma LastViolatedStep(r: Rule, agent: string, target: string, front: seq<Probe>, p: Probe)
    ensures LastViolated(r, agent, target, front + [p])
         == if Concerns(r, agent, target, p) then Violated(r, p.metric) else LastViolated(r, agent, target, front)
  {
    var probes := front + [p];
    if Concerns(r, agent, target, p) {
      assert LastConcern(r, agent, target, probes, |front|);
    } else {
      forall i ensures LastConcern(r, agent, target, probes, i) <==> LastConcern(r, agent, target, front, i) {
        assert forall j :: 0 <= j < |front| ==> probes[j] == front[j];
      }
      if i :| LastConcern(r, agent, target, front, i) && Violated(r, front[i].metric) {
        assert LastConcern(r, agent, target, probes, i) && probes[i] == front[i];
      }
    }
  }

  lemma {:induction false} FiringIffLastViolated(e: Engine, probes: seq<Probe>, k: nat, agent: string, target: string)
    requires CleanRules(e.rules) && CleanProbes(probes) && SEP !in agent
    requires e.states == map[] && k < |e.rules|
    ensures StateOf(EvalProbes(e, probes), StateKey(e.rules[k].id, agent, target)).firing
       <==> LastViolated(e.rules[k], agent, target, probes)
  {
    if probes != [] {
      var front, p := probes[..|probes| - 1], probes[|probes| - 1];
      FiringIffLastViolated(e, front, k, agent, target);
      EvalRulesAt(EvalProbes(e, front), p, |e.rules|, k, agent, target);
      LastViolatedStep(e.rules[k], agent, target, front, p);
      assert front + [p] == probes;
    }
  }

  // The same for a sequence of Evaluate calls after loading the rules.
  ghost function AllProbes(calls: seq<Op>): seq<Probe>
    requires forall c :: c in calls ==> c.Evaluate?
  {
    if calls == [] then []
    else
      var c := calls[|calls| - 1];
      AllProbes(calls[..|calls| - 1]) + ProbesOf(c.agent, c.metrics, c.now)
  }

  ghost function Run(e: Engine, calls: seq<Op>): Engine {
    if calls == [] then e else Apply(Run(e, calls[..|calls| - 1]), calls[|calls| - 1])
  }

  lemma {:induction false} EvalConcat(e: Engine, a: seq<Probe>, b: seq<Probe>)
    ensures EvalProbes(e, a + b) == EvalProbes(EvalProbes(e, a), b)
  {
    if b == [] {
      assert a + b == a;
    } else {
      EvalConcat(e, a, b[..|b| - 1]);
      assert (a + b)[..|a + b| - 1] == a + b[..|b| - 1];
    }
  }

  lemma {:induction false} RunIsEval(e: Engine, calls: seq<Op>)
    requires forall c :: c in calls ==> c.Evaluate?
    ensures Run(e, calls) == EvalProbes(e, AllProbes(calls))
  {
    if calls != [] {
      var front, c := calls[..|calls| - 1], calls[|calls| - 1];
      RunIsEval(e, front);
      EvalConcat(e, AllProbes(front), ProbesOf(c.agent, c.metrics, c.now));
    }
  }

  lemma {:induction false} ExecAfterLoad(rules: seq<Rule>, calls: seq<Op>)
    ensures Exec([Load(rules)] + calls) == Run(Engine(rules, map[], []), calls)
  {
    var ops := [Load(rules)] + calls;
    if calls == [] {
      assert ops == [Load(rules)] && ops[..0] == [];
    } else {
      ExecAfterLoad(rules, calls[..|calls| - 1]);
      assert ops[..|ops| - 1] == [Load(rules)] + calls[..|calls| - 1];
    }
  }

  // The same for runs of the engine: after loading rules and any number of Evaluate calls, an alert
  // is firing if and only if the last probe its rule looked at was violated.
  lemma FiringAfterLoadIff(rules: seq<Rule>, calls: seq<Op>, k: nat, agent: string, target: string)
    requires forall c :: c in calls ==> c.Evaluate?
    requires CleanRules(rules) && CleanProbes(AllProbes(calls)) && SEP !in agent && k < |rules|
    ensures StateOf(Exec([Load(rules)] + calls), StateKey(rules[k].id, agent, target)).firing
       <==> LastViolated(rules[k], agent, target, AllProbes(calls))
  {
    ExecAfterLoad(rules, calls);
    RunIsEval(Engine(rules, map[], []), calls);
    FiringIffLastViolated(Engine(rules, map[], []), AllProbes(calls), k, agent, target);
  }

  // How batches are cut does not matter: only the order of the probes does.
  lemma BatchingIsInvisible(e: Engine, calls: seq<Op>, calls': seq<Op>)
    requires forall c :: c in calls ==> c.Evaluate?
    requires forall c :: c in calls' ==> c.Evaluate?
    requires AllProbes(calls) == AllProbes(calls')
    ensures Run(e, calls) == Run(e, calls')
  {
    RunIsEval(e, calls);
    RunIsEval(e, calls');
  }

  // ----- failed probes -----

  // From position lo on the log has a resolved record of the key.
  ghost predicate ResolvedSince(trace: seq<Entry>, lo: nat, key: string) {
    exists i :: lo <= i < |trace| && trace[i].Resolved? && trace[i].key == key
  }

  // One rule logs at most one entry, of its own key, and a resolved one just when it ends an episode.
  lemma EvalRuleLog(e: Engine, p: Probe, r: Rule)
    ensures var own, t := StateKey(r.id, p.agent, p.metric.target), EvalRule(e, p, r).trace;
      && e.trace <= t && |t| <= |e.trace| + 1 && (|t| > |e.trace| ==> t[|e.trace|].key == own)
      && (|t| > |e.trace| && t[|e.trace|].Resolved? <==>
            Matches(r, p.agent, p.metric) && !Violated(r, p.metric) && StateOf(e, own).firing)
  {
  }

  lemma ResolvedStep(before: seq<Entry>, after: seq<Entry>, lo: nat, key: string)
    requires before <= after && |after| <= |before| + 1 && lo <= |before|
    ensures ResolvedSince(after, lo, key) <==> ResolvedSince(before, lo, key) || AddsResolved(before, after, key)
  {
    if i :| lo <= i < |before| && before[i].Resolved? && before[i].key == key { assert after[i] == before[i]; }
  }

  ghost predicate AddsResolved(before: seq<Entry>, after: seq<Entry>, key: string) {
    |after| > |before| && after[|before|].Resolved? && after[|before|].key == key
  }

  lemma {:induction false} EvalRulesResolve(e: Engine, p: Probe, n: nat, k: nat)
    requires CleanRules(e.rules) && SEP !in p.agent && n <= |e.rules| && k < |e.rules|
    requires Matches(e.rules[k], p.agent, p.metric) && !Violated(e.rules[k], p.metric)
    ensures var key := StateKey(e.rules[k].id, p.agent, p.metric.target);
      && e.trace <= EvalRules(e, p, n).trace
      && (ResolvedSince(EvalRules(e, p, n).trace, |e.trace|, key) <==> k < n && StateOf(e, key).firing)
  {
    if n > 0 {
      var key, r, mid := StateKey(e.rules[k].id, p.agent, p.metric.target), e.rules[n - 1], EvalRules(e, p, n - 1);
      EvalRulesResolve(e, p, n - 1, k);
      EvalRulesAt(e, p, n - 1, k, p.agent, p.metric.target);
      EvalRuleLog(mid, p, r);
      ResolvedStep(mid.trace, EvalRule(mid, p, r).trace, |e.trace|, key);
      if n - 1 != k { OtherKey(e.rules, k, n - 1, p.agent, p.metric.target); }
    }
  }

  lemma OtherKey(rules: seq<Rule>, i: nat, j: nat, agent: string, target: string)
    requires CleanRules(rules) && SEP !in agent && i < |rules| && j < |rules| && i != j
    ensures StateKey(rules[i].id, agent, target) != StateKey(rules[j].id, agent, target)
  {
    assert SEP !in rules[i].id && SEP !in rules[j].id;
    if StateKey(rules[i].id, agent, target) == StateKey(rules[j].id, agent, target) {
      StateKeyInjective(rules[i].id, agent, target, rules[j].id, agent, target);
    }
  }

  // The comment above the resolve branch says that a failed probe can neither fire nor resolve a
  // field-based alert. In every run it resolves the alert if and only if the last probe the rule
  // looked at before it was violated; it never fires it.
  lemma FailedProbeResolvesIff(rules: seq<Rule>, calls: seq<Op>, k: nat, p: Probe)
    requires forall c :: c in calls ==> c.Evaluate?
    requires CleanRules(rules) && CleanProbes(AllProbes(calls)) && SEP !in p.agent && k < |rules|
    requires Matches(rules[k], p.agent, p.metric) && !rules[k].onFailure && !p.metric.success
    ensures var key, ops := StateKey(rules[k].id, p.agent, p.metric.target), [Load(rules)] + calls;
      var after := Exec(ops + [Evaluate(p.agent, [p.metric], p.now)]);
      && (ResolvedSince(after.trace, |Exec(ops).trace|, key)
          <==> LastViolated(rules[k], p.agent, p.metric.target, AllProbes(calls)))
      && !StateOf(after, key).firing
  {
    var ops, op := [Load(rules)] + calls, Evaluate(p.agent, [p.metric], p.now);
    var e := Exec(ops);
    ExecAfterLoad(rules, calls);
    RunIsEval(Engine(rules, map[], []), calls);
    FiringAfterLoadIff(rules, calls, k, p.agent, p.metric.target);
    assert (ops + [op])[..|ops|] == ops;
    OneProbe(e, p);
    EvalRulesResolve(e, p, |rules|, k);
    EvalRulesAt(e, p, |rules|, k, p.agent, p.metric.target);
  }

  lemma OneProbe(e: Engine, p: Probe)
    ensures Apply(e, Evaluate(p.agent, [p.metric], p.now)) == EvalRules(e, p, |e.rules|)
  {
    var ps := ProbesOf(p.agent, [p.metric], p.now);
    assert ps == [p] && ps[..0] == [];
    assert EvalProbes(e, []) == e;
  }

  // Two probes are enough: the first is over the threshold and fires the alert, the second fails and
  // resolves it.
  lemma FailedProbeResolves(r: Rule, agent: string, high: Metric, failed: Metric)
    requires SEP !in r.id && SEP !in agent && !r.onFailure && high.target == failed.target
    requires Matches(r, agent, high) && Violated(r, high) && Matches(r, agent, failed) && !failed.success
    ensures var key, ops := StateKey(r.id, agent, failed.target), [Load([r]), Evaluate(agent, [high], 0)];
      && StateOf(Exec(ops), key).firing
      && ResolvedSince(Exec(ops + [Evaluate(agent, [failed], 1)]).trace, |Exec(ops).trace|, key)
  {
    var call := Evaluate(agent, [high], 0);
    assert [Load([r])] + [call] == [Load([r]), call];
    assert [call][..0] == [] && AllProbes([]) == [] && ProbesOf(agent, [high], 0) == [Probe(agent, high, 0)];
    assert AllProbes([call]) == [Probe(agent, high, 0)];
    assert LastConcern(r, agent, high.target, [Probe(agent, high, 0)], 0);
    FiringAfterLoadIff([r], [call], 0, agent, high.target);
    FailedProbeResolvesIff([r], [call], 0, Probe(agent, failed, 1));
  }

  // And there is such a run: a slow ping, then one without an answer.
  lemma FailedProbeWitness() returns (ops: seq<Op>, p: Probe, key: string)
    ensures !p.metric.success && StateOf(Exec(ops), key).firing
    ensures ResolvedSince(Exec(ops + [Evaluate(p.agent, [p.metric], p.now)]).trace, |Exec(ops).trace|, key)
  {
    var r := Rule("slow", "slow", "", "", "", "latency_ms", true, 100.0, 300, "warning", false);
    var high := Metric(IcmpPing, "host", true, "", Some(200.0), None, None, None, None);
    var failed := Metric(IcmpPing, "host", false, "", None, None, None, None, None);
    ops, p := [Load([r]), Evaluate("a", [high], 0)], Probe("a", failed, 1);
    key := StateKey(r.id, "a", "host");
    assert |r.checkType| == 0;
    FailedProbeResolves(r, "a", high, failed);
  }
}
