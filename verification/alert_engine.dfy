/** The alert state machine on values: one step for each (metric, rule) pair, and the rule edits.

    The trace keeps everything that ever happened, where the collector keeps only the last
    thousand records. */
module AlertEngine {
  import opened Common
  import opened AlertRules
  import opened AlertKeys

  datatype FiringState = FiringState(
    firing: bool, acknowledged: bool, firstFiredMs: int, lastNotifiedMs: int, lastValue: real, lastDetail: string)

  const IDLE := FiringState(false, false, 0, 0, 0.0, "")

  datatype Record = Record(
    ruleId: string, ruleName: string, agent: string, checkType: string, target: string, severity: string,
    firing: bool, value: real, threshold: real, detail: string, timeMs: int)

  // `opening` marks the record that started an episode; repeatMs is the interval in force.
  datatype Entry =
    | Fired(key: string, rec: Record, opening: bool, repeatMs: int)
    | Resolved(key: string, rec: Record)
    | Acked(key: string)

  datatype Probe = Probe(agent: string, metric: Metric, now: int)

  datatype Engine = Engine(rules: seq<Rule>, states: map<string, FiringState>, trace: seq<Entry>)

  function StateOf(e: Engine, key: string): FiringState {
    if key in e.states then e.states[key] else IDLE
  }

  function MakeRecord(r: Rule, p: Probe, value: real, firing: bool): Record {
    Record(r.id, r.name, p.agent, CheckTypeToString(p.metric.checkType), p.metric.target, r.severity,
           firing, value, r.threshold, p.metric.detail, p.now)
  }

  // The value and detail the state remembers for a violated rule.
  function ObservedValue(r: Rule, m: Metric): real {
    if r.onFailure then 0.0
    else match MetricValue(m, r.metricField) case Some(v) => v case None => 0.0
  }

  function ObservedDetail(r: Rule, m: Metric): string { if r.onFailure then m.detail else "" }

  // Body of Evaluate's inner loop for one rule.
  function EvalRule(e: Engine, p: Probe, r: Rule): Engine {
    if !Matches(r, p.agent, p.metric) then e
    else
      var key := StateKey(r.id, p.agent, p.metric.target);
      var st := StateOf(e, key);
      var v, d := ObservedValue(r, p.metric), ObservedDetail(r, p.metric);
      if Violated(r, p.metric) then
        if !st.firing then
          e.(states := e.states[key := FiringState(true, st.acknowledged, p.now, p.now, v, d)],
             trace := e.trace + [Fired(key, MakeRecord(r, p, v, true), true, r.repeatIntervalSec * 1000)])
        else if p.now - st.lastNotifiedMs >= r.repeatIntervalSec * 1000 then
          e.(states := e.states[key := st.(lastNotifiedMs := p.now, lastValue := v, lastDetail := d)],
             trace := e.trace + [Fired(key, MakeRecord(r, p, v, true), false, r.repeatIntervalSec * 1000)])
        else e.(states := e.states[key := st])
      else if st.firing then
        e.(states := e.states[key := IDLE],
           trace := e.trace + [Resolved(key, MakeRecord(r, p, st.lastValue, false).(detail := st.lastDetail))])
      else e.(states := e.states[key := st])
  }

  // The first n rules against one probe.
  function EvalRules(e: Engine, p: Probe, n: nat): (e': Engine)
    requires n <= |e.rules|
    ensures e'.rules == e.rules
  {
    if n == 0 then e else EvalRule(EvalRules(e, p, n - 1), p, e.rules[n - 1])
  }

  function EvalProbes(e: Engine, probes: seq<Probe>): (e': Engine)
    ensures e'.rules == e.rules
  {
    if probes == [] then e
    else
      var before := EvalProbes(e, probes[..|probes| - 1]);
      EvalRules(before, probes[|probes| - 1], |before.rules|)
  }

  // One call of Evaluate: every metric of a batch, seen at one clock reading.
  function ProbesOf(agent: string, metrics: seq<Metric>, now: int): (ps: seq<Probe>)
    ensures |ps| == |metrics| && forall i :: 0 <= i < |ps| ==> ps[i] == Probe(agent, metrics[i], now)
  {
    seq(|metrics|, i requires 0 <= i < |metrics| => Probe(agent, metrics[i], now))
  }

  predicate CanAck(e: Engine, key: string) { StateOf(e, key).firing && !StateOf(e, key).acknowledged }

  function AckKey(e: Engine, key: string): Engine {
    if !CanAck(e, key) then e
    else e.(states := e.states[key := StateOf(e, key).(acknowledged := true)], trace := e.trace + [Acked(key)])
  }

  // Replaces the first rule with this id, or appends.
  function Upserted(rules: seq<Rule>, r: Rule): seq<Rule> {
    if rules == [] then [r]
    else if rules[0].id == r.id then [r] + rules[1..]
    else [rules[0]] + Upserted(rules[1..], r)
  }

  function Without(rules: seq<Rule>, id: string): seq<Rule> {
    if rules == [] then []
    else (if rules[0].id == id then [] else [rules[0]]) + Without(rules[1..], id)
  }

  function FindRule(rules: seq<Rule>, id: string): Option<Rule> {
    if rules == [] then None
    else if rules[0].id == id then Some(rules[0])
    else FindRule(rules[1..], id)
  }

  function DeleteById(e: Engine, id: string): Engine {
    e.(rules := Without(e.rules, id),
       states := map key | key in e.states && !HasPrefix(key, id + [SEP]) :: e.states[key])
  }

  // `persisted` is whether the rules file could be written; edits are not committed otherwise.
  // ParseRule refuses an empty id, so no such rule reaches these operations.
  datatype Op =
    | Evaluate(agent: string, metrics: seq<Metric>, now: int)
    | Ack(ruleId: string, agent: string, target: string)
    | Upsert(rule: Rule, persisted: bool)
    | Delete(ruleId: string, persisted: bool)
    | Load(rules: seq<Rule>)

  function Apply(e: Engine, op: Op): Engine {
    match op
    case Evaluate(agent, metrics, now) => EvalProbes(e, ProbesOf(agent, metrics, now))
    case Ack(ruleId, agent, target) => AckKey(e, StateKey(ruleId, agent, target))
    case Upsert(rule, persisted) => if persisted then e.(rules := Upserted(e.rules, rule)) else e
    case Delete(ruleId, persisted) =>
      if ruleId == "" || FindRule(e.rules, ruleId).None? || !persisted then e else DeleteById(e, ruleId)
    case Load(rules) => e.(rules := rules, states := map[])
  }

  const EMPTY := Engine([], map[], [])

  function Exec(ops: seq<Op>): Engine {
    if ops == [] then EMPTY else Apply(Exec(ops[..|ops| - 1]), ops[|ops| - 1])
  }

  function Records(trace: seq<Entry>): seq<Record> {
    if trace == [] then []
    else
      var last := trace[|trace| - 1];
      Records(trace[..|trace| - 1]) + (if last.Acked? then [] else [last.rec])
  }

  function CountFired(trace: seq<Entry>): nat {
    if trace == [] then 0
    else CountFired(trace[..|trace| - 1]) + (if trace[|trace| - 1].Fired? then 1 else 0)
  }
}
