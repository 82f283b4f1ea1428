/** What alert rules mean, said once more without the tests the code makes: which probes a rule looks
    at, when it fires, and what it records. */
module AlertMeaning {
  import opened Common
  import opened AlertRules
  import opened AlertKeys
  import opened AlertEngine
  import opened AlertVerdicts

  // The name by which a rule file calls a check type.
  ghost predicate Named(t: CheckType, s: string) {
    match t
    case Unspecified => false
    case DnsResolution => s == "dns_resolution"
    case TcpConnect => s == "tcp_connect"
    case TlsHandshake => s == "tls_handshake"
    case HttpRequest => s == "http_request"
    case IcmpPing => s == "icmp_ping"
    case Jitter => s == "jitter"
    case TlsCertificate => s == "tls_certificate"
    case TcpRetransmit => s == "tcp_retransmit"
    case DnsRecord => s == "dns_record"
    case TcpHandshake => s == "tcp_handshake"
    case NtpOffset => s == "ntp_offset"
  }

  // An empty agent or target excludes nothing, and neither does a check type that is no type's name.
  ghost predicate LooksAt(r: Rule, agent: string, m: Metric) {
    && (r.agentId == "" || r.agentId == agent)
    && (r.target == "" || r.target == m.target)
    && forall t :: Named(t, r.checkType) ==> t == m.checkType
  }

  // The field a rule names has this value.
  ghost predicate HasValue(m: Metric, field: string, x: real) {
    || (field == "latency_ms" && m.latencyMs == Some(x))
    || (field == "packet_loss_pct" && m.packetLossPct == Some(x))
    || (field == "jitter_ms" && m.jitterMs == Some(x))
    || (field == "rtt_ms" && m.rttMs == Some(x))
    || (field == "status_code" && m.statusCode.Some? && m.statusCode.value as real == x)
  }

  ghost predicate Beyond(r: Rule, x: real) {
    (r.greaterThan && x > r.threshold) || (!r.greaterThan && x < r.threshold)
  }

  ghost predicate ShouldFire(r: Rule, m: Metric) {
    if r.onFailure then !m.success else m.success && exists x :: HasValue(m, r.metricField, x) && Beyond(r, x)
  }

  // ----- the code's tests decide exactly this -----

  lemma NamesDiffer(s: string, t: CheckType, u: CheckType)
    requires Named(t, s) && Named(u, s)
    ensures t == u
  {
    assert |s| in {6, 9, 10, 11, 12, 13, 14, 15};
  }

  lemma NamesAreRead(s: string, t: CheckType)
    ensures CheckTypeFromString(s) == Some(t) <==> Named(t, s)
  {
    if CheckTypeFromString(s).Some? {
      assert Named(CheckTypeFromString(s).value, s);
      if Named(t, s) { NamesDiffer(s, t, CheckTypeFromString(s).value); }
    }
  }

  lemma MatchesIff(r: Rule, agent: string, m: Metric)
    ensures Matches(r, agent, m) <==> LooksAt(r, agent, m)
  {
    forall t ensures CheckTypeFromString(r.checkType) == Some(t) <==> Named(t, r.checkType) {
      NamesAreRead(r.checkType, t);
    }
  }

  lemma FieldsDiffer(f: string)
    ensures f == "latency_ms" ==> |f| == 10
    ensures f == "packet_loss_pct" ==> |f| == 15
    ensures f == "jitter_ms" ==> |f| == 9
    ensures f == "rtt_ms" ==> |f| == 6
    ensures f == "status_code" ==> |f| == 11
  {
  }

  lemma ValueIff(m: Metric, field: string, x: real)
    ensures MetricValue(m, field) == Some(x) <==> HasValue(m, field, x)
  {
    FieldsDiffer(field);
  }

  lemma ViolatedIff(r: Rule, m: Metric)
    ensures Violated(r, m) <==> ShouldFire(r, m)
  {
    forall x ensures MetricValue(m, r.metricField) == Some(x) <==> HasValue(m, r.metricField, x) {
      ValueIff(m, r.metricField, x);
    }
    if Violated(r, m) && !r.onFailure { assert HasValue(m, r.metricField, MetricValue(m, r.metricField).value); }
  }

  // ----- one probe, from any state -----

  // What the rule's state for this probe's agent and target is after the probe.
  ghost function StateAfter(e: Engine, p: Probe, k: nat): FiringState
    requires k < |e.rules|
  {
    StateOf(Apply(e, Evaluate(p.agent, [p.metric], p.now)), StateKey(e.rules[k].id, p.agent, p.metric.target))
  }

  // A rule that does not look at the probe keeps its state; one that does fires exactly when it should.
  lemma ProbeVerdict(e: Engine, p: Probe, k: nat)
    requires CleanRules(e.rules) && SEP !in p.agent && k < |e.rules|
    ensures if LooksAt(e.rules[k], p.agent, p.metric)
      then StateAfter(e, p, k).firing <==> ShouldFire(e.rules[k], p.metric)
      else StateAfter(e, p, k) == StateOf(e, StateKey(e.rules[k].id, p.agent, p.metric.target))
  {
    OneProbe(e, p);
    EvalRulesAt(e, p, |e.rules|, k, p.agent, p.metric.target);
    MatchesIff(e.rules[k], p.agent, p.metric);
    ViolatedIff(e.rules[k], p.metric);
  }

  lemma OnFailureFiresIff(e: Engine, p: Probe, k: nat)
    requires CleanRules(e.rules) && SEP !in p.agent && k < |e.rules|
    requires LooksAt(e.rules[k], p.agent, p.metric) && e.rules[k].onFailure
    ensures StateAfter(e, p, k).firing <==> !p.metric.success
  {
    ProbeVerdict(e, p, k);
  }

  // The value is there and on the wrong side of the threshold.
  ghost predicate Crosses(r: Rule, v: Option<real>) {
    v.Some? && if r.greaterThan then v.value > r.threshold else v.value < r.threshold
  }

  lemma FieldFiresIff(e: Engine, p: Probe, k: nat)
    requires CleanRules(e.rules) && SEP !in p.agent && k < |e.rules|
    requires LooksAt(e.rules[k], p.agent, p.metric) && !e.rules[k].onFailure
    ensures var r, m, firing := e.rules[k], p.metric, StateAfter(e, p, k).firing;
      && (r.metricField == "latency_ms" ==> (firing <==> m.success && Crosses(r, m.latencyMs)))
      && (r.metricField == "packet_loss_pct" ==> (firing <==> m.success && Crosses(r, m.packetLossPct)))
      && (r.metricField == "jitter_ms" ==> (firing <==> m.success && Crosses(r, m.jitterMs)))
      && (r.metricField == "rtt_ms" ==> (firing <==> m.success && Crosses(r, m.rttMs)))
      && (r.metricField == "status_code" ==> (firing <==> m.success && m.statusCode.Some?
                                                          && Crosses(r, Some(m.statusCode.value as real))))
      && (r.metricField !in {"latency_ms", "packet_loss_pct", "jitter_ms", "rtt_ms", "status_code"} ==> !firing)
      && (HasValue(m, r.metricField, r.threshold) ==> !firing)
  {
    var r, m := e.rules[k], p.metric;
    ProbeVerdict(e, p, k);
    FieldsDiffer(r.metricField);
    ValueCrosses(r, m);
  }

  lemma ValueCrosses(r: Rule, m: Metric)
    requires !r.onFailure
    ensures ShouldFire(r, m) <==> m.success && Crosses(r, MetricValue(m, r.metricField))
  {
    ViolatedIff(r, m);
  }

  // ----- the last probe of a run -----

  // The last probe of this agent and target that the rule looks at.
  ghost predicate LastLook(r: Rule, agent: string, target: string, probes: seq<Probe>, i: int) {
    && 0 <= i < |probes| && Looks(r, agent, target, probes[i])
    && forall j :: i < j < |probes| ==> !Looks(r, agent, target, probes[j])
  }

  ghost predicate Looks(r: Rule, agent: string, target: string, p: Probe) {
    p.agent == agent && p.metric.target == target && LooksAt(r, agent, p.metric)
  }

  // After loading rules and any number of calls an alert is firing if and only if the last probe its
  // rule looks at calls for it.
  lemma FiringIffLastProbeCallsForIt(rules: seq<Rule>, calls: seq<Op>, k: nat, agent: string, target: string)
    requires forall c :: c in calls ==> c.Evaluate?
    requires CleanRules(rules) && CleanProbes(AllProbes(calls)) && SEP !in agent && k < |rules|
    ensures var probes := AllProbes(calls);
      StateOf(Exec([Load(rules)] + calls), StateKey(rules[k].id, agent, target)).firing
      <==> exists i :: LastLook(rules[k], agent, target, probes, i) && ShouldFire(rules[k], probes[i].metric)
  {
    var r, probes := rules[k], AllProbes(calls);
    FiringAfterLoadIff(rules, calls, k, agent, target);
    forall p: Probe ensures Concerns(r, agent, target, p) <==> Looks(r, agent, target, p) {
      MatchesIff(r, agent, p.metric);
    }
    forall i ensures LastConcern(r, agent, target, probes, i) <==> LastLook(r, agent, target, probes, i) {
    }
    forall m ensures Violated(r, m) <==> ShouldFire(r, m) {
      ViolatedIff(r, m);
    }
  }

  // With an on_failure rule that is the last one that failed, with a field rule one that succeeded
  // with a value beyond the threshold.
  lemma LastLookDecides(rules: seq<Rule>, calls: seq<Op>, k: nat, agent: string, target: string, i: nat)
    requires forall c :: c in calls ==> c.Evaluate?
    requires CleanRules(rules) && CleanProbes(AllProbes(calls)) && SEP !in agent && k < |rules|
    requires LastLook(rules[k], agent, target, AllProbes(calls), i)
    ensures var r, m := rules[k], AllProbes(calls)[i].metric;
      StateOf(Exec([Load(rules)] + calls), StateKey(r.id, agent, target)).firing
      <==> if r.onFailure then !m.success
           else m.success && exists x :: HasValue(m, r.metricField, x) && Beyond(r, x)
  {
    FiringIffLastProbeCallsForIt(rules, calls, k, agent, target);
  }

  // ----- what is recorded -----

  // The name under which a check type is written into a record.
  ghost function Written(t: CheckType): string {
    if t == DnsResolution then "dns_resolution" else if t == TcpConnect then "tcp_connect"
    else if t == TlsHandshake then "tls_handshake" else if t == HttpRequest then "http_request"
    else if t == IcmpPing then "icmp_ping" else if t == Jitter then "jitter" else "unspecified"
  }

  // The value a rule that fires has seen; on_failure rules have none.
  ghost predicate Seen(r: Rule, m: Metric, x: real) {
    if r.onFailure then x == 0.0 else HasValue(m, r.metricField, x)
  }

  ghost function Recorded(r: Rule, p: Probe, firing: bool, x: real, detail: string): Record {
    Record(r.id, r.name, p.agent, Written(p.metric.checkType), p.metric.target, r.severity, firing, x,
           r.threshold, detail, p.now)
  }

  // The first firing starts an episode at this probe's time, with its value.
  lemma FirstFiring(e: Engine, p: Probe, r: Rule, x: real)
    requires LooksAt(r, p.agent, p.metric) && ShouldFire(r, p.metric) && Seen(r, p.metric, x)
    requires !StateOf(e, StateKey(r.id, p.agent, p.metric.target)).firing
    ensures var key, e' := r.id + [SEP] + p.agent + [SEP] + p.metric.target, EvalRule(e, p, r);
      && e'.trace == e.trace
           + [Fired(key, Recorded(r, p, true, x, p.metric.detail), true, 1000 * r.repeatIntervalSec)]
      && e'.states == e.states[key := FiringState(true, StateOf(e, key).acknowledged, p.now, p.now, x,
                                                  if r.onFailure then p.metric.detail else "")]
  {
    MatchesIff(r, p.agent, p.metric);
    ViolatedIff(r, p.metric);
    ValueIff(p.metric, r.metricField, x);
  }

  // Later ones are repeated when the interval has passed since the last notification, and keep the
  // time of the first; otherwise nothing is recorded.
  lemma RepeatedFiring(e: Engine, p: Probe, r: Rule, x: real)
    requires LooksAt(r, p.agent, p.metric) && ShouldFire(r, p.metric) && Seen(r, p.metric, x)
    requires StateOf(e, StateKey(r.id, p.agent, p.metric.target)).firing
    ensures var key, e' := r.id + [SEP] + p.agent + [SEP] + p.metric.target, EvalRule(e, p, r);
      if p.now >= StateOf(e, key).lastNotifiedMs + 1000 * r.repeatIntervalSec then
        && e'.trace == e.trace
             + [Fired(key, Recorded(r, p, true, x, p.metric.detail), false, 1000 * r.repeatIntervalSec)]
        && e'.states == e.states[key := FiringState(true, e.states[key].acknowledged, e.states[key].firstFiredMs,
                                                    p.now, x, if r.onFailure then p.metric.detail else "")]
      else e'.trace == e.trace && e'.states == e.states
  {
    MatchesIff(r, p.agent, p.metric);
    ViolatedIff(r, p.metric);
    ValueIff(p.metric, r.metricField, x);
  }

  // A probe that does not call for firing ends an episode with the last value and detail, and leaves
  // everything else as it was.
  lemma Resolving(e: Engine, p: Probe, r: Rule)
    requires LooksAt(r, p.agent, p.metric) && !ShouldFire(r, p.metric)
    ensures var key, e' := r.id + [SEP] + p.agent + [SEP] + p.metric.target, EvalRule(e, p, r);
      var st := StateOf(e, key);
      if st.firing then
        && e'.trace == e.trace + [Resolved(key, Recorded(r, p, false, st.lastValue, st.lastDetail))]
        && e'.states == e.states[key := FiringState(false, false, 0, 0, 0.0, "")]
      else e'.trace == e.trace && e'.states == e.states[key := st]
  {
    MatchesIff(r, p.agent, p.metric);
    ViolatedIff(r, p.metric);
  }
}
