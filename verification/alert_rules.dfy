/** Alert rules, the metrics they look at, and when a rule matches or is violated. Metric values
    are reals; the not-a-number values a C++ double can hold are not modelled. */
module AlertRules {
  import opened Common

  datatype CheckType =
    | Unspecified | DnsResolution | TcpConnect | TlsHandshake | HttpRequest | IcmpPing | Jitter
    | TlsCertificate | TcpRetransmit | DnsRecord | TcpHandshake | NtpOffset

  datatype Metric = Metric(
    checkType: CheckType, target: string, success: bool, detail: string,
    latencyMs: Option<real>, packetLossPct: Option<real>, jitterMs: Option<real>, rttMs: Option<real>,
    statusCode: Option<int>)

  datatype Rule = Rule(
    id: string, name: string, agentId: string, checkType: string, target: string, metricField: string,
    greaterThan: bool, threshold: real, repeatIntervalSec: int, severity: string, onFailure: bool)

  function CheckTypeToString(t: CheckType): string {
    match t
    case DnsResolution => "dns_resolution"
    case TcpConnect => "tcp_connect"
    case TlsHandshake => "tls_handshake"
    case HttpRequest => "http_request"
    case IcmpPing => "icmp_ping"
    case Jitter => "jitter"
    case _ => "unspecified"
  }

  function CheckTypeFromString(s: string): Option<CheckType> {
    if s == "dns_resolution" then Some(DnsResolution)
    else if s == "tcp_connect" then Some(TcpConnect)
    else if s == "tls_handshake" then Some(TlsHandshake)
    else if s == "http_request" then Some(HttpRequest)
    else if s == "icmp_ping" then Some(IcmpPing)
    else if s == "jitter" then Some(Jitter)
    else if s == "tls_certificate" then Some(TlsCertificate)
    else if s == "tcp_retransmit" then Some(TcpRetransmit)
    else if s == "dns_record" then Some(DnsRecord)
    else if s == "tcp_handshake" then Some(TcpHandshake)
    else if s == "ntp_offset" then Some(NtpOffset)
    else None
  }

  // Documented as inverses; they are for six of the check types. The other five are written
  // "unspecified" although their own names are understood when read.
  lemma CheckTypeRoundTripIff(t: CheckType)
    ensures CheckTypeFromString(CheckTypeToString(t)) == Some(t)
       <==> t in {DnsResolution, TcpConnect, TlsHandshake, HttpRequest, IcmpPing, Jitter}
  {
    var s := CheckTypeToString(t);
    if s == "unspecified" {
      assert |s| == 11 && s[0] == 'u' && s[1] == 'n';
      assert |"tls_handshake"| == 13 && |"tcp_connect"| == 11 && "tcp_connect"[0] == 't';
      assert |"icmp_ping"| == 9 && |"dns_record"| == 10 && |"ntp_offset"| == 10;
    }
  }

  function MetricValue(m: Metric, field: string): Option<real> {
    if field == "latency_ms" && m.latencyMs.Some? then m.latencyMs
    else if field == "packet_loss_pct" && m.packetLossPct.Some? then m.packetLossPct
    else if field == "jitter_ms" && m.jitterMs.Some? then m.jitterMs
    else if field == "rtt_ms" && m.rttMs.Some? then m.rttMs
    else if field == "status_code" && m.statusCode.Some? then Some(m.statusCode.value as real)
    else None
  }

  // An empty agent, check type or target matches anything; so does a check type nobody knows.
  predicate Matches(r: Rule, agent: string, m: Metric) {
    && (r.agentId == "" || r.agentId == agent)
    && (CheckTypeFromString(r.checkType).Some? ==> CheckTypeFromString(r.checkType).value == m.checkType)
    && (r.target == "" || r.target == m.target)
  }

  // A failed probe, or one without the field, violates no field-based rule.
  predicate Violated(r: Rule, m: Metric) {
    if r.onFailure then !m.success
    else
      var v := MetricValue(m, r.metricField);
      m.success && v.Some? && (if r.greaterThan then v.value > r.threshold else v.value < r.threshold)
  }
}
