/** An agent's probe configuration on its way to the dashboard form and back: printed as one line
    of key=value fields, parsed into a form, split into lists again and sent to Reconfigure. */
module ConfigSummary {
  import opened Common
  import opened Decimal
  import opened Strings

  datatype ProbeConfig = ProbeConfig(
    dns: seq<string>, tcp: seq<string>, tls: seq<string>, http: seq<string>, ping: seq<string>,
    pingCount: int, pingGapMs: int, tlsCert: bool, tcpRetransmit: bool, tcpHandshake: bool,
    httpProtocols: seq<string>, dnsExpected: map<string, seq<string>>, ntpCheck: bool)

  const DEFAULT_PING_COUNT := 4
  const DEFAULT_PING_GAP_MS := 200

  // White space as \s and trim() of ECMAScript understand it.
  predicate IsSpace(c: char) {
    c in "\t\n\r \U{0b}\U{0c}\U{a0}\U{1680}\U{2028}\U{2029}\U{202f}\U{205f}\U{3000}\U{feff}"
    || '\U{2000}' <= c <= '\U{200a}'
  }

  predicate NoSpace(s: string) { forall i :: 0 <= i < |s| ==> !IsSpace(s[i]) }

  predicate Without(s: string, c: char) { forall i :: 0 <= i < |s| ==> s[i] != c }

  // ----- the agent prints -----

  function Join(items: seq<string>, sep: char): string {
    if items == [] then "" else if |items| == 1 then items[0] else items[0] + [sep] + Join(items[1..], sep)
  }

  lemma {:induction false} JoinAppend(items: seq<string>, x: string, sep: char)
    requires items != []
    ensures Join(items + [x], sep) == Join(items, sep) + [sep] + x
  {
    if |items| == 1 {
      assert (items + [x])[1..] == [x];
    } else {
      JoinAppend(items[1..], x, sep);
      assert (items + [x])[1..] == items[1..] + [x];
    }
  }

  method JoinList(items: seq<string>) returns (s: string)
    ensures s == Join(items, ',')
  {
    s := "";
    var i := 0;
    while i < |items|
      invariant 0 <= i <= |items| && s == Join(items[..i], ',')
    {
      assert items[..i + 1] == items[..i] + [items[i]];
      if i > 0 {
        JoinAppend(items[..i], items[i], ',');
        s := s + ",";
      }
      s := s + items[i];
      i := i + 1;
    }
    assert items[..|items|] == items;
  }

  function OnOff(b: bool): string { if b then "on" else "off" }

  datatype Field = Field(key: string, value: string) {
    function Text(): string { key + "=" + value }
  }

  function Fields(c: ProbeConfig): seq<Field> {
    [ Field("dns", Join(c.dns, ',')), Field("tcp", Join(c.tcp, ',')), Field("tls", Join(c.tls, ',')),
      Field("http", Join(c.http, ',')), Field("ping", Join(c.ping, ',')),
      Field("ping_count", IntToString(c.pingCount)), Field("ping_gap_ms", IntToString(c.pingGapMs)),
      Field("tls_cert", OnOff(c.tlsCert)), Field("tcp_retransmit", OnOff(c.tcpRetransmit)),
      Field("tcp_handshake", OnOff(c.tcpHandshake)), Field("http_protocols", Join(c.httpProtocols, ',')) ]
  }

  function Texts(fields: seq<Field>): (ts: seq<string>)
    ensures |ts| == |fields| && forall i :: 0 <= i < |ts| ==> ts[i] == fields[i].Text()
  {
    seq(|fields|, i requires 0 <= i < |fields| => fields[i].Text())
  }

  function SummaryOf(c: ProbeConfig): string { Join(Texts(Fields(c)), ' ') }

  lemma JoinNext(words: seq<string>, k: nat, sep: char)
    requires 0 < k < |words|
    ensures Join(words[..k + 1], sep) == Join(words[..k], sep) + [sep] + words[k]
  {
    assert words[..k + 1] == words[..k] + [words[k]];
    JoinAppend(words[..k], words[k], sep);
  }

  // The fields of the line, spelled out.
  function Spelled(c: ProbeConfig): seq<string> {
    [ "dns=" + Join(c.dns, ','), "tcp=" + Join(c.tcp, ','), "tls=" + Join(c.tls, ','),
      "http=" + Join(c.http, ','), "ping=" + Join(c.ping, ','),
      "ping_count=" + IntToString(c.pingCount), "ping_gap_ms=" + IntToString(c.pingGapMs),
      "tls_cert=" + (if c.tlsCert then "on" else "off"),
      "tcp_retransmit=" + (if c.tcpRetransmit then "on" else "off"),
      "tcp_handshake=" + (if c.tcpHandshake then "on" else "off"),
      "http_protocols=" + Join(c.httpProtocols, ',') ]
  }

  lemma SummaryIsSpelled(c: ProbeConfig)
    ensures SummaryOf(c) == Join(Spelled(c), ' ')
  {
    assert "dns" + "=" == "dns=" && "tcp" + "=" == "tcp=" && "tls" + "=" == "tls=";
    assert "http" + "=" == "http=" && "ping" + "=" == "ping=";
    assert "ping_count" + "=" == "ping_count=" && "ping_gap_ms" + "=" == "ping_gap_ms=";
    assert "tls_cert" + "=" == "tls_cert=" && "tcp_retransmit" + "=" == "tcp_retransmit=";
    assert "tcp_handshake" + "=" == "tcp_handshake=" && "http_protocols" + "=" == "http_protocols=";
    assert Texts(Fields(c)) == Spelled(c);
  }

  // Writes the k-th of the words, a field, behind the ones before it.
  method PrintField(s: string, key: string, value: string, ghost words: seq<string>, ghost k: nat)
    returns (r: string)
    requires 0 < k < |words| && s == Join(words[..k], ' ') && words[k] == Field(key, value).Text()
    ensures r == Join(words[..k + 1], ' ')
  {
    JoinNext(words, k, ' ');
    r := s + [' '] + (key + "=" + value);
  }

  // The summary as it is written, field by field.
  method Summarize(c: ProbeConfig) returns (s: string)
    ensures s == SummaryOf(c)
  {
    ghost var words := Texts(Fields(c));
    s := PrintTargets(c, words);
    s := PrintSettings(s, c, words);
    var protocols := JoinList(c.httpProtocols);
    s := PrintField(s, "http_protocols", protocols, words, 10);
    assert words[..11] == words;
  }

  method PrintTargets(c: ProbeConfig, ghost words: seq<string>) returns (s: string)
    requires words == Texts(Fields(c))
    ensures s == Join(words[..5], ' ')
  {
    var dns := JoinList(c.dns);
    s := "dns" + "=" + dns;
    assert words[..1] == [s];
    var tcp := JoinList(c.tcp);
    s := PrintField(s, "tcp", tcp, words, 1);
    var tls := JoinList(c.tls);
    s := PrintField(s, "tls", tls, words, 2);
    var http := JoinList(c.http);
    s := PrintField(s, "http", http, words, 3);
    var ping := JoinList(c.ping);
    s := PrintField(s, "ping", ping, words, 4);
  }

  method PrintSettings(before: string, c: ProbeConfig, ghost words: seq<string>) returns (s: string)
    requires words == Texts(Fields(c)) && before == Join(words[..5], ' ')
    ensures s == Join(words[..10], ' ')
  {
    s := PrintField(before, "ping_count", IntToString(c.pingCount), words, 5);
    s := PrintField(s, "ping_gap_ms", IntToString(c.pingGapMs), words, 6);
    s := PrintField(s, "tls_cert", OnOff(c.tlsCert), words, 7);
    s := PrintField(s, "tcp_retransmit", OnOff(c.tcpRetransmit), words, 8);
    s := PrintField(s, "tcp_handshake", OnOff(c.tcpHandshake), words, 9);
  }

  // ----- the dashboard parses -----

  // Length of the leading run of characters that are, or are not, white space.
  function Run(s: string, space: bool): (n: nat)
    ensures n <= |s| && (forall i :: 0 <= i < n ==> IsSpace(s[i]) == space)
    ensures n < |s| ==> IsSpace(s[n]) != space
  {
    if s == [] || IsSpace(s[0]) != space then 0 else 1 + Run(s[1..], space)
  }

  // The non-empty pieces of a split on white space; empty ones hold no '=' and are skipped anyway.
  function Tokens(s: string): seq<string>
    decreases |s|
  {
    var a := Run(s, true);
    var rest := s[a..];
    if rest == [] then []
    else
      var b := Run(rest, false);
      [rest[..b]] + Tokens(rest[b..])
  }

  // Later fields override earlier ones; words without a key are ignored.
  function FieldMap(words: seq<string>): map<string, string> {
    if words == [] then map[]
    else
      var before, w := FieldMap(words[..|words| - 1]), words[|words| - 1];
      var eq := IndexOf(w, '=');
      if 0 < eq < |w| then before[w[..eq] := w[eq + 1..]] else before
  }

  datatype Form = Form(
    dns: string, tcp: string, tls: string, http: string, ping: string, pingCount: string, pingGap: string,
    tlsCert: bool, tcpRetransmit: bool, tcpHandshake: bool, httpProtocols: string)

  function Get(fields: map<string, string>, key: string): string { if key in fields then fields[key] else "" }

  function OrElse(s: string, other: string): string { if s == "" then other else s }

  function FormOf(f: map<string, string>): Form {
    Form(Get(f, "dns"), Get(f, "tcp"), Get(f, "tls"), Get(f, "http"), Get(f, "ping"),
         OrElse(Get(f, "ping_count"), "4"), OrElse(Get(f, "ping_gap_ms"), "200"),
         Get(f, "tls_cert") != "off", Get(f, "tcp_retransmit") != "off", Get(f, "tcp_handshake") != "off",
         Get(f, "http_protocols"))
  }

  method ParseApplied(applied: string) returns (form: Form)
    ensures form == FormOf(FieldMap(Tokens(applied)))
    ensures var f := FieldMap(Tokens(applied));
      && form.pingCount == (if "ping_count" in f && f["ping_count"] != "" then f["ping_count"] else "4")
      && form.pingGap == (if "ping_gap_ms" in f && f["ping_gap_ms"] != "" then f["ping_gap_ms"] else "200")
      && (form.tlsCert <==> !("tls_cert" in f && f["tls_cert"] == "off"))
      && (form.tcpRetransmit <==> !("tcp_retransmit" in f && f["tcp_retransmit"] == "off"))
      && (form.tcpHandshake <==> !("tcp_handshake" in f && f["tcp_handshake"] == "off"))
  {
    var words, fields: map<string, string> := Tokens(applied), map[];
    var i := 0;
    while i < |words|
      invariant 0 <= i <= |words| && fields == FieldMap(words[..i])
    {
      assert words[..i + 1][..i] == words[..i];
      var eq := IndexOf(words[i], '=');
      if 0 < eq < |words[i]| {
        fields := fields[words[i][..eq] := words[i][eq + 1..]];
      }
      i := i + 1;
    }
    assert words[..|words|] == words;
    form := FormOf(fields);
  }

  // ----- the dashboard splits and sends -----

  function SplitComma(s: string): (ps: seq<string>)
    ensures ps != [] && forall i :: 0 <= i < |ps| ==> Without(ps[i], ',')
    ensures NoSpace(s) ==> forall i :: 0 <= i < |ps| ==> NoSpace(ps[i])
    decreases |s|
  {
    var i := IndexOf(s, ',');
    if i == |s| then [s] else [s[..i]] + SplitComma(s[i + 1..])
  }

  function TrimEnd(s: string): string {
    if s != [] && IsSpace(s[|s| - 1]) then TrimEnd(s[..|s| - 1]) else s
  }

  function Trim(s: string): string { TrimEnd(s[Run(s, true)..]) }

  function KeepNonEmpty(ps: seq<string>): seq<string> {
    if ps == [] then []
    else (if |Trim(ps[0])| > 0 then [Trim(ps[0])] else []) + KeepNonEmpty(ps[1..])
  }

  function SplitList(s: string): seq<string> { KeepNonEmpty(SplitComma(s)) }

  // Number(s) || fallback, for the decimal integers a summary can hold.
  function NumberOr(s: string, fallback: int): int {
    match StringToInt(s) case Some(n) => (if n == 0 then fallback else n) case None => fallback
  }

  datatype Request = Request(
    dns: seq<string>, tcp: seq<string>, tls: seq<string>, http: seq<string>, ping: seq<string>,
    pingCount: int, pingGapMs: int, tlsCert: Option<bool>, tcpRetransmit: Option<bool>, tcpHandshake: Option<bool>,
    httpProtocols: seq<string>)

  function RequestOf(f: Form): Request {
    Request(SplitList(f.dns), SplitList(f.tcp), SplitList(f.tls), SplitList(f.http), SplitList(f.ping),
            NumberOr(f.pingCount, 4), NumberOr(f.pingGap, 200),
            Some(f.tlsCert), Some(f.tcpRetransmit), Some(f.tcpHandshake), SplitList(f.httpProtocols))
  }

  // ----- the agent reconfigures -----

  function GetOr(o: Option<bool>, default: bool): bool { match o case Some(b) => b case None => default }

  function Reconfigured(r: Request): ProbeConfig {
    ProbeConfig(r.dns, r.tcp, r.tls, r.http, r.ping,
                if r.pingCount > 0 then r.pingCount else DEFAULT_PING_COUNT,
                if r.pingGapMs > 0 then r.pingGapMs else DEFAULT_PING_GAP_MS,
                GetOr(r.tlsCert, true), GetOr(r.tcpRetransmit, true), GetOr(r.tcpHandshake, true),
                r.httpProtocols, map[], true)
  }

  // Starts from the defaults and overwrites what the request sets.
  method Fill(r: Request) returns (next: ProbeConfig)
    ensures next == Reconfigured(r)
  {
    next := ProbeConfig(r.dns, r.tcp, r.tls, r.http, r.ping, DEFAULT_PING_COUNT, DEFAULT_PING_GAP_MS,
                        true, true, true, r.httpProtocols, map[], true);
    if r.pingCount > 0 { next := next.(pingCount := r.pingCount); }
    if r.pingGapMs > 0 { next := next.(pingGapMs := r.pingGapMs); }
    if r.tlsCert.Some? { next := next.(tlsCert := r.tlsCert.value); }
    if r.tcpRetransmit.Some? { next := next.(tcpRetransmit := r.tcpRetransmit.value); }
    if r.tcpHandshake.Some? { next := next.(tcpHandshake := r.tcpHandshake.value); }
  }

  class DiagnosticService {
    var cfg: ProbeConfig

    constructor (cfg: ProbeConfig)
      ensures this.cfg == cfg
    {
      this.cfg := cfg;
    }

    method Reconfigure(r: Request) returns (applied: string)
      modifies this
      ensures cfg == Reconfigured(r) && applied == SummaryOf(cfg)
      ensures (cfg.dns, cfg.tcp, cfg.tls, cfg.http, cfg.ping, cfg.httpProtocols)
           == (r.dns, r.tcp, r.tls, r.http, r.ping, r.httpProtocols)
      ensures cfg.pingCount == (if r.pingCount > 0 then r.pingCount else 4)
      ensures cfg.pingGapMs == (if r.pingGapMs > 0 then r.pingGapMs else 200)
      ensures cfg.tlsCert <==> r.tlsCert != Some(false)
      ensures cfg.tcpRetransmit <==> r.tcpRetransmit != Some(false)
      ensures cfg.tcpHandshake <==> r.tcpHandshake != Some(false)
      ensures cfg.dnsExpected == map[] && cfg.ntpCheck
    {
      cfg := Fill(r);
      applied := Summarize(cfg);
    }

    method GetConfig() returns (applied: string)
      ensures applied == SummaryOf(cfg)
    {
      applied := Summarize(cfg);
    }

    // Loading the form and saving it unchanged.
    method LoadAndSave()
      modifies this
      ensures cfg == RoundTrip(old(cfg))
    {
      var applied := GetConfig();
      var form := ParseApplied(applied);
      var _ := Reconfigure(RequestOf(form));
    }
  }

  function RoundTrip(c: ProbeConfig): ProbeConfig {
    Reconfigured(RequestOf(FormOf(FieldMap(Tokens(SummaryOf(c))))))
  }

  // ----- the round trip -----

  // What an entry needs to survive: it is not empty and holds neither a comma nor white space.
  predicate CleanItem(x: string) { x != "" && NoSpace(x) && Without(x, ',') }

  predicate CleanList(items: seq<string>) { forall i :: 0 <= i < |items| ==> CleanItem(items[i]) }

  predicate CleanLists(c: ProbeConfig) {
    CleanList(c.dns) && CleanList(c.tcp) && CleanList(c.tls) && CleanList(c.http) && CleanList(c.ping)
    && CleanList(c.httpProtocols)
  }

  lemma {:induction false} JoinNoSpace(items: seq<string>)
    requires CleanList(items)
    ensures NoSpace(Join(items, ','))
  {
    if |items| > 1 {
      JoinNoSpace(items[1..]);
      assert !IsSpace(',');
    }
  }

  lemma RunStops(a: string, b: string, space: bool)
    requires forall i :: 0 <= i < |a| ==> IsSpace(a[i]) == space
    requires b == "" || IsSpace(b[0]) != space
    ensures Run(a + b, space) == |a|
  {
    var n := Run(a + b, space);
    assert forall i :: 0 <= i < |a| ==> (a + b)[i] == a[i];
    assert b != "" ==> (a + b)[|a|] == b[0];
  }

  lemma FirstToken(w: string, rest: string)
    requires w != "" && NoSpace(w) && (rest == "" || IsSpace(rest[0]))
    ensures Tokens(w + rest) == [w] + Tokens(rest)
  {
    RunStops("", w + rest, true);
    assert "" + (w + rest) == w + rest;
    RunStops(w, rest, false);
    assert (w + rest)[..|w|] == w && (w + rest)[|w|..] == rest;
    assert (w + rest)[0..] == w + rest;
  }

  lemma SkipSpace(s: string)
    requires s != "" && !IsSpace(s[0])
    ensures Tokens(" " + s) == Tokens(s)
  {
    RunStops(" ", s, true);
    RunStops("", s, true);
    assert "" + s == s && (" " + s)[1..] == s && s[0..] == s;
  }

  lemma {:induction false} TokensOfJoin(ws: seq<string>)
    requires forall i :: 0 <= i < |ws| ==> ws[i] != "" && NoSpace(ws[i])
    ensures Tokens(Join(ws, ' ')) == ws
  {
    if |ws| == 1 {
      FirstToken(ws[0], "");
      assert ws[0] + "" == ws[0] && Tokens("") == [];
      assert ws == [ws[0]];
    } else if |ws| > 1 {
      TokensOfJoin(ws[1..]);
      JoinStarts(ws[1..]);
      TokenAndRest(ws[0], Join(ws[1..], ' '));
      assert ws == [ws[0]] + ws[1..];
    }
  }

  lemma TokenAndRest(w: string, more: string)
    requires w != "" && NoSpace(w) && more != "" && !IsSpace(more[0])
    ensures Tokens(w + [' '] + more) == [w] + Tokens(more)
  {
    SkipSpace(more);
    FirstToken(w, " " + more);
    assert w + [' '] + more == w + (" " + more);
  }

  lemma JoinStarts(ws: seq<string>)
    requires ws != [] && ws[0] != "" && NoSpace(ws[0])
    ensures Join(ws, ' ') != "" && !IsSpace(Join(ws, ' ')[0])
  {
  }

  lemma FieldText(f: Field)
    requires f.key != "" && Without(f.key, '=')
    ensures var w := f.Text(); var eq := IndexOf(w, '=');
      0 < eq < |w| && w[..eq] == f.key && w[eq + 1..] == f.value
  {
    var w := f.Text();
    assert w[|f.key|] == '=' && forall i :: 0 <= i < |f.key| ==> w[i] == f.key[i];
  }

  // Fields with different keys are read back under their keys.
  lemma {:induction false} FieldMapReads(fields: seq<Field>, i: nat)
    requires i < |fields|
    requires forall j :: 0 <= j < |fields| ==> fields[j].key != "" && Without(fields[j].key, '=')
    requires forall j, k :: 0 <= j < k < |fields| ==> fields[j].key != fields[k].key
    ensures Get(FieldMap(Texts(fields)), fields[i].key) == fields[i].value
  {
    var front, last := fields[..|fields| - 1], fields[|fields| - 1];
    assert Texts(fields)[..|fields| - 1] == Texts(front);
    FieldText(last);
    if i < |front| { FieldMapReads(front, i); }
  }

  lemma {:induction false} SplitOfJoin(items: seq<string>)
    requires items != [] && forall i :: 0 <= i < |items| ==> Without(items[i], ',')
    ensures SplitComma(Join(items, ',')) == items
  {
    if |items| == 1 {
      assert IndexOf(items[0], ',') == |items[0]|;
    } else {
      SplitFirst(items[0], Join(items[1..], ','));
      SplitOfJoin(items[1..]);
    }
  }

  lemma SplitFirst(x: string, more: string)
    requires Without(x, ',')
    ensures SplitComma(x + [','] + more) == [x] + SplitComma(more)
  {
    var s := x + [','] + more;
    assert s[|x|] == ',' && forall i :: 0 <= i < |x| ==> s[i] == x[i];
    assert IndexOf(s, ',') == |x| && s[..|x|] == x && s[|x| + 1..] == more;
  }

  lemma TrimKeeps(x: string)
    requires NoSpace(x)
    ensures Trim(x) == x
  {
    RunStops("", x, true);
    assert "" + x == x && x[0..] == x;
  }

  lemma {:induction false} KeepAll(items: seq<string>)
    requires CleanList(items)
    ensures KeepNonEmpty(items) == items
  {
    if items != [] {
      TrimKeeps(items[0]);
      KeepAll(items[1..]);
    }
  }

  lemma ListRoundTrip(items: seq<string>)
    requires CleanList(items)
    ensures SplitList(Join(items, ',')) == items
  {
    if items == [] {
      assert SplitComma("") == [""];
      TrimKeeps("");
    } else {
      SplitOfJoin(items);
      KeepAll(items);
    }
  }

  // Whatever is read from a line without white space inside its words comes out clean.
  lemma {:induction false} KeptAreClean(ps: seq<string>)
    requires forall i :: 0 <= i < |ps| ==> NoSpace(ps[i]) && Without(ps[i], ',')
    ensures CleanList(KeepNonEmpty(ps))
  {
    if ps != [] {
      TrimKeeps(ps[0]);
      KeptAreClean(ps[1..]);
    }
  }

  lemma {:induction false} TokensNoSpace(s: string)
    ensures forall i :: 0 <= i < |Tokens(s)| ==> NoSpace(Tokens(s)[i])
    decreases |s|
  {
    var rest := s[Run(s, true)..];
    if rest != [] { TokensNoSpace(rest[Run(rest, false)..]); }
  }

  lemma {:induction false} ValuesNoSpace(ws: seq<string>, key: string)
    requires forall i :: 0 <= i < |ws| ==> NoSpace(ws[i])
    ensures NoSpace(Get(FieldMap(ws), key))
  {
    if ws != [] { ValuesNoSpace(ws[..|ws| - 1], key); }
  }

  lemma ReadListIsClean(s: string, key: string)
    ensures CleanList(SplitList(Get(FieldMap(Tokens(s)), key)))
  {
    TokensNoSpace(s);
    ValuesNoSpace(Tokens(s), key);
    KeptAreClean(SplitComma(Get(FieldMap(Tokens(s)), key)));
  }

  lemma RoundTripIsClean(c: ProbeConfig)
    ensures CleanLists(RoundTrip(c)) && RoundTrip(c).pingCount > 0 && RoundTrip(c).pingGapMs > 0
  {
    var s := SummaryOf(c);
    ReadListIsClean(s, "dns");
    ReadListIsClean(s, "tcp");
    ReadListIsClean(s, "tls");
    ReadListIsClean(s, "http");
    ReadListIsClean(s, "ping");
    ReadListIsClean(s, "http_protocols");
  }

  // A key of lower-case letters and underscores.
  predicate PlainKey(k: string) { k != "" && forall i :: 0 <= i < |k| ==> 'a' <= k[i] <= 'z' || k[i] == '_' }

  lemma PlainKeyIsGood(k: string)
    requires PlainKey(k)
    ensures Without(k, '=') && NoSpace(k)
  {
  }

  lemma ListKeys()
    ensures PlainKey("dns") && PlainKey("tcp") && PlainKey("tls") && PlainKey("http") && PlainKey("ping")
    ensures PlainKey("http_protocols")
  {
  }

  lemma OtherKeys()
    ensures PlainKey("ping_count") && PlainKey("ping_gap_ms") && PlainKey("tls_cert")
    ensures PlainKey("tcp_retransmit") && PlainKey("tcp_handshake")
  {
  }

  lemma KeysArePlain(c: ProbeConfig, i: nat)
    requires i < 11
    ensures PlainKey(Fields(c)[i].key)
  {
    ListKeys();
    OtherKeys();
  }

  // The keys differ in length, or else in a letter.
  lemma KeyShapes(c: ProbeConfig)
    ensures var fs := Fields(c);
      && |fs[0].key| == 3 && fs[0].key[2] == 's' && |fs[1].key| == 3 && fs[1].key[2] == 'p'
      && |fs[2].key| == 3 && fs[2].key[1] == 'l' && |fs[3].key| == 4 && fs[3].key[0] == 'h'
      && |fs[4].key| == 4 && fs[4].key[0] == 'p' && |fs[5].key| == 10 && |fs[6].key| == 11
      && |fs[7].key| == 8 && |fs[8].key| == 14 && fs[8].key[0] == 't' && |fs[9].key| == 13
      && |fs[10].key| == 14 && fs[10].key[0] == 'h' && fs[0].key[1] == 'n'
  {
  }

  lemma KeysDiffer(c: ProbeConfig, i: nat, j: nat)
    requires i < j < 11
    ensures Fields(c)[i].key != Fields(c)[j].key
  {
    KeyShapes(c);
  }

  lemma JoinsNoSpace(c: ProbeConfig)
    requires CleanLists(c)
    ensures NoSpace(Join(c.dns, ',')) && NoSpace(Join(c.tcp, ',')) && NoSpace(Join(c.tls, ','))
    ensures NoSpace(Join(c.http, ',')) && NoSpace(Join(c.ping, ',')) && NoSpace(Join(c.httpProtocols, ','))
  {
    JoinNoSpace(c.dns);
    JoinNoSpace(c.tcp);
    JoinNoSpace(c.tls);
    JoinNoSpace(c.http);
    JoinNoSpace(c.ping);
    JoinNoSpace(c.httpProtocols);
  }

  lemma NumberNoSpace(n: int)
    ensures NoSpace(IntToString(n))
  {
    var s := IntToString(n);
    forall i | 0 <= i < |s| ensures !IsSpace(s[i]) {
      assert IsDigit(s[i]) || s[i] == '-';
    }
  }

  lemma OnOffNoSpace(b: bool)
    ensures NoSpace(OnOff(b))
  {
  }

  lemma ListIsGood(c: ProbeConfig, i: nat)
    requires CleanLists(c) && (i < 5 || i == 10)
    ensures NoSpace(Fields(c)[i].value)
  {
    JoinsNoSpace(c);
  }

  lemma NumberIsGood(c: ProbeConfig, i: nat)
    requires i == 5 || i == 6
    ensures NoSpace(Fields(c)[i].value)
  {
    NumberNoSpace(if i == 5 then c.pingCount else c.pingGapMs);
  }

  lemma SwitchIsGood(c: ProbeConfig, i: nat)
    requires 7 <= i < 10
    ensures NoSpace(Fields(c)[i].value)
  {
    OnOffNoSpace(if i == 7 then c.tlsCert else if i == 8 then c.tcpRetransmit else c.tcpHandshake);
  }

  lemma ValueIsGood(c: ProbeConfig, i: nat)
    requires CleanLists(c) && i < 11
    ensures NoSpace(Fields(c)[i].value)
  {
    if i < 5 || i == 10 { ListIsGood(c, i); }
    else if i < 7 { NumberIsGood(c, i); }
    else { SwitchIsGood(c, i); }
  }

  lemma FieldNoSpace(f: Field)
    requires NoSpace(f.key) && NoSpace(f.value)
    ensures NoSpace(f.Text())
  {
    assert !IsSpace('=');
  }

  lemma FieldsRead(fs: seq<Field>, i: nat)
    requires i < |fs|
    requires forall k :: 0 <= k < |fs| ==> fs[k].key != "" && Without(fs[k].key, '=') && NoSpace(fs[k].Text())
    requires forall j, k :: 0 <= j < k < |fs| ==> fs[j].key != fs[k].key
    ensures Get(FieldMap(Tokens(Join(Texts(fs), ' '))), fs[i].key) == fs[i].value
  {
    TokensOfJoin(Texts(fs));
    FieldMapReads(fs, i);
  }

  // With clean lists every field of the summary is read back under its key.
  lemma SummaryReads(c: ProbeConfig, i: nat)
    requires CleanLists(c) && i < 11
    ensures Get(FieldMap(Tokens(SummaryOf(c))), Fields(c)[i].key) == Fields(c)[i].value
  {
    var fs := Fields(c);
    forall k: nat | k < 11 ensures fs[k].key != "" && Without(fs[k].key, '=') && NoSpace(fs[k].Text()) {
      KeysArePlain(c, k);
      PlainKeyIsGood(fs[k].key);
      ValueIsGood(c, k);
      FieldNoSpace(fs[k]);
    }
    forall j: nat, k: nat | j < k < 11 ensures fs[j].key != fs[k].key { KeysDiffer(c, j, k); }
    FieldsRead(fs, i);
  }

  // The form shows the lists and numbers as printed, and the switches as they are.
  lemma FormShowsConfig(c: ProbeConfig)
    requires CleanLists(c)
    ensures FormOf(FieldMap(Tokens(SummaryOf(c)))) ==
      Form(Join(c.dns, ','), Join(c.tcp, ','), Join(c.tls, ','), Join(c.http, ','), Join(c.ping, ','),
           IntToString(c.pingCount), IntToString(c.pingGapMs), c.tlsCert, c.tcpRetransmit, c.tcpHandshake,
           Join(c.httpProtocols, ','))
  {
    var f := FieldMap(Tokens(SummaryOf(c)));
    SummaryReads(c, 0);
    SummaryReads(c, 1);
    SummaryReads(c, 2);
    SummaryReads(c, 3);
    SummaryReads(c, 4);
    SummaryReads(c, 5);
    SummaryReads(c, 6);
    SummaryReads(c, 7);
    SummaryReads(c, 8);
    SummaryReads(c, 9);
    SummaryReads(c, 10);
    assert "on" != "off" by { assert |"on"| != |"off"|; }
  }

  lemma ListsRoundTrip(c: ProbeConfig)
    requires CleanLists(c)
    ensures SplitList(Join(c.dns, ',')) == c.dns && SplitList(Join(c.tcp, ',')) == c.tcp
    ensures SplitList(Join(c.tls, ',')) == c.tls && SplitList(Join(c.http, ',')) == c.http
    ensures SplitList(Join(c.ping, ',')) == c.ping && SplitList(Join(c.httpProtocols, ',')) == c.httpProtocols
  {
    ListRoundTrip(c.dns);
    ListRoundTrip(c.tcp);
    ListRoundTrip(c.tls);
    ListRoundTrip(c.http);
    ListRoundTrip(c.ping);
    ListRoundTrip(c.httpProtocols);
  }

  lemma CleanRoundTrip(c: ProbeConfig)
    requires CleanLists(c) && c.pingCount > 0 && c.pingGapMs > 0
    ensures RoundTrip(c) == c.(dnsExpected := map[], ntpCheck := true)
  {
    FormShowsConfig(c);
    ListsRoundTrip(c);
    IntRoundTrip(c.pingCount);
    IntRoundTrip(c.pingGapMs);
  }

  // Loading a configuration into the form and saving it unchanged restores everything the form
  // shows exactly when every list is clean and both numbers are positive. The expected DNS answers
  // and the NTP switch, which the form does not show, always fall back to their defaults.
  lemma RoundTripIff(c: ProbeConfig)
    ensures RoundTrip(c) == c.(dnsExpected := map[], ntpCheck := true)
       <==> CleanLists(c) && c.pingCount > 0 && c.pingGapMs > 0
  {
    if CleanLists(c) && c.pingCount > 0 && c.pingGapMs > 0 {
      CleanRoundTrip(c);
    } else {
      RoundTripIsClean(c);
    }
  }
}
