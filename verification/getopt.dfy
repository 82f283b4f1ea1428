/** The option parser used where the platform has none: a cursor over argv that moves on by one
    option a call. Strings carry no terminator; the end of a string plays the part of NUL. */
module GetOpt {
  import opened Common
  import opened Strings

  datatype HasArg = NoArgument | RequiredArgument | OptionalArgument

  // One row of the long option table; flagged means the value goes to *flag and 0 is returned.
  datatype LongOption = LongOption(name: string, hasArg: HasArg, flagged: bool, val: int)

  datatype Found = Match(index: nat) | Ambiguous | Unknown

  // What one call finds; the arguments go to optarg, and a problem sets optopt.
  datatype Parsed =
    | Stop
    | Long(index: nat, arg: Option<string>)
    | Short(c: char, arg: Option<string>)
    | Problem(missingArgument: bool, optopt: int)

  // optind, and the position inside argv[optind] of a cluster of short options being read.
  datatype Cursor = Cursor(index: nat, pos: Option<nat>)

  // strncmp(option, name, |name|) == 0
  predicate IsPrefix(name: string, option: string) { name <= option }

  predicate ExactAt(table: seq<LongOption>, name: string, i: int) {
    0 <= i < |table| && table[i].name == name
  }

  predicate PrefixAt(table: seq<LongOption>, name: string, i: int) {
    0 <= i < |table| && IsPrefix(name, table[i].name)
  }

  // What FindLong promises: the first exact match, else the only option the name abbreviates.
  ghost predicate IsFound(table: seq<LongOption>, name: string, f: Found) {
    match f
    case Match(i) =>
      (ExactAt(table, name, i) && forall j :: 0 <= j < i ==> !ExactAt(table, name, j)) ||
      (PrefixAt(table, name, i) && (forall j :: !ExactAt(table, name, j)) &&
        forall j :: j != i ==> !PrefixAt(table, name, j))
    case Ambiguous =>
      (forall j :: !ExactAt(table, name, j)) &&
      exists i, j :: i < j && PrefixAt(table, name, i) && PrefixAt(table, name, j)
    case Unknown => forall j :: !PrefixAt(table, name, j)
  }

  lemma FoundIsUnique(table: seq<LongOption>, name: string, f: Found, g: Found)
    requires IsFound(table, name, f) && IsFound(table, name, g)
    ensures f == g
  {
    assert forall i :: ExactAt(table, name, i) ==> PrefixAt(table, name, i);
  }

  method FindLong(table: seq<LongOption>, name: string) returns (f: Found)
    ensures IsFound(table, name, f) && f == Find(table, name)
  {
    var candidate, ambiguous := -1, false;
    ghost var second := -1;
    var i := 0;
    while i < |table|
      invariant 0 <= i <= |table| && -1 <= candidate < i
      invariant forall j :: 0 <= j < i ==> !ExactAt(table, name, j)
      invariant candidate == -1 ==> !ambiguous && forall j :: 0 <= j < i ==> !PrefixAt(table, name, j)
      invariant candidate != -1 ==> PrefixAt(table, name, candidate)
      invariant candidate != -1 && !ambiguous ==>
        forall j :: 0 <= j < i && j != candidate ==> !PrefixAt(table, name, j)
      invariant ambiguous ==> candidate < second < i && PrefixAt(table, name, second)
    {
      if IsPrefix(name, table[i].name) {
        if |table[i].name| == |name| {
          f := Match(i);
          FoundIsUnique(table, name, f, Find(table, name));
          return;
        }
        if candidate != -1 { ambiguous, second := true, i; } else { candidate := i; }
      }
      i := i + 1;
    }
    f := if ambiguous then Ambiguous else if candidate == -1 then Unknown else Match(candidate);
    FoundIsUnique(table, name, f, Find(table, name));
  }

  // The same search as a value, for the specification of the parser.
  function FirstExact(table: seq<LongOption>, name: string, from: nat): (i: nat)
    requires from <= |table|
    ensures from <= i <= |table| && (i < |table| ==> table[i].name == name)
    ensures forall j :: from <= j < i ==> table[j].name != name
    decreases |table| - from
  {
    if from == |table| || table[from].name == name then from else FirstExact(table, name, from + 1)
  }

  function FirstPrefix(table: seq<LongOption>, name: string, from: nat): (i: nat)
    requires from <= |table|
    ensures from <= i <= |table| && (i < |table| ==> IsPrefix(name, table[i].name))
    ensures forall j :: from <= j < i ==> !IsPrefix(name, table[j].name)
    decreases |table| - from
  {
    if from == |table| || IsPrefix(name, table[from].name) then from else FirstPrefix(table, name, from + 1)
  }

  function Find(table: seq<LongOption>, name: string): (f: Found)
    ensures IsFound(table, name, f)
  {
    var e, p := FirstExact(table, name, 0), FirstPrefix(table, name, 0);
    if e < |table| then Match(e)
    else if p == |table| then Unknown
    else
      var q := FirstPrefix(table, name, p + 1);
      if q < |table| then assert PrefixAt(table, name, p) && PrefixAt(table, name, q); Ambiguous else Match(p)
  }

  // Reading a long option whose text after the dashes is `text`.
  function LongStep(argv: seq<string>, table: seq<LongOption>, i: nat, text: string): (r: (Parsed, Cursor))
    requires i < |argv|
    ensures r.0.Long? ==> r.0.index < |table|
    ensures !r.0.Stop? && i < r.1.index <= |argv| && r.1.pos == None
  {
    var eq := IndexOf(text, '=');
    var next := Cursor(i + 1, None);
    match Find(table, text[..eq])
    case Ambiguous => (Problem(false, '?' as int), next)
    case Unknown => (Problem(false, '?' as int), next)
    case Match(index) =>
      var value := if eq < |text| then Some(text[eq + 1..]) else None;
      match table[index].hasArg
      case RequiredArgument =>
        if value.Some? then (Long(index, value), next)
        else if i + 1 < |argv| then (Long(index, Some(argv[i + 1])), Cursor(i + 2, None))
        else (Problem(true, table[index].val), next)
      case OptionalArgument => (Long(index, value), next)
      case NoArgument =>
        if value.Some? then (Problem(false, table[index].val), next) else (Long(index, None), next)
  }

  // Reading the short option at position p of argv[i].
  function ShortStep(argv: seq<string>, optstring: string, i: nat, p: nat): (r: (Parsed, Cursor))
    requires i < |argv| && p < |argv[i]|
    ensures !r.0.Stop? && !r.0.Long?
    ensures (i < r.1.index <= |argv| && r.1.pos == None)
         || (r.1.index == i && r.1.pos == Some(p + 1) && p + 1 < |argv[i]|)
  {
    var arg := argv[i];
    var c := arg[p];
    var next := Cursor(i + 1, None);
    var k := IndexOf(optstring, c);
    if k == |optstring| then (Problem(false, c as int), next)
    else if k + 1 < |optstring| && optstring[k + 1] == ':' then
      if p + 1 < |arg| then (Short(c, Some(arg[p + 1..])), next)
      else if i + 1 < |argv| then (Short(c, Some(argv[i + 1])), Cursor(i + 2, None))
      else (Problem(true, c as int), next)
    else (Short(c, None), if p + 1 < |arg| then Cursor(i, Some(p + 1)) else next)
  }

  // The value returned: -1 at the end, the option's value or character, 0 for an option with a flag
  // pointer, '?' for a problem, and ':' for a missing argument if the option string starts with one.
  function Code(r: Parsed, optstring: string, table: seq<LongOption>): int
    requires r.Long? ==> r.index < |table|
  {
    match r
    case Stop => -1
    case Long(index, _) => if table[index].flagged then 0 else table[index].val
    case Short(c, _) => c as int
    case Problem(missing, _) =>
      if missing && optstring != "" && optstring[0] == ':' then ':' as int else '?' as int
  }

  predicate RowsExist(all: seq<Parsed>, table: seq<LongOption>) {
    forall i :: 0 <= i < |all| && all[i].Long? ==> all[i].index < |table|
  }

  function Codes(all: seq<Parsed>, optstring: string, table: seq<LongOption>): seq<int>
    requires RowsExist(all, table)
  {
    if all == [] then [] else Codes(all[..|all| - 1], optstring, table) + [Code(all[|all| - 1], optstring, table)]
  }

  // What one result, and then a run of them, leaves stored through the flag pointers.
  function StoreOne(r: Parsed, table: seq<LongOption>, stored: map<nat, int>): map<nat, int>
    requires r.Long? ==> r.index < |table|
  {
    if r.Long? && table[r.index].flagged then stored[r.index := table[r.index].val] else stored
  }

  function StoreAll(all: seq<Parsed>, table: seq<LongOption>, stored: map<nat, int>): map<nat, int>
    requires RowsExist(all, table)
  {
    if all == [] then stored else StoreOne(all[|all| - 1], table, StoreAll(all[..|all| - 1], table, stored))
  }

  lemma CollectOneMore(all: seq<Parsed>, r: Parsed, optstring: string, table: seq<LongOption>, stored: map<nat, int>)
    requires RowsExist(all, table) && (r.Long? ==> r.index < |table|)
    ensures RowsExist(all + [r], table)
    ensures Codes(all + [r], optstring, table) == Codes(all, optstring, table) + [Code(r, optstring, table)]
    ensures StoreAll(all + [r], table, stored) == StoreOne(r, table, StoreAll(all, table, stored))
  {
    assert (all + [r])[..|all|] == all;
  }

  // A cursor inside a word stands on one of its characters, after the leading dash.
  predicate ValidCursor(argv: seq<string>, c: Cursor) {
    c.pos.Some? ==> c.index < |argv| && 0 < c.pos.value < |argv[c.index]|
  }

  predicate LooksLikeOption(arg: string) { |arg| >= 2 && arg[0] == '-' }

  function Step(argv: seq<string>, optstring: string, table: seq<LongOption>, c: Cursor): (r: (Parsed, Cursor))
    requires ValidCursor(argv, c)
    ensures ValidCursor(argv, r.1) && (r.0.Long? ==> r.0.index < |table|)
  {
    if c.index >= |argv| then (Stop, c)
    else
      var arg := argv[c.index];
      if c.pos.None? && !LooksLikeOption(arg) then (Stop, c)
      else if c.pos.None? && arg == "--" then (Stop, Cursor(c.index + 1, None))
      else
        var p := if c.pos.Some? then c.pos.value else 1;
        if arg[p] == '-' then LongStep(argv, table, c.index, arg[p + 1..])
        else ShortStep(argv, optstring, c.index, p)
  }

  // Characters left in the word under the cursor.
  function CharsLeft(argv: seq<string>, c: Cursor): nat
    requires ValidCursor(argv, c)
  {
    if c.index >= |argv| then 0 else if c.pos.None? then |argv[c.index]| else |argv[c.index]| - c.pos.value
  }

  // Every call that is not the last uses up a word or at least a character of one.
  lemma StepMakesProgress(argv: seq<string>, optstring: string, table: seq<LongOption>, c: Cursor)
    requires ValidCursor(argv, c) && !Step(argv, optstring, table, c).0.Stop?
    ensures var c' := Step(argv, optstring, table, c).1;
      && c.index <= c'.index <= |argv|
      && (c'.index == c.index ==> CharsLeft(argv, c') < CharsLeft(argv, c))
  {
  }

  // What a loop calling the parser until -1 collects, and where it leaves optind.
  function ParseFrom(argv: seq<string>, optstring: string, table: seq<LongOption>, c: Cursor): (seq<Parsed>, nat)
    requires ValidCursor(argv, c)
    decreases |argv| - c.index, CharsLeft(argv, c)
  {
    var (r, c') := Step(argv, optstring, table, c);
    if r.Stop? then ([], c'.index)
    else
      StepMakesProgress(argv, optstring, table, c);
      var (more, last) := ParseFrom(argv, optstring, table, c');
      ([r] + more, last)
  }

  // ----- rendering and reading back -----

  datatype Style = Bare | Joined | Spaced

  // Options as a command line spells them: a row of the long table with its argument in one of three
  // styles, a cluster of short options, or a cluster that ends in one with an argument.
  datatype Use =
    | Name(index: nat, style: Style, value: string)
    | Cluster(flags: string)
    | ClusterWith(flags: string, c: char, joined: bool, value: string)

  // Names a command line can spell: not empty, no '=', and no other row of the same name.
  ghost predicate GoodTable(table: seq<LongOption>) {
    && (forall i :: 0 <= i < |table| ==> table[i].name != "" && '=' !in table[i].name)
    && (forall i, j :: 0 <= i < j < |table| ==> table[i].name != table[j].name)
  }

  predicate TakesArgument(optstring: string, c: char) {
    var k := IndexOf(optstring, c);
    k + 1 < |optstring| && optstring[k + 1] == ':'
  }

  // A short option without, or with, an argument. A '-' inside a word would start a long option.
  predicate IsFlag(optstring: string, c: char) {
    c != '-' && IndexOf(optstring, c) < |optstring| && !TakesArgument(optstring, c)
  }

  predicate IsValued(optstring: string, c: char) {
    c != '-' && IndexOf(optstring, c) < |optstring| && TakesArgument(optstring, c)
  }

  predicate AllFlags(optstring: string, flags: string) {
    forall i :: 0 <= i < |flags| ==> IsFlag(optstring, flags[i])
  }

  ghost predicate GoodUse(table: seq<LongOption>, optstring: string, u: Use) {
    match u
    case Name(index, Bare, _) => index < |table| && table[index].hasArg != RequiredArgument
    case Name(index, Joined, _) => index < |table| && table[index].hasArg != NoArgument
    case Name(index, Spaced, _) => index < |table| && table[index].hasArg == RequiredArgument
    case Cluster(flags) => flags != "" && AllFlags(optstring, flags)
    case ClusterWith(flags, c, joined, value) =>
      AllFlags(optstring, flags) && IsValued(optstring, c) && (joined ==> value != "")
  }

  function Words(table: seq<LongOption>, u: Use): (ws: seq<string>)
    requires u.Name? ==> u.index < |table|
    ensures ws != []
  {
    match u
    case Name(index, Bare, _) => ["--" + table[index].name]
    case Name(index, Joined, value) => ["--" + table[index].name + "=" + value]
    case Name(index, Spaced, value) => ["--" + table[index].name, value]
    case Cluster(flags) => ["-" + flags]
    case ClusterWith(flags, c, joined, value) =>
      if joined then ["-" + flags + [c] + value] else ["-" + flags + [c], value]
  }

  function FlagsMeaning(flags: string): seq<Parsed> {
    if flags == "" then [] else [Short(flags[0], None)] + FlagsMeaning(flags[1..])
  }

  function Meaning(u: Use): seq<Parsed> {
    match u
    case Name(index, style, value) => [Long(index, if style == Bare then None else Some(value))]
    case Cluster(flags) => FlagsMeaning(flags)
    case ClusterWith(flags, c, _, value) => FlagsMeaning(flags) + [Short(c, Some(value))]
  }

  function Meanings(uses: seq<Use>): seq<Parsed> {
    if uses == [] then [] else Meaning(uses[0]) + Meanings(uses[1..])
  }

  ghost predicate GoodUses(table: seq<LongOption>, optstring: string, uses: seq<Use>) {
    forall i :: 0 <= i < |uses| ==> GoodUse(table, optstring, uses[i])
  }

  ghost function Render(table: seq<LongOption>, uses: seq<Use>): seq<string>
    requires forall i :: 0 <= i < |uses| && uses[i].Name? ==> uses[i].index < |table|
  {
    if uses == [] then [] else Words(table, uses[0]) + Render(table, uses[1..])
  }

  lemma IndexOfPart(a: string, b: string, c: char)
    requires c !in a
    ensures IndexOf(a + [c] + b, c) == |a|
    ensures IndexOf(a, c) == |a|
  {
    var s := a + [c] + b;
    assert s[|a|] == c && forall i :: 0 <= i < |a| ==> s[i] == a[i];
    assert forall i :: 0 <= i < |a| ==> a[i] != c;
  }

  lemma FindExact(table: seq<LongOption>, i: nat)
    requires GoodTable(table) && i < |table|
    ensures Find(table, table[i].name) == Match(i)
  {
    assert IsFound(table, table[i].name, Match(i)) by {
      assert ExactAt(table, table[i].name, i);
    }
    FoundIsUnique(table, table[i].name, Match(i), Find(table, table[i].name));
  }

  // Parsing from this cursor collects these results and leaves optind at `last`.
  ghost predicate ParsesAt(argv: seq<string>, optstring: string, table: seq<LongOption>, c: Cursor,
                           parsed: seq<Parsed>, last: nat) {
    && ValidCursor(argv, c)
    && ParseFrom(argv, optstring, table, c).0 == parsed && ParseFrom(argv, optstring, table, c).1 == last
  }

  lemma ParseAfterStep(argv: seq<string>, optstring: string, table: seq<LongOption>, c: Cursor, r: Parsed, c': Cursor,
                       parsed: seq<Parsed>, last: nat)
    requires ValidCursor(argv, c) && Step(argv, optstring, table, c) == (r, c') && !r.Stop?
    requires ParsesAt(argv, optstring, table, c', parsed, last)
    ensures ParsesAt(argv, optstring, table, c, [r] + parsed, last)
  {
  }

  lemma MoveOne<T>(a: seq<T>, b: seq<T>)
    requires b != []
    ensures (a + [b[0]]) + b[1..] == a + b
  {
  }

  // The same the other way round: one step takes the first result.
  lemma ParseGoesOn(argv: seq<string>, optstring: string, table: seq<LongOption>, c: Cursor, r: Parsed, c': Cursor,
                    parsed: seq<Parsed>, last: nat)
    requires ParsesAt(argv, optstring, table, c, parsed, last) && Step(argv, optstring, table, c) == (r, c')
    ensures if r.Stop? then parsed == [] && c'.index == last
      else parsed != [] && parsed[0] == r && ParsesAt(argv, optstring, table, c', parsed[1..], last)
  {
  }

  // ----- a long option -----

  lemma StepReadsName(argv: seq<string>, optstring: string, table: seq<LongOption>, i: nat, u: Use)
    requires GoodTable(table) && GoodUse(table, optstring, u) && u.Name?
    requires i + |Words(table, u)| <= |argv| && argv[i..i + |Words(table, u)|] == Words(table, u)
    ensures Step(argv, optstring, table, Cursor(i, None)) == (Meaning(u)[0], Cursor(i + |Words(table, u)|, None))
  {
    var name, word := table[u.index].name, argv[i];
    assert word == argv[i..i + |Words(table, u)|][0] == Words(table, u)[0];
    FindExact(table, u.index);
    IndexOfPart(name, u.value, '=');
    assert word[..2] == "--" && |word| > 2;
    var text := word[2..];
    if u.style == Joined {
      assert text == name + ['='] + u.value;
      assert text[..|name|] == name && text[|name| + 1..] == u.value;
    } else {
      assert text == name && text[..|name|] == name;
      if u.style == Spaced { assert argv[i + 1] == argv[i..i + 2][1] == u.value; }
    }
  }

  // ----- short options -----

  // Where the parser stands behind position q of a word.
  function Behind(argv: seq<string>, i: nat, q: nat): Cursor
    requires i < |argv|
  {
    if q < |argv[i]| then Cursor(i, Some(q)) else Cursor(i + 1, None)
  }

  lemma FlagStep(argv: seq<string>, optstring: string, table: seq<LongOption>, i: nat, p: nat)
    requires i < |argv| && 0 < p < |argv[i]| && IsFlag(optstring, argv[i][p])
    ensures Step(argv, optstring, table, Cursor(i, Some(p))) == (Short(argv[i][p], None), Behind(argv, i, p + 1))
  {
  }

  // A run of flags is read back one by one.
  lemma {:induction false} FlagsRead(argv: seq<string>, optstring: string, table: seq<LongOption>, i: nat,
                                     p: nat, q: nat, parsed: seq<Parsed>, last: nat)
    requires i < |argv| && 0 < p <= q <= |argv[i]| && forall j :: p <= j < q ==> IsFlag(optstring, argv[i][j])
    requires ParsesAt(argv, optstring, table, Behind(argv, i, q), parsed, last)
    ensures ParsesAt(argv, optstring, table, Behind(argv, i, p), FlagsMeaning(argv[i][p..q]) + parsed, last)
    decreases q - p
  {
    var flags := argv[i][p..q];
    if p == q {
      assert flags == "" && FlagsMeaning(flags) + parsed == parsed;
    } else {
      FlagsRead(argv, optstring, table, i, p + 1, q, parsed, last);
      FlagStep(argv, optstring, table, i, p);
      assert flags[1..] == argv[i][p + 1..q];
      var rest := FlagsMeaning(flags[1..]) + parsed;
      ParseAfterStep(argv, optstring, table, Cursor(i, Some(p)), Short(flags[0], None), Behind(argv, i, p + 1),
                     rest, last);
      assert FlagsMeaning(flags) + parsed == [Short(flags[0], None)] + rest;
    }
  }

  // A word of short options is read from its second character.
  lemma EnterWord(argv: seq<string>, optstring: string, table: seq<LongOption>, i: nat, parsed: seq<Parsed>, last: nat)
    requires i < |argv| && |argv[i]| > 1 && argv[i][0] == '-' && argv[i][1] != '-'
    requires ParsesAt(argv, optstring, table, Cursor(i, Some(1)), parsed, last)
    ensures ParsesAt(argv, optstring, table, Cursor(i, None), parsed, last)
  {
    assert Step(argv, optstring, table, Cursor(i, None)) == Step(argv, optstring, table, Cursor(i, Some(1)));
  }

  lemma ValuedStep(argv: seq<string>, optstring: string, table: seq<LongOption>, i: nat, p: nat, joined: bool)
    requires i < |argv| && 0 < p < |argv[i]| && IsValued(optstring, argv[i][p])
    requires if joined then p + 1 < |argv[i]| else p + 1 == |argv[i]| && i + 1 < |argv|
    ensures Step(argv, optstring, table, Cursor(i, Some(p)))
         == if joined then (Short(argv[i][p], Some(argv[i][p + 1..])), Cursor(i + 1, None))
            else (Short(argv[i][p], Some(argv[i + 1])), Cursor(i + 2, None))
  {
  }

  lemma ReadCluster(argv: seq<string>, optstring: string, table: seq<LongOption>, i: nat, flags: string,
                    parsed: seq<Parsed>, last: nat)
    requires flags != "" && AllFlags(optstring, flags)
    requires i < |argv| && argv[i] == "-" + flags
    requires ParsesAt(argv, optstring, table, Cursor(i + 1, None), parsed, last)
    ensures ParsesAt(argv, optstring, table, Cursor(i, None), FlagsMeaning(flags) + parsed, last)
  {
    FlagWord(optstring, flags, "");
    assert "-" + flags + "" == argv[i];
    FlagsRead(argv, optstring, table, i, 1, |argv[i]|, parsed, last);
    EnterWord(argv, optstring, table, i, FlagsMeaning(flags) + parsed, last);
  }

  lemma FlagWord(optstring: string, flags: string, more: string)
    requires AllFlags(optstring, flags)
    ensures var word := "-" + flags + more; var q := 1 + |flags|;
      && word[0] == '-' && word[1..q] == flags && word[q..] == more
      && forall j :: 1 <= j < q ==> IsFlag(optstring, word[j])
  {
    var word := "-" + flags + more;
    forall j | 1 <= j < 1 + |flags| ensures IsFlag(optstring, word[j]) {
      assert word[j] == flags[j - 1];
    }
  }

  lemma ReadClusterWith(argv: seq<string>, optstring: string, table: seq<LongOption>, i: nat, u: Use,
                        parsed: seq<Parsed>, last: nat)
    requires u.ClusterWith? && GoodUse(table, optstring, u)
    requires i + |Words(table, u)| <= |argv| && argv[i] == Words(table, u)[0]
    requires !u.joined ==> argv[i + 1] == u.value
    requires ParsesAt(argv, optstring, table, Cursor(i + |Words(table, u)|, None), parsed, last)
    ensures ParsesAt(argv, optstring, table, Cursor(i, None), Meaning(u) + parsed, last)
  {
    var tail, p := [u.c] + (if u.joined then u.value else ""), 1 + |u.flags|;
    FlagWord(optstring, u.flags, tail);
    assert argv[i] == "-" + u.flags + tail;
    assert argv[i][p] == u.c && argv[i][p + 1..] == argv[i][p..][1..];
    assert u.joined ==> argv[i][p + 1..] == u.value;
    ValuedStep(argv, optstring, table, i, p, u.joined);
    var r := Short(u.c, Some(u.value));
    ParseAfterStep(argv, optstring, table, Cursor(i, Some(p)), r, Cursor(i + |Words(table, u)|, None), parsed, last);
    FlagsRead(argv, optstring, table, i, 1, p, [r] + parsed, last);
    assert FlagsMeaning(u.flags) + ([r] + parsed) == Meaning(u) + parsed;
    EnterWord(argv, optstring, table, i, Meaning(u) + parsed, last);
  }

  // ----- any use -----

  lemma ReadUse(argv: seq<string>, optstring: string, table: seq<LongOption>, i: nat, u: Use,
                parsed: seq<Parsed>, last: nat)
    requires GoodTable(table) && GoodUse(table, optstring, u)
    requires i + |Words(table, u)| <= |argv| && argv[i..i + |Words(table, u)|] == Words(table, u)
    requires ParsesAt(argv, optstring, table, Cursor(i + |Words(table, u)|, None), parsed, last)
    ensures ParsesAt(argv, optstring, table, Cursor(i, None), Meaning(u) + parsed, last)
  {
    var words := argv[i..i + |Words(table, u)|];
    assert argv[i] == words[0] && (|words| > 1 ==> argv[i + 1] == words[1]);
    match u
    case Name(_, _, _) =>
      StepReadsName(argv, optstring, table, i, u);
      ParseAfterStep(argv, optstring, table, Cursor(i, None), Meaning(u)[0], Cursor(i + |words|, None), parsed, last);
      assert Meaning(u) == [Meaning(u)[0]];
    case Cluster(flags) => ReadCluster(argv, optstring, table, i, flags, parsed, last);
    case ClusterWith(_, _, _, _) => ReadClusterWith(argv, optstring, table, i, u, parsed, last);
  }

  predicate EndsOptions(rest: seq<string>) { rest == [] || !LooksLikeOption(rest[0]) || rest[0] == "--" }

  function Terminator(rest: seq<string>): nat { if rest != [] && rest[0] == "--" then 1 else 0 }

  // Where the words of the options end, so does the parse.
  lemma ParseStops(before: seq<string>, table: seq<LongOption>, optstring: string, rest: seq<string>)
    requires EndsOptions(rest)
    ensures ParsesAt(before + rest, optstring, table, Cursor(|before|, None), [], |before| + Terminator(rest))
  {
    if rest != [] { assert (before + rest)[|before|] == rest[0]; }
  }

  lemma Middle(before: seq<string>, words: seq<string>, more: seq<string>, rest: seq<string>)
    ensures var argv := before + (words + more) + rest;
      argv == before + words + more + rest && argv[|before|..|before| + |words|] == words
  {
  }

  lemma ReadsOneMore(before: seq<string>, table: seq<LongOption>, optstring: string, u: Use,
                     more: seq<string>, rest: seq<string>, parsed: seq<Parsed>, last: nat)
    requires GoodTable(table) && GoodUse(table, optstring, u)
    requires var after := before + Words(table, u);
      ParsesAt(after + more + rest, optstring, table, Cursor(|after|, None), parsed, last)
    ensures ParsesAt(before + (Words(table, u) + more) + rest, optstring, table, Cursor(|before|, None),
                     Meaning(u) + parsed, last)
  {
    Middle(before, Words(table, u), more, rest);
    ReadUse(before + (Words(table, u) + more) + rest, optstring, table, |before|, u, parsed, last);
  }

  // Parsing what was rendered gives back the uses in order and stops at the first word that is not
  // an option, or behind a "--".
  ghost predicate ReadsBack(
      before: seq<string>, table: seq<LongOption>, optstring: string, uses: seq<Use>, rest: seq<string>)
    requires GoodUses(table, optstring, uses)
  {
    ParsesAt(before + Render(table, uses) + rest, optstring, table, Cursor(|before|, None),
             Meanings(uses), |before| + |Render(table, uses)| + Terminator(rest))
  }

  lemma ReadsBackOneMore(
      before: seq<string>, table: seq<LongOption>, optstring: string, uses: seq<Use>, rest: seq<string>)
    requires GoodTable(table) && GoodUses(table, optstring, uses) && uses != []
    requires ReadsBack(before + Words(table, uses[0]), table, optstring, uses[1..], rest)
    ensures ReadsBack(before, table, optstring, uses, rest)
  {
    ReadsOneMore(before, table, optstring, uses[0], Render(table, uses[1..]), rest, Meanings(uses[1..]),
                 |before| + |Render(table, uses)| + Terminator(rest));
  }

  lemma {:induction false} ParseReadsRender(
      before: seq<string>, table: seq<LongOption>, optstring: string, uses: seq<Use>, rest: seq<string>)
    requires GoodTable(table) && GoodUses(table, optstring, uses) && EndsOptions(rest)
    ensures ReadsBack(before, table, optstring, uses, rest)
    decreases |uses|
  {
    if uses == [] {
      assert before + Render(table, uses) + rest == before + rest;
      ParseStops(before, table, optstring, rest);
    } else {
      ParseReadsRender(before + Words(table, uses[0]), table, optstring, uses[1..], rest);
      ReadsBackOneMore(before, table, optstring, uses, rest);
    }
  }

  /** The parser's global state. */
  class Parser {
    const argv: seq<string>
    var optind: nat
    var gpos: Option<nat>
    var optopt: int
    // What was stored through the flag pointers of the table's rows.
    var stored: map<nat, int>

    ghost function Position(): Cursor
      reads this
    {
      Cursor(optind, gpos)
    }

    constructor (argv: seq<string>)
      ensures this.argv == argv && Position() == Cursor(1, None)
    {
      this.argv, optind, gpos, optopt, stored := argv, 1, None, 0, map[];
    }

    // One call: moves the cursor, sets optopt on a problem, stores through the flag pointer of a row
    // that has one, and returns the code.
    method GetOptLong(optstring: string, table: seq<LongOption>) returns (r: Parsed, code: int)
      requires ValidCursor(argv, Position())
      modifies this
      ensures (r, Position()) == Step(argv, optstring, table, old(Position()))
      ensures ValidCursor(argv, Position())
      ensures r.Long? ==> r.index < |table|
      ensures code == Code(r, optstring, table)
      ensures r.Stop? ==> code == -1
      ensures r.Short? ==> code == r.c as int
      ensures r.Long? ==> code == if table[r.index].flagged then 0 else table[r.index].val
      ensures r.Problem? ==>
        code == if r.missingArgument && optstring != "" && optstring[0] == ':' then ':' as int else '?' as int
      ensures optopt == if r.Problem? then r.optopt else old(optopt)
      ensures stored == StoreOne(r, table, old(stored))
    {
      r := Advance(optstring, table);
      if r.Problem? { optopt := r.optopt; }
      if r.Long? && table[r.index].flagged { stored := stored[r.index := table[r.index].val]; }
      match r
      case Stop => code := -1;
      case Long(index, _) => code := if table[index].flagged then 0 else table[index].val;
      case Short(c, _) => code := c as int;
      case Problem(missing, _) =>
        code := if missing && optstring != "" && optstring[0] == ':' then ':' as int else '?' as int;
    }

    method Advance(optstring: string, table: seq<LongOption>) returns (r: Parsed)
      requires ValidCursor(argv, Position())
      modifies `optind, `gpos
      ensures (r, Position()) == Step(argv, optstring, table, old(Position()))
      ensures ValidCursor(argv, Position())
    {
      if optind >= |argv| { return Stop; }
      var arg := argv[optind];
      if gpos.None? {
        if |arg| < 2 || arg[0] != '-' { return Stop; }
        if arg[1] == '-' && |arg| == 2 {
          optind := optind + 1;
          return Stop;
        }
        gpos := Some(1);
      }
      var p := gpos.value;
      if arg[p] == '-' {
        r := ReadLong(table, arg[p + 1..]);
      } else {
        r := ReadShort(optstring, p);
      }
    }

    method ReadLong(table: seq<LongOption>, text: string) returns (r: Parsed)
      requires optind < |argv|
      modifies `optind, `gpos
      ensures (r, Position()) == LongStep(argv, table, old(optind), text)
    {
      var eq := IndexOf(text, '=');
      var found := FindLong(table, text[..eq]);
      gpos := None;
      optind := optind + 1;
      if !found.Match? { return Problem(false, '?' as int); }
      var option := table[found.index];
      var arg: Option<string> := None;
      if option.hasArg == RequiredArgument {
        if eq < |text| {
          arg := Some(text[eq + 1..]);
        } else if optind < |argv| {
          arg := Some(argv[optind]);
          optind := optind + 1;
        } else {
          return Problem(true, option.val);
        }
      } else if option.hasArg == OptionalArgument {
        if eq < |text| { arg := Some(text[eq + 1..]); }
      } else if eq < |text| {
        return Problem(false, option.val);
      }
      return Long(found.index, arg);
    }

    method ReadShort(optstring: string, p: nat) returns (r: Parsed)
      requires optind < |argv| && p < |argv[optind]|
      modifies `optind, `gpos
      ensures (r, Position()) == ShortStep(argv, optstring, old(optind), p)
    {
      var arg := argv[optind];
      var c := arg[p];
      var k := IndexOf(optstring, c);
      if k == |optstring| {
        gpos, optind := None, optind + 1;
        return Problem(false, c as int);
      }
      if k + 1 < |optstring| && optstring[k + 1] == ':' {
        gpos := None;
        if p + 1 < |arg| {
          optind := optind + 1;
          return Short(c, Some(arg[p + 1..]));
        } else if optind + 1 < |argv| {
          optind := optind + 2;
          return Short(c, Some(argv[optind - 1]));
        }
        optind := optind + 1;
        return Problem(true, c as int);
      }
      if p + 1 == |arg| {
        gpos, optind := None, optind + 1;
      } else {
        gpos := Some(p + 1);
      }
      return Short(c, None);
    }

    // One call of the loop below, when these results are still to come.
    method ReadNext(optstring: string, table: seq<LongOption>, ghost rest: seq<Parsed>, ghost last: nat)
      returns (r: Parsed, code: int)
      requires ParsesAt(argv, optstring, table, Position(), rest, last)
      modifies this
      ensures ValidCursor(argv, Position())
      ensures r.Long? ==> r.index < |table|
      ensures r.Stop? ==> rest == [] && optind == last
      ensures !r.Stop? ==> rest != [] && rest[0] == r
      ensures !r.Stop? ==> ParsesAt(argv, optstring, table, Position(), rest[1..], last)
      ensures !r.Stop? ==> old(optind) <= optind <= |argv|
      ensures !r.Stop? && old(optind) == optind ==>
        CharsLeft(argv, Position()) < old(CharsLeft(argv, Position()))
      ensures code == Code(r, optstring, table) && stored == StoreOne(r, table, old(stored))
    {
      ghost var here := Position();
      r, code := GetOptLong(optstring, table);
      ParseGoesOn(argv, optstring, table, here, r, Position(), rest, last);
      if !r.Stop? { StepMakesProgress(argv, optstring, table, here); }
    }

    // The loop of ParseArgs: call until -1.
    method ParseAll(optstring: string, table: seq<LongOption>) returns (all: seq<Parsed>, codes: seq<int>)
      requires ValidCursor(argv, Position())
      modifies this
      ensures (all, optind) == ParseFrom(argv, optstring, table, old(Position()))
      ensures RowsExist(all, table) && codes == Codes(all, optstring, table)
      ensures stored == StoreAll(all, table, old(stored))
    {
      all, codes := [], [];
      ghost var (whole, last) := ParseFrom(argv, optstring, table, Position());
      ghost var rest := whole;
      while true
        invariant ParsesAt(argv, optstring, table, Position(), rest, last) && whole == all + rest
        invariant RowsExist(all, table) && codes == Codes(all, optstring, table)
        invariant stored == StoreAll(all, table, old(stored))
        decreases |argv| - optind, CharsLeft(argv, Position())
      {
        var r, code := ReadNext(optstring, table, rest, last);
        if r.Stop? {
          assert all + [] == all;
          break;
        }
        MoveOne(all, rest);
        CollectOneMore(all, r, optstring, table, old(stored));
        all, codes, rest := all + [r], codes + [code], rest[1..];
      }
    }
  }
}
