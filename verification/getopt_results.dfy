/** What the caller of the option parser sees: the codes a command line yields, what is stored through
    flag pointers, and how words that are no proper options are reported. */
module GetOptResults {
  import opened Common
  import opened Strings
  import opened GetOpt

  // ----- proper options -----

  function Characters(flags: string): seq<int> {
    seq(|flags|, i requires 0 <= i < |flags| => flags[i] as int)
  }

  // An option of the long table gives its value, or 0 when the value goes to a flag; a short option
  // gives its character.
  function UseCodes(u: Use, table: seq<LongOption>): seq<int>
    requires u.Name? ==> u.index < |table|
  {
    match u
    case Name(index, _, _) => [if table[index].flagged then 0 else table[index].val]
    case Cluster(flags) => Characters(flags)
    case ClusterWith(flags, c, _, _) => Characters(flags) + [c as int]
  }

  function UsesCodes(uses: seq<Use>, table: seq<LongOption>): seq<int>
    requires forall i :: 0 <= i < |uses| && uses[i].Name? ==> uses[i].index < |table|
  {
    if uses == [] then [] else UseCodes(uses[0], table) + UsesCodes(uses[1..], table)
  }

  lemma {:induction false} FlagsMeaningAt(flags: string)
    ensures |FlagsMeaning(flags)| == |flags|
    ensures forall i :: 0 <= i < |flags| ==> FlagsMeaning(flags)[i] == Short(flags[i], None)
  {
    if flags != "" { FlagsMeaningAt(flags[1..]); }
  }

  lemma UseYields(u: Use, table: seq<LongOption>, optstring: string)
    requires GoodUse(table, optstring, u)
    ensures RowsExist(Meaning(u), table) && Codes(Meaning(u), optstring, table) == UseCodes(u, table)
  {
    match u
    case Name(index, _, _) => OneCode(Meaning(u)[0], optstring, table);
    case Cluster(flags) => FlagCodes(flags, optstring, table);
    case ClusterWith(flags, c, _, value) =>
      FlagCodes(flags, optstring, table);
      OneCode(Short(c, Some(value)), optstring, table);
      CodesConcat(FlagsMeaning(flags), [Short(c, Some(value))], optstring, table);
  }

  lemma {:induction false} CodesConcat(a: seq<Parsed>, b: seq<Parsed>, optstring: string, table: seq<LongOption>)
    requires RowsExist(a, table) && RowsExist(b, table)
    ensures RowsExist(a + b, table)
    ensures Codes(a + b, optstring, table) == Codes(a, optstring, table) + Codes(b, optstring, table)
  {
    if b == [] {
      assert a + b == a;
    } else {
      CodesConcat(a, b[..|b| - 1], optstring, table);
      assert (a + b)[..|a + b| - 1] == a + b[..|b| - 1];
    }
  }

  lemma {:induction false} FlagCodes(flags: string, optstring: string, table: seq<LongOption>)
    ensures RowsExist(FlagsMeaning(flags), table)
    ensures Codes(FlagsMeaning(flags), optstring, table) == Characters(flags)
  {
    FlagsMeaningAt(flags);
    if flags != "" {
      FlagCodes(flags[1..], optstring, table);
      CodesConcat([Short(flags[0], None)], FlagsMeaning(flags[1..]), optstring, table);
      OneCode(Short(flags[0], None), optstring, table);
    }
  }

  lemma OneCode(r: Parsed, optstring: string, table: seq<LongOption>)
    requires r.Long? ==> r.index < |table|
    ensures Codes([r], optstring, table) == [Code(r, optstring, table)]
  {
    assert [r][..0] == [];
  }

  lemma {:induction false} UsesYield(uses: seq<Use>, table: seq<LongOption>, optstring: string)
    requires GoodUses(table, optstring, uses)
    ensures RowsExist(Meanings(uses), table)
    ensures Codes(Meanings(uses), optstring, table) == UsesCodes(uses, table)
  {
    if uses != [] {
      assert GoodUse(table, optstring, uses[0]);
      UseYields(uses[0], table, optstring);
      UsesYield(uses[1..], table, optstring);
      CodesConcat(Meaning(uses[0]), Meanings(uses[1..]), optstring, table);
    }
  }

  ghost predicate Uses(uses: seq<Use>, index: nat) {
    exists k :: 0 <= k < |uses| && uses[k].Name? && uses[k].index == index
  }

  ghost predicate Reads(all: seq<Parsed>, index: nat) {
    exists k :: 0 <= k < |all| && all[k].Long? && all[k].index == index
  }

  lemma {:induction false} StoredIff(all: seq<Parsed>, table: seq<LongOption>, before: map<nat, int>, index: nat)
    requires RowsExist(all, table) && index < |table|
    ensures var after := StoreAll(all, table, before);
      if Reads(all, index) && table[index].flagged then index in after && after[index] == table[index].val
      else (index in after <==> index in before) && (index in after ==> after[index] == before[index])
  {
    if all != [] {
      var front, last := all[..|all| - 1], all[|all| - 1];
      StoredIff(front, table, before, index);
      if k :| 0 <= k < |front| && front[k].Long? && front[k].index == index { assert all[k] == front[k]; }
      if last.Long? && last.index == index { assert all[|all| - 1] == last; }
      if k :| 0 <= k < |all| && all[k].Long? && all[k].index == index { assert k < |front| ==> front[k] == all[k]; }
    }
  }

  lemma ReadsConcat(a: seq<Parsed>, b: seq<Parsed>, index: nat)
    ensures Reads(a + b, index) <==> Reads(a, index) || Reads(b, index)
  {
    if k :| 0 <= k < |a| && a[k].Long? && a[k].index == index { assert (a + b)[k] == a[k]; }
    if k :| 0 <= k < |b| && b[k].Long? && b[k].index == index { assert (a + b)[|a| + k] == b[k]; }
  }

  lemma UseReads(u: Use, index: nat)
    ensures Reads(Meaning(u), index) <==> u.Name? && u.index == index
  {
    if u.Name? { assert Meaning(u)[0].Long?; } else { FlagsMeaningAt(u.flags); }
  }

  lemma {:induction false} UsesRead(uses: seq<Use>, index: nat)
    ensures Reads(Meanings(uses), index) <==> Uses(uses, index)
  {
    if uses != [] {
      UseReads(uses[0], index);
      UsesRead(uses[1..], index);
      ReadsConcat(Meaning(uses[0]), Meanings(uses[1..]), index);
      if k :| 0 <= k < |uses[1..]| && uses[1..][k].Name? && uses[1..][k].index == index {
        assert uses[k + 1] == uses[1..][k];
      }
      if k :| 0 <= k < |uses| && uses[k].Name? && uses[k].index == index {
        assert k > 0 ==> uses[1..][k - 1] == uses[k];
      }
    }
  }

  // The value a row has stored through its flag pointer.
  ghost predicate Holds(stored: map<nat, int>, before: map<nat, int>, index: nat, chosen: bool, val: int) {
    if chosen then index in stored && stored[index] == val
    else (index in stored <==> index in before) && (index in stored ==> stored[index] == before[index])
  }

  // Any command line of proper options gives the caller, in order, the value of each long option, or
  // 0 if the row has a flag, and the character of each short one. The flags of the rows used then hold
  // their values and the others what they held before.
  lemma RenderedCodes(before: seq<string>, table: seq<LongOption>, optstring: string, uses: seq<Use>, rest: seq<string>,
                      stored: map<nat, int>)
    requires GoodTable(table) && GoodUses(table, optstring, uses) && EndsOptions(rest)
    ensures var all := ParseFrom(before + Render(table, uses) + rest, optstring, table, Cursor(|before|, None)).0;
      && RowsExist(all, table) && Codes(all, optstring, table) == UsesCodes(uses, table)
      && forall i :: 0 <= i < |table| ==>
           Holds(StoreAll(all, table, stored), stored, i, Uses(uses, i) && table[i].flagged, table[i].val)
  {
    ParseReadsRender(before, table, optstring, uses, rest);
    UsesYield(uses, table, optstring);
    forall i | 0 <= i < |table|
      ensures Holds(StoreAll(Meanings(uses), table, stored), stored, i, Uses(uses, i) && table[i].flagged, table[i].val)
    {
      StoredIff(Meanings(uses), table, stored, i);
      UsesRead(uses, i);
    }
  }

  // ----- words that are not -----

  // A long option behind its dashes, perhaps with a value behind an equals sign.
  function LongText(name: string, value: Option<string>): string {
    name + if value.Some? then "=" + value.value else ""
  }

  lemma LongTextParts(name: string, value: Option<string>)
    requires '=' !in name
    ensures var text := LongText(name, value); var eq := IndexOf(text, '=');
      && eq == |name| && text[..eq] == name && (eq < |text| <==> value.Some?)
      && (value.Some? ==> text[eq + 1..] == value.value)
  {
    var text := LongText(name, value);
    if value.Some? {
      IndexOfPart(name, value.value, '=');
      assert text == name + ['='] + value.value;
    } else {
      IndexOfPart(name, "", '=');
      assert text == name;
    }
  }

  // This long option, whose name is not empty, comes next: as a word with two dashes, or behind a dash
  // inside a word of short options.
  ghost predicate LongAt(argv: seq<string>, from: Cursor, name: string, value: Option<string>) {
    && from.index < |argv| && name != "" && '=' !in name
    && (from.pos.None? ==> argv[from.index] == "--" + LongText(name, value))
    && (from.pos.Some? ==> DashAt(argv[from.index], from.pos.value, LongText(name, value)))
  }

  ghost predicate DashAt(word: string, p: nat, text: string) {
    0 < p < |word| && word[p] == '-' && word[p + 1..] == text
  }

  // What the call reports for the word, where it goes on, and the code it returns.
  ghost predicate Reports(argv: seq<string>, optstring: string, table: seq<LongOption>, from: Cursor,
                          optopt: int, next: Cursor, code: int) {
    ValidCursor(argv, from) && var (r, c) := Step(argv, optstring, table, from);
      r.Problem? && r.optopt == optopt && c == next && Code(r, optstring, table) == code
  }

  lemma StepIsLongStep(argv: seq<string>, optstring: string, table: seq<LongOption>, from: Cursor, name: string,
                       value: Option<string>)
    requires LongAt(argv, from, name, value)
    ensures ValidCursor(argv, from)
    ensures Step(argv, optstring, table, from) == LongStep(argv, table, from.index, LongText(name, value))
  {
    if from.pos.None? {
      var arg := argv[from.index];
      assert arg[0] == '-' && arg[1] == '-' && |arg| > 2 && arg[2..] == LongText(name, value);
    }
  }

  lemma FoundMustBe(table: seq<LongOption>, name: string, f: Found)
    requires IsFound(table, name, f)
    ensures Find(table, name) == f
  {
    FoundIsUnique(table, name, f, Find(table, name));
  }

  // No option begins with the name.
  lemma UnknownLong(argv: seq<string>, optstring: string, table: seq<LongOption>, from: Cursor, name: string,
                    value: Option<string>)
    requires LongAt(argv, from, name, value) && forall j :: 0 <= j < |table| ==> !(name <= table[j].name)
    ensures Reports(argv, optstring, table, from, '?' as int, Cursor(from.index + 1, None), '?' as int)
  {
    StepIsLongStep(argv, optstring, table, from, name, value);
    LongTextParts(name, value);
    FoundMustBe(table, name, Unknown);
  }

  // Two options begin with it and none has exactly this name.
  lemma AmbiguousLong(argv: seq<string>, optstring: string, table: seq<LongOption>, from: Cursor, name: string,
                      value: Option<string>, j: nat, k: nat)
    requires LongAt(argv, from, name, value) && forall m :: 0 <= m < |table| ==> table[m].name != name
    requires j < k < |table| && name <= table[j].name && name <= table[k].name
    ensures Reports(argv, optstring, table, from, '?' as int, Cursor(from.index + 1, None), '?' as int)
  {
    StepIsLongStep(argv, optstring, table, from, name, value);
    LongTextParts(name, value);
    assert PrefixAt(table, name, j) && PrefixAt(table, name, k);
    FoundMustBe(table, name, Ambiguous);
  }

  // The name is that of a row, or abbreviates that row only.
  ghost predicate Selects(table: seq<LongOption>, name: string, k: nat) {
    && k < |table| && name <= table[k].name
    && (forall j :: 0 <= j < k ==> table[j].name != name)
    && (table[k].name == name
        || forall j :: 0 <= j < |table| && j != k ==> !(name <= table[j].name))
  }

  lemma SelectedIsFound(table: seq<LongOption>, name: string, k: nat)
    requires Selects(table, name, k)
    ensures Find(table, name) == Match(k)
  {
    assert PrefixAt(table, name, k);
    if table[k].name == name { assert ExactAt(table, name, k); }
    FoundMustBe(table, name, Match(k));
  }

  lemma UnwantedArgument(argv: seq<string>, optstring: string, table: seq<LongOption>, from: Cursor, name: string,
                         value: string, k: nat)
    requires LongAt(argv, from, name, Some(value)) && Selects(table, name, k) && table[k].hasArg == NoArgument
    ensures Reports(argv, optstring, table, from, table[k].val, Cursor(from.index + 1, None), '?' as int)
  {
    StepIsLongStep(argv, optstring, table, from, name, Some(value));
    LongTextParts(name, Some(value));
    SelectedIsFound(table, name, k);
  }

  // The option string asks for ':' instead of '?' when an argument is missing.
  ghost predicate Colon(optstring: string) { optstring != "" && optstring[0] == ':' }

  lemma MissingLongArgument(argv: seq<string>, optstring: string, table: seq<LongOption>, from: Cursor, name: string,
                            k: nat)
    requires LongAt(argv, from, name, None) && Selects(table, name, k) && table[k].hasArg == RequiredArgument
    requires from.index + 1 == |argv|
    ensures Reports(argv, optstring, table, from, table[k].val, Cursor(from.index + 1, None),
                    if Colon(optstring) then ':' as int else '?' as int)
  {
    StepIsLongStep(argv, optstring, table, from, name, None);
    LongTextParts(name, None);
    SelectedIsFound(table, name, k);
  }

  // An abbreviation is as good as the whole name, wherever it stands.
  lemma AbbreviationReads(argv: seq<string>, optstring: string, table: seq<LongOption>, from: Cursor, name: string,
                          value: Option<string>, k: nat)
    requires LongAt(argv, from, name, value) && Selects(table, name, k)
    requires value.Some? ==> table[k].hasArg != NoArgument
    requires value.None? && table[k].hasArg == RequiredArgument ==> from.index + 1 < |argv|
    ensures Step(argv, optstring, table, from)
         == if value.None? && table[k].hasArg == RequiredArgument
            then (Long(k, Some(argv[from.index + 1])), Cursor(from.index + 2, None))
            else (Long(k, value), Cursor(from.index + 1, None))
  {
    StepIsLongStep(argv, optstring, table, from, name, value);
    LongTextParts(name, value);
    SelectedIsFound(table, name, k);
  }

  // A short option the option string does not list; the rest of its word is skipped.
  lemma UnknownShort(argv: seq<string>, optstring: string, table: seq<LongOption>, i: nat, p: nat)
    requires i < |argv| && 0 < p < |argv[i]| && argv[i][p] != '-' && argv[i][p] !in optstring
    ensures Reports(argv, optstring, table, Cursor(i, Some(p)), argv[i][p] as int, Cursor(i + 1, None), '?' as int)
  {
  }

  // One that is listed with an argument and ends the last word.
  lemma MissingShortArgument(argv: seq<string>, optstring: string, table: seq<LongOption>, i: nat, p: nat)
    requires i + 1 == |argv| && 0 < p && p + 1 == |argv[i]| && IsValued(optstring, argv[i][p])
    ensures Reports(argv, optstring, table, Cursor(i, Some(p)), argv[i][p] as int, Cursor(i + 1, None),
                    if Colon(optstring) then ':' as int else '?' as int)
  {
  }
}
