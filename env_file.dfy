/**
 * The `.env.local` loader the diagnostic scripts run before anything else, and their
 * credential check. The file, when it exists, is split into lines on `\n`; a line splits
 * on `=` into a key and the rest, which is joined back with `=` and trimmed; a line with a
 * key and at least one `=` stores the value under the trimmed key in the process
 * environment, overwriting what was there. The scripts then stop with exit code 1 unless
 * the project URL and the key are both set and not empty.
 *
 * Whether the file exists and what it holds arrive together as one input.
 */
module EnvFile {
  import opened Wrappers
  import opened JsText

  const UrlVar := "NEXT_PUBLIC_SUPABASE_URL"
  const AnonKeyVar := "NEXT_PUBLIC_SUPABASE_ANON_KEY"
  const ServiceKeyVar := "SUPABASE_SERVICE_ROLE_KEY"

  /**
   * One line: `const [key, ...valueParts] = line.split('=')`; when `key` is not empty and
   * there is a value part, the trimmed key and the rejoined, trimmed value.
   */
  function ParseLine(line: string): (r: Option<(string, string)>)
    ensures r.Some? ==> '=' in line
  {
    var parts := Split(line, '=');
    var key := parts[0];
    var valueParts := parts[1..];
    if key != "" && |valueParts| > 0 then Some((Trim(key), Trim(Join(valueParts, "="))))
    else None
  }

  /** A split gives more than one piece exactly when the separator occurs. */
  lemma {:induction false} SplitCount(s: string, sep: char)
    ensures |Split(s, sep)| > 1 <==> sep in s
  {
    if s != [] {
      SplitCount(s[1..], sep);
      assert s == [s[0]] + s[1..];
    }
  }

  /** A line sets something exactly when it has an `=` that is not its first character. */
  lemma ParseLineAccepts(line: string)
    ensures ParseLine(line).Some? <==> '=' in line && line[0] != '='
  {
    SplitCount(line, '=');
  }

  /** The key is the text before the first `=`; the value is all that follows it, later `=` kept, trimmed. */
  lemma ParseLineSplitsAtFirst(a: string, b: string)
    requires a != "" && '=' !in a
    ensures ParseLine(a + "=" + b) == Some((Trim(a), Trim(b)))
  {
    SplitPrefix(a, b, '=');
    assert Split(a + "=" + b, '=')[1..] == Split(b, '=');
  }

  /** A key of only white space is still truthy, so its value is stored under the empty name. */
  lemma BlankKeyStoresUnderEmptyName(key: string, rest: string)
    requires key != "" && '=' !in key && forall i :: 0 <= i < |key| ==> IsJsWhitespace(key[i])
    ensures ParseLine(key + "=" + rest) == Some(("", Trim(rest)))
  {
    ParseLineSplitsAtFirst(key, rest);
  }

  /** What one line sets, if anything. */
  type Entry = Option<(string, string)>

  /** The environment after one entry. */
  function Put(vars: map<string, string>, e: Entry): map<string, string> {
    match e
    case None => vars
    case Some((key, value)) => vars[key := value]
  }

  /** The environment after the entries, in order. */
  function Store(vars: map<string, string>, entries: seq<Entry>): map<string, string>
    decreases |entries|
  {
    if entries == [] then vars else Put(Store(vars, entries[..|entries| - 1]), entries[|entries| - 1])
  }

  /** The keys the entries set. */
  function EntryKeys(entries: seq<Entry>): set<string>
    decreases |entries|
  {
    if entries == [] then {}
    else
      var last := entries[|entries| - 1];
      EntryKeys(entries[..|entries| - 1]) + (if last.Some? then {last.value.0} else {})
  }

  /** What each line sets. */
  function Entries(lines: seq<string>): (r: seq<Entry>)
    ensures |r| == |lines| && forall i :: 0 <= i < |lines| ==> r[i] == ParseLine(lines[i])
  {
    seq(|lines|, i requires 0 <= i < |lines| => ParseLine(lines[i]))
  }

  /** The environment after the lines, in order. */
  function Load(vars: map<string, string>, lines: seq<string>): map<string, string> {
    Store(vars, Entries(lines))
  }

  /** The keys the lines set. */
  function ParsedKeys(lines: seq<string>): set<string> {
    EntryKeys(Entries(lines))
  }

  /** Storing adds exactly the keys of the entries. */
  lemma {:induction false} StoreKeys(vars: map<string, string>, entries: seq<Entry>)
    ensures Store(vars, entries).Keys == vars.Keys + EntryKeys(entries)
    decreases |entries|
  {
    if entries != [] {
      StoreKeys(vars, entries[..|entries| - 1]);
    }
  }

  /** Loading adds exactly the parsed keys. */
  lemma LoadKeys(vars: map<string, string>, lines: seq<string>)
    ensures Load(vars, lines).Keys == vars.Keys + ParsedKeys(lines)
  {
    StoreKeys(vars, Entries(lines));
  }

  lemma {:induction false} StoreKeepsOthers(vars: map<string, string>, entries: seq<Entry>, key: string)
    requires key in vars && key !in EntryKeys(entries)
    ensures key in Store(vars, entries) && Store(vars, entries)[key] == vars[key]
    decreases |entries|
  {
    if entries != [] {
      StoreKeepsOthers(vars, entries[..|entries| - 1], key);
    }
  }

  /** A variable no line sets keeps the value the process started with. */
  lemma LoadKeepsOthers(vars: map<string, string>, lines: seq<string>, key: string)
    requires key in vars && key !in ParsedKeys(lines)
    ensures key in Load(vars, lines) && Load(vars, lines)[key] == vars[key]
  {
    StoreKeepsOthers(vars, Entries(lines), key);
  }

  lemma {:induction false} LastEntryWins(vars: map<string, string>, before: seq<Entry>, e: Entry, after: seq<Entry>)
    requires e.Some? && e.value.0 !in EntryKeys(after)
    ensures var m := Store(vars, before + [e] + after); e.value.0 in m && m[e.value.0] == e.value.1
    decreases |after|
  {
    var all := before + [e] + after;
    if after == [] {
      assert all[..|all| - 1] == before && all[|all| - 1] == e;
    } else {
      var init := after[..|after| - 1];
      assert all[..|all| - 1] == before + [e] + init;
      assert all[|all| - 1] == after[|after| - 1];
      LastEntryWins(vars, before, e, init);
    }
  }

  /** The three parts of a split list of lines, line by line. */
  lemma EntriesOfParts(before: seq<string>, line: string, after: seq<string>)
    ensures Entries(before + [line] + after) == Entries(before) + [ParseLine(line)] + Entries(after)
    ensures Entries(before + after) == Entries(before) + Entries(after)
  {
    EntriesAppend(before, [line]);
    EntriesAppend(before + [line], after);
    EntriesAppend(before, after);
  }

  lemma EntriesAppend(a: seq<string>, b: seq<string>)
    ensures Entries(a + b) == Entries(a) + Entries(b)
  {
    var l, r := Entries(a + b), Entries(a) + Entries(b);
    forall i | 0 <= i < |l| ensures l[i] == r[i] {
      if i < |a| {
        assert (a + b)[i] == a[i];
      } else {
        assert (a + b)[i] == b[i - |a|];
      }
    }
  }

  /** The last line that sets a key wins, over earlier lines and over the process environment. */
  lemma LastAssignmentWins(vars: map<string, string>, before: seq<string>, line: string, after: seq<string>)
    requires ParseLine(line).Some? && ParseLine(line).value.0 !in ParsedKeys(after)
    ensures var m := Load(vars, before + [line] + after);
      ParseLine(line).value.0 in m && m[ParseLine(line).value.0] == ParseLine(line).value.1
  {
    EntriesOfParts(before, line, after);
    LastEntryWins(vars, Entries(before), ParseLine(line), Entries(after));
  }

  lemma {:induction false} NoEntryChangesNothing(vars: map<string, string>, before: seq<Entry>, after: seq<Entry>)
    ensures Store(vars, before + [None] + after) == Store(vars, before + after)
    decreases |after|
  {
    var all := before + [None] + after;
    if after == [] {
      assert all[..|all| - 1] == before;
      assert before + after == before;
    } else {
      var init := after[..|after| - 1];
      var rest := before + after;
      assert all[..|all| - 1] == before + [None] + init;
      assert all[|all| - 1] == after[|after| - 1];
      assert rest[..|rest| - 1] == before + init;
      assert rest[|rest| - 1] == after[|after| - 1];
      NoEntryChangesNothing(vars, before, init);
    }
  }

  /** A line that sets nothing can be dropped without changing the outcome. */
  lemma IgnoredLineChangesNothing(vars: map<string, string>, before: seq<string>, line: string, after: seq<string>)
    requires ParseLine(line).None?
    ensures Load(vars, before + [line] + after) == Load(vars, before + after)
  {
    EntriesOfParts(before, line, after);
    NoEntryChangesNothing(vars, Entries(before), Entries(after));
  }

  /** What the scripts do after loading: stop, or connect with the URL and the key. */
  datatype CredentialCheck = MissingCredentials | Connect(url: string, key: string)

  /** `process.env[name]` is set and not empty, which is what `!value` rejects otherwise. */
  predicate IsSet(vars: map<string, string>, name: string) {
    name in vars && vars[name] != ""
  }

  /** `if (!supabaseUrl || !supabaseKey) process.exit(1)`, for the key variable the script reads. */
  function CheckCredentials(vars: map<string, string>, keyVar: string): (r: CredentialCheck)
    ensures r.Connect? <==> IsSet(vars, UrlVar) && IsSet(vars, keyVar)
    ensures r.Connect? ==> r.url == vars[UrlVar] && r.key == vars[keyVar] && r.url != "" && r.key != ""
  {
    if IsSet(vars, UrlVar) && IsSet(vars, keyVar) then Connect(vars[UrlVar], vars[keyVar]) else MissingCredentials
  }

  /** The exit code of a failed check; a check that passes goes on to the queries. */
  function ExitCode(c: CredentialCheck): (r: Option<int>)
    ensures r.Some? <==> c.MissingCredentials?
    ensures r.Some? ==> r.value == 1
  {
    if c.MissingCredentials? then Some(1) else None
  }

  /** `name: ✅ Set` or `name: ❌ Missing`, as `console.error` joins its two arguments. */
  function StatusLine(vars: map<string, string>, name: string): string {
    name + ": " + (if IsSet(vars, name) then "✅ Set" else "❌ Missing")
  }

  /** The three lines the database diagnostic prints when the check fails. */
  function MissingReport(vars: map<string, string>): (r: seq<string>)
    ensures |r| == 3
  {
    ["❌ Missing Supabase environment variables", StatusLine(vars, UrlVar), StatusLine(vars, AnonKeyVar)]
  }

  /** Whenever the check fails, the report marks at least one of the two variables as missing. */
  lemma ReportNamesTheMissing(vars: map<string, string>)
    requires CheckCredentials(vars, AnonKeyVar).MissingCredentials?
    ensures MissingReport(vars)[1] == UrlVar + ": ❌ Missing" || MissingReport(vars)[2] == AnonKeyVar + ": ❌ Missing"
  {
  }

  /** Storing one more entry. */
  lemma StoreStep(vars: map<string, string>, entries: seq<Entry>, i: nat)
    requires i < |entries|
    ensures Store(vars, entries[..i + 1]) == Put(Store(vars, entries[..i]), entries[i])
  {
    assert entries[..i + 1][..i] == entries[..i];
  }

  /** The process environment the scripts load into and read from. */
  class ProcessEnv {
    var vars: map<string, string>

    constructor(initial: map<string, string>)
      ensures vars == initial
    {
      vars := initial;
    }

    /** Parses the file, when there is one, line by line into the environment. */
    method LoadEnvFile(file: Option<string>)
      modifies this
      ensures vars == (if file.Some? then Load(old(vars), Split(file.value, '\n')) else old(vars))
    {
      if file.None? {
        return;
      }
      var lines := Split(file.value, '\n');
      ghost var entries := Entries(lines);
      for i := 0 to |lines|
        invariant vars == Store(old(vars), entries[..i])
      {
        StoreStep(old(vars), entries, i);
        StoreLine(lines[i]);
      }
      assert entries[..|lines|] == entries;
    }

    /** The body of the `forEach`: one line's key and value, when it has both, into the environment. */
    method StoreLine(line: string)
      modifies this
      ensures vars == Put(old(vars), ParseLine(line))
    {
      var parsed := ParseLine(line);
      if parsed.Some? {
        vars := vars[parsed.value.0 := parsed.value.1];
      }
    }

    /** The check against the current environment. */
    function Check(keyVar: string): (r: CredentialCheck)
      reads this
      ensures r.Connect? <==> IsSet(vars, UrlVar) && IsSet(vars, keyVar)
    {
      CheckCredentials(vars, keyVar)
    }
  }

  /**
   * A file whose two lines set the URL and the key lets a script connect, whatever the
   * environment held before.
   */
  lemma FileSuppliesCredentials(vars: map<string, string>, urlLine: string, keyLine: string)
    requires ParseLine(urlLine).Some? && ParseLine(urlLine).value.0 == UrlVar && ParseLine(urlLine).value.1 != ""
    requires ParseLine(keyLine).Some? && ParseLine(keyLine).value.0 == AnonKeyVar && ParseLine(keyLine).value.1 != ""
    ensures CheckCredentials(Load(vars, [urlLine, keyLine]), AnonKeyVar)
      == Connect(ParseLine(urlLine).value.1, ParseLine(keyLine).value.1)
  {
    var entries := [ParseLine(urlLine), ParseLine(keyLine)];
    assert Entries([urlLine, keyLine]) == entries;
    StoreSuppliesCredentials(vars, ParseLine(urlLine).value.1, ParseLine(keyLine).value.1);
  }

  lemma StoreSuppliesCredentials(vars: map<string, string>, url: string, key: string)
    requires url != "" && key != ""
    ensures CheckCredentials(Store(vars, [Some((UrlVar, url)), Some((AnonKeyVar, key))]), AnonKeyVar) == Connect(url, key)
  {
    assert |UrlVar| != |AnonKeyVar|;
    var entries := [Some((UrlVar, url)), Some((AnonKeyVar, key))];
    assert entries[..1] == [entries[0]] && entries[..1][..0] == [];
  }
}
