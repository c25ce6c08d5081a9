/**
 * The storage-policy script: the SQL file is cut at every `;`, each piece is trimmed, and the
 * pieces that are empty or begin with `--` are dropped; the statements left are sent one at a
 * time to the database's `exec_sql` procedure. A statement the database refuses is logged
 * and the loop goes on; a call that throws ends the loop and the script exits with code 1.
 *
 * The environment, the file's contents (or the error reading it) and each call's outcome
 * are inputs.
 */
module StoragePolicies {
  import opened Wrappers
  import opened JsText
  import EnvFile

  /** A trimmed piece the filter keeps: `s.length > 0 && !s.startsWith('--')`. */
  predicate Kept(t: string) {
    |t| > 0 && !StartsWith(t, "--")
  }

  /** The trimmed pieces that are kept, in order. */
  function KeptChunks(chunks: seq<string>): (r: seq<string>)
    ensures |r| <= |chunks|
  {
    if chunks == [] then []
    else (if Kept(Trim(chunks[0])) then [Trim(chunks[0])] else []) + KeptChunks(chunks[1..])
  }

  /** `sql.split(';').map(s => s.trim()).filter(s => s.length > 0 && !s.startsWith('--'))`. */
  function SplitStatements(sql: string): seq<string> {
    KeptChunks(Split(sql, ';'))
  }

  /** What every statement sent is: not empty, no leading or trailing white space, no `;`, not a `--` comment. */
  predicate Clean(t: string) {
    && t != [] && !IsJsWhitespace(t[0]) && !IsJsWhitespace(t[|t| - 1])
    && ';' !in t && !StartsWith(t, "--")
  }

  lemma {:induction false} KeptChunksClean(chunks: seq<string>)
    requires forall k :: 0 <= k < |chunks| ==> ';' !in chunks[k]
    ensures forall k :: 0 <= k < |KeptChunks(chunks)| ==> Clean(KeptChunks(chunks)[k])
  {
    if chunks != [] {
      KeptChunksClean(chunks[1..]);
      TrimInside(chunks[0]);
    }
  }

  /** Every statement is trimmed and not empty, holds no `;` and does not begin with `--`. */
  lemma StatementsAreClean(sql: string)
    ensures forall k :: 0 <= k < |SplitStatements(sql)| ==> Clean(SplitStatements(sql)[k])
  {
    KeptChunksClean(Split(sql, ';'));
  }

  /** The piece before the first `;` becomes the first statement, unless the filter drops it. */
  lemma SplitStatementsCons(a: string, b: string)
    requires ';' !in a
    ensures SplitStatements(a + ";" + b) == (if Kept(Trim(a)) then [Trim(a)] else []) + SplitStatements(b)
  {
    SplitPrefix(a, b, ';');
    assert ([a] + Split(b, ';'))[1..] == Split(b, ';');
  }

  /**
   * A piece that begins with a `--` comment line is dropped whole, with any statement that
   * follows the comment inside the same piece.
   */
  lemma CommentSwallowsStatement(comment: string, statement: string, rest: string)
    requires StartsWith(comment, "--") && ';' !in comment + statement
    ensures SplitStatements(comment + statement + ";" + rest) == SplitStatements(rest)
  {
    var a := comment + statement;
    assert a[0] == '-' && a[1] == '-';
    var t := TrimStart(a);
    assert t == a;
    var r := TrimEnd(t);
    assert !IsJsWhitespace(a[1]);
    assert |r| >= 2;
    assert StartsWith(Trim(a), "--") by {
      assert r == a[..|r|];
    }
    SplitStatementsCons(a, rest);
  }

  /** Clean pieces are kept as they are. */
  lemma {:induction false} KeptChunksOfClean(chunks: seq<string>)
    requires forall k :: 0 <= k < |chunks| ==> Clean(chunks[k])
    ensures KeptChunks(chunks) == chunks
  {
    if chunks != [] {
      TrimOfTrimmed(chunks[0]);
      KeptChunksOfClean(chunks[1..]);
    }
  }

  /** Clean statements joined with `;` split back into the same statements. */
  lemma JoinedStatementsSplitBack(statements: seq<string>)
    requires forall k :: 0 <= k < |statements| ==> Clean(statements[k])
    ensures SplitStatements(Join(statements, ";")) == statements
  {
    if statements == [] {
      assert Split([], ';') == [[]];
      assert Trim([]) == [];
    } else {
      SplitJoin(statements, ';');
      KeptChunksOfClean(statements);
    }
  }

  /** What one `exec_sql` call gave: success, an error in the answer, or a thrown exception. */
  datatype RpcOutcome = RpcOk | RpcError(message: string) | RpcThrew(error: string)

  function Preview(statement: string): string {
    if |statement| <= 60 then statement else statement[..60]
  }

  function ExecutingLine(statement: string): string {
    "📝 Executing: " + Preview(statement) + "..."
  }

  /** The line logged after a call that answered. */
  function AnswerLine(o: RpcOutcome): string {
    if o.RpcError? then "❌ Error: " + o.message else "✅ Success"
  }

  /** The statements sent: each in order, up to and including the first call that throws. */
  function Attempted(statements: seq<string>, outcomes: seq<RpcOutcome>): (r: seq<string>)
    requires |outcomes| == |statements|
    ensures |r| <= |statements|
  {
    if statements == [] then []
    else [statements[0]] + (if outcomes[0].RpcThrew? then [] else Attempted(statements[1..], outcomes[1..]))
  }

  /** What the loop logs. */
  function ExecLog(statements: seq<string>, outcomes: seq<RpcOutcome>): seq<string>
    requires |outcomes| == |statements|
  {
    if statements == [] then []
    else
      [ExecutingLine(statements[0])]
      + (if outcomes[0].RpcThrew? then [] else [AnswerLine(outcomes[0])] + ExecLog(statements[1..], outcomes[1..]))
  }

  /** The first exception thrown, if any. */
  function FirstThrow(outcomes: seq<RpcOutcome>): Option<string> {
    if outcomes == [] then None
    else if outcomes[0].RpcThrew? then Some(outcomes[0].error)
    else FirstThrow(outcomes[1..])
  }

  /** What the loop has sent and logged before the statement at `i`. */
  predicate LoopSoFar(statements: seq<string>, outcomes: seq<RpcOutcome>, i: nat, calls: seq<string>, log: seq<string>)
    requires |outcomes| == |statements| && i <= |statements|
  {
    && calls + Attempted(statements[i..], outcomes[i..]) == Attempted(statements, outcomes)
    && log + ExecLog(statements[i..], outcomes[i..]) == ExecLog(statements, outcomes)
    && FirstThrow(outcomes[i..]) == FirstThrow(outcomes)
  }

  /** The `for` loop over the statements. */
  method ExecuteStatements(statements: seq<string>, outcomes: seq<RpcOutcome>)
    returns (calls: seq<string>, log: seq<string>, thrown: Option<string>)
    requires |outcomes| == |statements|
    ensures calls == Attempted(statements, outcomes)
    ensures log == ExecLog(statements, outcomes)
    ensures thrown == FirstThrow(outcomes)
  {
    calls, log, thrown := [], [], None;
    var i := 0;
    assert statements[0..] == statements && outcomes[0..] == outcomes;
    while i < |statements|
      invariant 0 <= i <= |statements|
      invariant LoopSoFar(statements, outcomes, i, calls, log)
    {
      ghost var calls0, log0 := calls, log;
      var statement := statements[i];
      log := log + [ExecutingLine(statement)];
      calls := calls + [statement];
      if outcomes[i].RpcThrew? {
        thrown := Some(outcomes[i].error);
        ThrowStep(statements, outcomes, i, calls0, log0);
        return;
      } else if outcomes[i].RpcError? {
        log := log + ["❌ Error: " + outcomes[i].message];
      } else {
        log := log + ["✅ Success"];
      }
      assert log == log0 + [ExecutingLine(statement)] + [AnswerLine(outcomes[i])];
      AnswerStep(statements, outcomes, i, calls0, log0);
      i := i + 1;
    }
    assert statements[i..] == [] && outcomes[i..] == [];
  }

  /** A call that throws ends the loop with what the whole run sends and logs. */
  lemma ThrowStep(statements: seq<string>, outcomes: seq<RpcOutcome>, i: nat, calls: seq<string>, log: seq<string>)
    requires |outcomes| == |statements| && i < |statements| && LoopSoFar(statements, outcomes, i, calls, log)
    requires outcomes[i].RpcThrew?
    ensures calls + [statements[i]] == Attempted(statements, outcomes)
    ensures log + [ExecutingLine(statements[i])] == ExecLog(statements, outcomes)
    ensures Some(outcomes[i].error) == FirstThrow(outcomes)
  {
    UnfoldAt(statements, outcomes, i);
    assert [statements[i]] + [] == [statements[i]];
    assert [ExecutingLine(statements[i])] + [] == [ExecutingLine(statements[i])];
  }

  /** A call that answers moves the loop on to the next statement. */
  lemma AnswerStep(statements: seq<string>, outcomes: seq<RpcOutcome>, i: nat, calls: seq<string>, log: seq<string>)
    requires |outcomes| == |statements| && i < |statements| && LoopSoFar(statements, outcomes, i, calls, log)
    requires !outcomes[i].RpcThrew?
    ensures LoopSoFar(statements, outcomes, i + 1, calls + [statements[i]],
                      log + [ExecutingLine(statements[i])] + [AnswerLine(outcomes[i])])
  {
    UnfoldAt(statements, outcomes, i);
    var a, b := Attempted(statements[i + 1..], outcomes[i + 1..]), ExecLog(statements[i + 1..], outcomes[i + 1..]);
    var e, l := ExecutingLine(statements[i]), AnswerLine(outcomes[i]);
    Regroup(calls, [statements[i]], a);
    Regroup([e], [l], b);
    Regroup(log, [e] + [l], b);
    Regroup(log, [e], [l]);
  }

  lemma Regroup<T>(x: seq<T>, y: seq<T>, z: seq<T>)
    ensures x + (y + z) == x + y + z
  {
  }

  /** One step of the loop: what sending the statement at `i` adds. */
  lemma UnfoldAt(statements: seq<string>, outcomes: seq<RpcOutcome>, i: nat)
    requires |outcomes| == |statements| && i < |statements|
    ensures Attempted(statements[i..], outcomes[i..])
      == [statements[i]] + (if outcomes[i].RpcThrew? then [] else Attempted(statements[i + 1..], outcomes[i + 1..]))
    ensures ExecLog(statements[i..], outcomes[i..])
      == [ExecutingLine(statements[i])]
         + (if outcomes[i].RpcThrew? then [] else [AnswerLine(outcomes[i])] + ExecLog(statements[i + 1..], outcomes[i + 1..]))
    ensures FirstThrow(outcomes[i..]) == if outcomes[i].RpcThrew? then Some(outcomes[i].error) else FirstThrow(outcomes[i + 1..])
  {
    assert statements[i..][1..] == statements[i + 1..] && outcomes[i..][1..] == outcomes[i + 1..];
  }

  /**
   * The statements are sent in order from the first: with no exception every one of them,
   * once; otherwise up to the one whose call threw the first exception.
   */
  lemma {:induction false} AttemptedInOrder(statements: seq<string>, outcomes: seq<RpcOutcome>)
    requires |outcomes| == |statements|
    ensures Attempted(statements, outcomes) == statements[..|Attempted(statements, outcomes)|]
    ensures FirstThrow(outcomes).None? ==> Attempted(statements, outcomes) == statements
    ensures FirstThrow(outcomes).Some? ==>
      var n := |Attempted(statements, outcomes)|; n >= 1 && outcomes[n - 1] == RpcThrew(FirstThrow(outcomes).value)
  {
    if statements != [] {
      AttemptedInOrder(statements[1..], outcomes[1..]);
      if !outcomes[0].RpcThrew? {
        assert statements == [statements[0]] + statements[1..];
        var n := |Attempted(statements[1..], outcomes[1..])|;
        assert FirstThrow(outcomes).Some? ==> outcomes[n] == outcomes[1..][n - 1];
      }
    }
  }

  /** No call throws exactly when no outcome is an exception. */
  lemma {:induction false} FirstThrowNone(outcomes: seq<RpcOutcome>)
    ensures FirstThrow(outcomes).None? <==> forall k :: 0 <= k < |outcomes| ==> !outcomes[k].RpcThrew?
  {
    if outcomes != [] {
      FirstThrowNone(outcomes[1..]);
      assert forall k :: 1 <= k < |outcomes| ==> outcomes[k] == outcomes[1..][k - 1];
    }
  }

  /**
   * With no exception the log pairs every statement with its answer: an error is logged and
   * the next statement still runs.
   */
  lemma {:induction false} LogPairs(statements: seq<string>, outcomes: seq<RpcOutcome>, k: nat)
    requires |outcomes| == |statements| && FirstThrow(outcomes).None? && k < |statements|
    ensures |ExecLog(statements, outcomes)| == 2 * |statements|
    ensures ExecLog(statements, outcomes)[2 * k] == ExecutingLine(statements[k])
    ensures ExecLog(statements, outcomes)[2 * k + 1] == AnswerLine(outcomes[k])
  {
    if k == 0 {
      LogLength(statements, outcomes);
    } else {
      LogPairs(statements[1..], outcomes[1..], k - 1);
    }
  }

  lemma {:induction false} LogLength(statements: seq<string>, outcomes: seq<RpcOutcome>)
    requires |outcomes| == |statements| && FirstThrow(outcomes).None?
    ensures |ExecLog(statements, outcomes)| == 2 * |statements|
  {
    if statements != [] {
      LogLength(statements[1..], outcomes[1..]);
    }
  }

  /** Reading the SQL file: its text, or the error `readFileSync` throws. */
  datatype SqlFile = SqlText(text: string) | ReadError(error: string)

  /** What a run did: the statements sent, the lines logged and the process's exit code. */
  datatype RunResult = RunResult(calls: seq<string>, log: seq<string>, exitCode: int)

  const MissingLine := "❌ Missing Supabase credentials"
  const StartLine := "🚀 Applying storage policies...\n"
  const AppliedLine := "\n✨ Storage policies applied successfully!"
  const DoneLine := "\n✅ Done!"

  function FailureLine(error: string): string {
    "❌ Error applying policies: " + error
  }

  /** The whole script: the credential check, reading the file, the loop, and the exit code. */
  method ApplyStoragePolicies(env: map<string, string>, file: SqlFile, outcomes: seq<RpcOutcome>) returns (r: RunResult)
    requires file.SqlText? ==> |outcomes| == |SplitStatements(file.text)|
    ensures EnvFile.CheckCredentials(env, EnvFile.ServiceKeyVar).MissingCredentials? ==> r == RunResult([], [MissingLine], 1)
    ensures EnvFile.CheckCredentials(env, EnvFile.ServiceKeyVar).Connect? && file.ReadError? ==>
      r == RunResult([], [StartLine, FailureLine(file.error)], 1)
    ensures EnvFile.CheckCredentials(env, EnvFile.ServiceKeyVar).Connect? && file.SqlText? ==>
      var statements := SplitStatements(file.text);
      && r.calls == Attempted(statements, outcomes)
      && r.exitCode == (if FirstThrow(outcomes).None? then 0 else 1)
      && r.log == [StartLine] + ExecLog(statements, outcomes)
           + (if FirstThrow(outcomes).None? then [AppliedLine, DoneLine] else [FailureLine(FirstThrow(outcomes).value)])
  {
    if EnvFile.CheckCredentials(env, EnvFile.ServiceKeyVar).MissingCredentials? {
      return RunResult([], [MissingLine], 1);
    }
    var log := [StartLine];
    match file
    case ReadError(error) =>
      return RunResult([], log + [FailureLine(error)], 1);
    case SqlText(text) =>
      var statements := SplitStatements(text);
      var calls, lines, thrown := ExecuteStatements(statements, outcomes);
      log := log + lines;
      if thrown.Some? {
        return RunResult(calls, log + [FailureLine(thrown.value)], 1);
      }
      return RunResult(calls, log + [AppliedLine, DoneLine], 0);
  }

  /** A refused statement does not stop the run: every statement is sent and the script exits with 0. */
  lemma RefusalsDoNotStop(statements: seq<string>, outcomes: seq<RpcOutcome>)
    requires |outcomes| == |statements|
    requires forall k :: 0 <= k < |outcomes| ==> !outcomes[k].RpcThrew?
    ensures Attempted(statements, outcomes) == statements && FirstThrow(outcomes).None?
  {
    FirstThrowNone(outcomes);
    AttemptedInOrder(statements, outcomes);
  }
}
