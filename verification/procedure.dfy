/** The older stored-procedure path of `procedure.py`: one HTTP request asks
    a local model for the statements of a procedure, separated by `;`; each
    statement is transpiled, with no fallback; the results are joined with
    `;\n`, terminated with `;`, and framed in `DELIMITER` commands.

    The HTTP client and the transpiler are parameters, and every entry point
    returns a `Run`: the outcome together with the calls it made. */
module Procedure {
  import opened Wrappers
  import opened Text
  import opened Oracles

  const LlmUrl: string := "http://localhost:11434/api/generate"
  const DefaultModel: string := "llama2"
  const DefaultRead: string := "tsql"
  const DefaultWrite: string := "singlestore"

  /** The request text put in front of the procedure. */
  const ExtractInstructions: string :=
    "Extract the SQL statements from the following stored procedure. "
    + "Return the statements separated by a semicolon.\n"

  const FrameOpen: string := "DELIMITER //\n"
  const FrameClose: string := "\n//\nDELIMITER ;"

  // ---------------------------------------------------------------------
  // The HTTP request
  // ---------------------------------------------------------------------

  /** The statuses `raise_for_status` rejects: client and server errors. */
  predicate IsErrorStatus(status: int) {
    400 <= status < 600
  }

  /** `data.get("response", "")`, used as text: an absent field reads as
      the empty string; a body that is not a JSON object, or a field that
      is not a string, fails (the `.get` or the later `.split` raises). */
  function ResponseText(body: JsonBody): (r: Result<string, Error>)
    ensures r.Success? <==> body.JObject? && ("response" in body.fields ==> body.fields["response"].JString?)
    ensures r.Success? && "response" !in body.fields ==> r.value == ""
    ensures r.Success? && "response" in body.fields ==> r.value == body.fields["response"].text
    ensures r.Failure? ==> r.error == MalformedReply
  {
    if !body.JObject? then Failure(MalformedReply)
    else if "response" !in body.fields then Success("")
    else if body.fields["response"].JString? then Success(body.fields["response"].text)
    else Failure(MalformedReply)
  }

  /** The payload `_call_llm` posts. */
  function Request(model: string, prompt: string): GenerateRequest {
    GenerateRequest(model, prompt, false)
  }

  /** `_call_llm`: one POST; a failed request or an error status raises,
      before the body is looked at; otherwise the body's response text. */
  function CallLlm(post: HttpClient, prompt: string, model: string, url: string): (run: Run<string>)
    ensures run.trace == [PostCall(url, Request(model, prompt))]
    ensures var reply := post(url, Request(model, prompt));
      && (reply.Failure? ==> run.outcome == Failure(ServiceFailed(reply.error)))
      && (reply.Success? && IsErrorStatus(reply.value.status) ==>
            run.outcome == Failure(HttpStatus(reply.value.status)))
      && (reply.Success? && !IsErrorStatus(reply.value.status) ==>
            run.outcome == ResponseText(reply.value.body))
  {
    var request := Request(model, prompt);
    var call := PostCall(url, request);
    match post(url, request)
    case Failure(reason) => Run(Failure(ServiceFailed(reason)), [call])
    case Success(response) =>
      if IsErrorStatus(response.status) then Run(Failure(HttpStatus(response.status)), [call])
      else Run(ResponseText(response.body), [call])
  }

  // ---------------------------------------------------------------------
  // Extraction
  // ---------------------------------------------------------------------

  /** `extract_transpilable_sql`: the reply split at `;`, each piece
      stripped, blank pieces dropped. */
  function ExtractTranspilableSql(post: HttpClient, procedure: string, model: string, url: string): (run: Run<seq<string>>)
    ensures run.trace == [PostCall(url, Request(model, ExtractInstructions + procedure))]
    ensures var raw := CallLlm(post, ExtractInstructions + procedure, model, url).outcome;
      && (run.outcome.Success? <==> raw.Success?)
      && (raw.Failure? ==> run.outcome.error == raw.error)
      && (raw.Success? ==> run.outcome.value == NonBlankPieces(raw.value, ';'))
    ensures run.outcome.Success? ==>
      forall k :: 0 <= k < |run.outcome.value| ==>
        var stmt := run.outcome.value[k];
        stmt != "" && IsTrimmed(stmt) && ';' !in stmt
  {
    var raw := CallLlm(post, ExtractInstructions + procedure, model, url);
    match raw.outcome
    case Failure(e) => Run(Failure(e), raw.trace)
    case Success(text) => Run(Success(NonBlankPieces(text, ';')), raw.trace)
  }

  // ---------------------------------------------------------------------
  // Transpiling every statement
  // ---------------------------------------------------------------------

  /** The transpile call made for one statement. */
  function StatementCall(stmt: string, read: string, write: string): Call {
    TranspileCall(stmt, read, write)
  }

  /** The transpiler yields a statement for `stmt`. */
  predicate Converts(transpile: Transpiler, stmt: string, read: string, write: string) {
    FirstOutput(transpile(stmt, read, write), stmt).Success?
  }

  /** The generator in `transpile_procedure`, consumed by the join: the
      first output for each statement, in order; the first statement the
      transpiler cannot handle ends the run, and no later statement is
      transpiled. */
  function TranspileAll(transpile: Transpiler, stmts: seq<string>, read: string, write: string): (run: Run<seq<string>>)
    ensures |run.trace| <= |stmts|
    ensures forall i :: 0 <= i < |run.trace| ==> run.trace[i] == StatementCall(stmts[i], read, write)
    ensures run.outcome.Success? ==> |run.trace| == |stmts| && |run.outcome.value| == |stmts|
    ensures run.outcome.Failure? ==>
      |run.trace| >= 1 && run.outcome.error == TranspileFailed(stmts[|run.trace| - 1])
    decreases |stmts|
  {
    if |stmts| == 0 then Run(Success([]), [])
    else
      var call := StatementCall(stmts[0], read, write);
      match FirstOutput(transpile(stmts[0], read, write), stmts[0])
      case Failure(e) => Run(Failure(e), [call])
      case Success(first) =>
        var rest := TranspileAll(transpile, stmts[1..], read, write);
        assert forall i :: 1 <= i < |stmts| ==> stmts[i] == stmts[1..][i - 1];
        if rest.outcome.Failure? then Run(Failure(rest.outcome.error), [call] + rest.trace)
        else Run(Success([first] + rest.outcome.value), [call] + rest.trace)
  }

  /** Which statements convert decides the run: it succeeds exactly when
      all of them do, with each one's first output in place; every
      statement before the last one called converted, and on failure the
      last one called is the one that did not. */
  lemma {:induction false} TranspileAllOutcome(transpile: Transpiler, stmts: seq<string>, read: string, write: string)
    ensures var run := TranspileAll(transpile, stmts, read, write);
      && (forall i :: 0 <= i < |run.trace| - 1 ==> Converts(transpile, stmts[i], read, write))
      && (run.outcome.Success? <==> forall i :: 0 <= i < |stmts| ==> Converts(transpile, stmts[i], read, write))
      && (run.outcome.Success? ==> forall i :: 0 <= i < |stmts| ==>
            run.outcome.value[i] == FirstOutput(transpile(stmts[i], read, write), stmts[i]).value)
      && (run.outcome.Failure? ==> !Converts(transpile, stmts[|run.trace| - 1], read, write))
  {
    TranspileAllStops(transpile, stmts, read, write);
    TranspileAllValues(transpile, stmts, read, write);
  }

  /** The run goes on while statements convert: on success every statement
      converted; otherwise all but the last one called did, and that one
      did not. */
  lemma {:induction false} TranspileAllStops(transpile: Transpiler, stmts: seq<string>, read: string, write: string)
    ensures var run := TranspileAll(transpile, stmts, read, write);
      && (forall i :: 0 <= i < |run.trace| - 1 ==> Converts(transpile, stmts[i], read, write))
      && (run.outcome.Success? ==> forall i :: 0 <= i < |stmts| ==> Converts(transpile, stmts[i], read, write))
      && (run.outcome.Failure? ==> !Converts(transpile, stmts[|run.trace| - 1], read, write))
    decreases |stmts|
  {
    if |stmts| > 0 && Converts(transpile, stmts[0], read, write) {
      TranspileAllStops(transpile, stmts[1..], read, write);
      assert forall i :: 1 <= i < |stmts| ==> stmts[i] == stmts[1..][i - 1];
    }
  }

  /** A successful run holds each statement's first output, in place. */
  lemma {:induction false} TranspileAllValues(transpile: Transpiler, stmts: seq<string>, read: string, write: string)
    ensures var run := TranspileAll(transpile, stmts, read, write);
      run.outcome.Success? ==> forall i :: 0 <= i < |stmts| ==>
        FirstOutput(transpile(stmts[i], read, write), stmts[i]) == Success(run.outcome.value[i])
    decreases |stmts|
  {
    var run := TranspileAll(transpile, stmts, read, write);
    if |stmts| > 0 && run.outcome.Success? {
      var first := FirstOutput(transpile(stmts[0], read, write), stmts[0]);
      var rest := TranspileAll(transpile, stmts[1..], read, write);
      TranspileAllValues(transpile, stmts[1..], read, write);
      assert run.outcome.value == [first.value] + rest.outcome.value;
      forall i | 1 <= i < |stmts|
        ensures FirstOutput(transpile(stmts[i], read, write), stmts[i]) == Success(run.outcome.value[i])
      {
        assert stmts[i] == stmts[1..][i - 1];
      }
    }
  }

  // ---------------------------------------------------------------------
  // The framed procedure
  // ---------------------------------------------------------------------

  /** `";\n".join(converted) + ";"`: it always ends in `;`, and is the
      lone `;` when there is nothing to join. BodyTerminatesEach and
      BodyRoundTrip say what lies before the last `;`. */
  function Body(converted: seq<string>): (r: string)
    ensures |r| >= 1 && r[|r| - 1] == ';'
    ensures |converted| == 0 ==> r == ";"
  {
    Join(converted, ";\n") + ";"
  }

  /** The f-string that wraps the body in `DELIMITER` commands; the body is
      exactly what lies between the two frames. */
  function Frame(body: string): (r: string)
    ensures |r| == |FrameOpen| + |body| + |FrameClose|
    ensures r[..|FrameOpen|] == FrameOpen
    ensures r[|FrameOpen|..|FrameOpen| + |body|] == body
    ensures r[|FrameOpen| + |body|..] == FrameClose
  {
    FrameOpen + body + FrameClose
  }

  /** Framing is injective: two framed procedures are equal exactly when
      their bodies are. */
  lemma {:induction false} FrameInjective(b1: string, b2: string)
    ensures Frame(b1) == Frame(b2) <==> b1 == b2
  {
    if Frame(b1) == Frame(b2) {
      assert |b1| == |b2|;
      assert b1 == Frame(b1)[|FrameOpen|..|FrameOpen| + |b1|];
    }
  }

  /** `transpile_procedure`: extract, transpile every statement, join,
      terminate and frame. */
  function TranspileProcedure(post: HttpClient, transpile: Transpiler, procedure: string,
                              read: string, write: string, model: string, url: string): (run: Run<string>)
    ensures |run.trace| >= 1 && run.trace[0] == PostCall(url, Request(model, ExtractInstructions + procedure))
    ensures run.outcome.Success? ==>
      && |run.outcome.value| >= |FrameOpen| + 1 + |FrameClose|
      && run.outcome.value[..|FrameOpen|] == FrameOpen
      && run.outcome.value[|run.outcome.value| - |FrameClose|..] == FrameClose
  {
    var extracted := ExtractTranspilableSql(post, procedure, model, url);
    match extracted.outcome
    case Failure(e) => Run(Failure(e), extracted.trace)
    case Success(stmts) =>
      var converted := TranspileAll(transpile, stmts, read, write);
      match converted.outcome
      case Failure(e) => Run(Failure(e), extracted.trace + converted.trace)
      case Success(parts) =>
        var framed := Frame(Body(parts));
        Run(Success(framed), extracted.trace + converted.trace)
  }

  // ---------------------------------------------------------------------
  // Properties of the whole path
  // ---------------------------------------------------------------------

  /** The body ends each statement with `;` and puts a line break between
      consecutive ones: it is the statements, each terminated, one per
      line; no statement at all leaves the lone `;`. */
  lemma {:induction false} BodyTerminatesEach(xs: seq<string>)
    ensures |xs| == 0 ==> Body(xs) == ";"
    ensures |xs| > 0 ==> Body(xs) == Join(Terminated(xs), "\n")
    decreases |xs|
  {
    if |xs| > 1 {
      BodyTerminatesEach(xs[1..]);
      assert Terminated(xs)[1..] == Terminated(xs[1..]);
      assert Body(xs) == xs[0] + ";\n" + Join(xs[1..], ";\n") + ";";
    }
  }

  /** Every statement followed by `;`. */
  function Terminated(xs: seq<string>): (r: seq<string>)
    ensures |r| == |xs|
    ensures forall i :: 0 <= i < |xs| ==> r[i] == xs[i] + ";"
  {
    seq(|xs|, i requires 0 <= i < |xs| => xs[i] + ";")
  }

  /** Extraction inverts the body: asking for the `;`-separated pieces of a
      body recovers its statements, when they are what extraction itself
      returns (non-blank, stripped, free of `;`). */
  lemma {:induction false} BodyRoundTrip(xs: seq<string>)
    requires forall i :: 0 <= i < |xs| ==> xs[i] != "" && IsTrimmed(xs[i]) && ';' !in xs[i]
    ensures NonBlankPieces(Body(xs), ';') == xs
  {
    MarginRoundTrip("", xs);
    assert "" + Body(xs) == Body(xs);
  }

  /** `s` is whitespace only. */
  predicate IsBlank(s: string) {
    forall i :: 0 <= i < |s| ==> IsSpace(s[i])
  }

  /** BodyRoundTrip after a whitespace margin. */
  lemma {:induction false} MarginRoundTrip(margin: string, xs: seq<string>)
    requires IsBlank(margin) && ';' !in margin
    requires forall i :: 0 <= i < |xs| ==> xs[i] != "" && IsTrimmed(xs[i]) && ';' !in xs[i]
    ensures NonBlankPieces(margin + Body(xs), ';') == xs
    decreases |xs|
  {
    if |xs| == 0 {
      MarginEmptyBody(margin);
    } else {
      if |xs| > 1 {
        MarginRoundTrip("\n", xs[1..]);
      }
      MarginStep(margin, xs);
    }
  }

  /** No statement: the margin and the lone `;` give nothing. */
  lemma {:induction false} MarginEmptyBody(margin: string)
    requires IsBlank(margin) && ';' !in margin
    ensures NonBlankPieces(margin + Body([]), ';') == []
  {
    assert margin + Body([]) == margin + [';'] + "";
    NonBlankPiecesAppend(margin, ';', "");
    BlankPiece(margin);
    BlankPiece("");
  }

  /** One step of MarginRoundTrip: the first statement, then whatever the
      rest of the body gives. */
  lemma {:induction false} MarginStep(margin: string, xs: seq<string>)
    requires IsBlank(margin) && ';' !in margin
    requires |xs| > 0 && xs[0] != "" && IsTrimmed(xs[0]) && ';' !in xs[0]
    requires |xs| > 1 ==> NonBlankPieces("\n" + Body(xs[1..]), ';') == xs[1..]
    ensures NonBlankPieces(margin + Body(xs), ';') == xs
  {
    if |xs| == 1 {
      MarginLast(margin, xs[0]);
      assert xs == [xs[0]];
    } else {
      MarginMore(margin, xs);
    }
  }

  /** MarginStep when further statements follow the first. */
  lemma {:induction false} MarginMore(margin: string, xs: seq<string>)
    requires IsBlank(margin) && ';' !in margin
    requires |xs| > 1 && xs[0] != "" && IsTrimmed(xs[0]) && ';' !in xs[0]
    requires NonBlankPieces("\n" + Body(xs[1..]), ';') == xs[1..]
    ensures NonBlankPieces(margin + Body(xs), ';') == xs
  {
    var after := BodyAfterFirst(margin, xs);
    PieceThenRest(margin, xs[0], after);
    assert xs == [xs[0]] + xs[1..];
  }

  /** The last statement after a margin: the body `x;` gives `x`. */
  lemma {:induction false} MarginLast(margin: string, x: string)
    requires IsBlank(margin) && ';' !in margin
    requires x != "" && IsTrimmed(x) && ';' !in x
    ensures NonBlankPieces(margin + Body([x]), ';') == [x]
  {
    var after := BodyAfterFirst(margin, [x]);
    PieceThenRest(margin, x, after);
    BlankPiece("");
  }

  /** A statement after a margin, cut off by `;`, contributes itself ahead
      of whatever follows the cut. */
  lemma {:induction false} PieceThenRest(margin: string, x: string, after: string)
    requires IsBlank(margin) && ';' !in margin
    requires x != "" && IsTrimmed(x) && ';' !in x
    ensures NonBlankPieces((margin + x) + [';'] + after, ';') == [x] + NonBlankPieces(after, ';')
  {
    NonBlankPiecesAppend(margin + x, ';', after);
    MarginPiece(margin, x);
  }

  /** The body after a margin, cut at its first `;`: the margin and the
      first statement before it, and after it nothing, or a line break
      followed by the body of the remaining statements. */
  lemma {:induction false} BodyAfterFirst(margin: string, xs: seq<string>) returns (after: string)
    requires |xs| > 0
    ensures after == if |xs| == 1 then "" else "\n" + Body(xs[1..])
    ensures margin + Body(xs) == (margin + xs[0]) + [';'] + after
  {
    if |xs| == 1 {
      after := "";
    } else {
      after := "\n" + Body(xs[1..]);
      assert Body(xs) == xs[0] + ";\n" + Join(xs[1..], ";\n") + ";";
    }
  }

  /** A piece of whitespace only contributes nothing. */
  lemma {:induction false} BlankPiece(margin: string)
    requires IsBlank(margin) && ';' !in margin
    ensures NonBlankPieces(margin, ';') == []
  {
    NonBlankPiecesSingle(margin, ';');
    StripUnique(margin, |margin|, "");
  }

  /** A statement after a whitespace margin contributes itself. */
  lemma {:induction false} MarginPiece(margin: string, x: string)
    requires IsBlank(margin) && ';' !in margin
    requires x != "" && IsTrimmed(x) && ';' !in x
    ensures NonBlankPieces(margin + x, ';') == [x]
  {
    var s := margin + x;
    assert ';' !in s by {
      forall i | 0 <= i < |s| ensures s[i] != ';' {
        if i >= |margin| {
          assert s[i] == x[i - |margin|];
        }
      }
    }
    NonBlankPiecesSingle(s, ';');
    assert forall i :: 0 <= i < |x| ==> s[|margin| + i] == x[i];
    StripUnique(s, |margin|, x);
  }

  /** A reply object without a "response" field is read as empty text: no
      statements are extracted or transpiled, and the result is the frame
      around the lone `;`. */
  lemma {:induction false} MissingResponseGivesEmptyProcedure(
    post: HttpClient, transpile: Transpiler, procedure: string,
    read: string, write: string, model: string, url: string)
    requires var reply := post(url, Request(model, ExtractInstructions + procedure));
      && reply.Success? && !IsErrorStatus(reply.value.status)
      && reply.value.body.JObject? && "response" !in reply.value.body.fields
    ensures TranspileProcedure(post, transpile, procedure, read, write, model, url)
         == Run(Success(FrameOpen + ";" + FrameClose),
                [PostCall(url, Request(model, ExtractInstructions + procedure))])
  {
    var call := PostCall(url, Request(model, ExtractInstructions + procedure));
    BlankPiece("");
    assert ExtractTranspilableSql(post, procedure, model, url) == Run(Success([]), [call]);
    assert Body([]) == ";";
    assert [call] + [] == [call];
  }

  /** A 4xx or 5xx reply raises before anything is extracted: the run ends
      after the one request, with the status as its error. */
  lemma {:induction false} ErrorStatusStopsBeforeExtraction(
    post: HttpClient, transpile: Transpiler, procedure: string,
    read: string, write: string, model: string, url: string)
    requires var reply := post(url, Request(model, ExtractInstructions + procedure));
      reply.Success? && IsErrorStatus(reply.value.status)
    ensures var reply := post(url, Request(model, ExtractInstructions + procedure));
      TranspileProcedure(post, transpile, procedure, read, write, model, url)
        == Run(Failure(HttpStatus(reply.value.status)),
               [PostCall(url, Request(model, ExtractInstructions + procedure))])
  {
  }

  /** Once the statements are extracted, the calls: the one request, then
      one transpile call per statement, in order, up to and including the
      first one the transpiler cannot handle; every statement when the run
      succeeds. */
  lemma {:induction false} ExtractedCalls(
    post: HttpClient, transpile: Transpiler, procedure: string,
    read: string, write: string, model: string, url: string)
    requires ExtractTranspilableSql(post, procedure, model, url).outcome.Success?
    ensures var stmts := ExtractTranspilableSql(post, procedure, model, url).outcome.value;
      var run := TranspileProcedure(post, transpile, procedure, read, write, model, url);
      && Count(run.trace, HttpService) == 1
      && Count(run.trace, TranspilerService) <= |stmts|
      && (forall i :: 1 <= i < |run.trace| ==> run.trace[i] == StatementCall(stmts[i - 1], read, write))
      && (run.outcome.Success? ==> Count(run.trace, TranspilerService) == |stmts|)
  {
    var extracted := ExtractTranspilableSql(post, procedure, model, url);
    var stmts := extracted.outcome.value;
    var converted := TranspileAll(transpile, stmts, read, write);
    var run := TranspileProcedure(post, transpile, procedure, read, write, model, url);
    assert run.trace == extracted.trace + converted.trace;
    CountAppend(extracted.trace, converted.trace, HttpService);
    CountAppend(extracted.trace, converted.trace, TranspilerService);
    CountUniform(converted.trace, TranspilerService, HttpService);
  }

  /** Once the statements are extracted, the outcome: success exactly when
      every statement converts, and then the framed body of the first
      outputs; otherwise the error names a statement that did not convert,
      and nothing is returned. */
  lemma {:induction false} ExtractedOutcome(
    post: HttpClient, transpile: Transpiler, procedure: string,
    read: string, write: string, model: string, url: string)
    requires ExtractTranspilableSql(post, procedure, model, url).outcome.Success?
    ensures var stmts := ExtractTranspilableSql(post, procedure, model, url).outcome.value;
      var run := TranspileProcedure(post, transpile, procedure, read, write, model, url);
      && (run.outcome.Success? <==> forall i :: 0 <= i < |stmts| ==> Converts(transpile, stmts[i], read, write))
      && (run.outcome.Success? ==>
            run.outcome.value == Frame(Body(TranspileAll(transpile, stmts, read, write).outcome.value)))
      && (run.outcome.Failure? ==>
            exists j :: 0 <= j < |stmts| && !Converts(transpile, stmts[j], read, write)
                        && run.outcome.error == TranspileFailed(stmts[j]))
  {
    var stmts := ExtractTranspilableSql(post, procedure, model, url).outcome.value;
    var converted := TranspileAll(transpile, stmts, read, write);
    TranspileAllOutcome(transpile, stmts, read, write);
    if converted.outcome.Failure? {
      var j := |converted.trace| - 1;
      assert !Converts(transpile, stmts[j], read, write);
    }
  }

  /** A failed extraction (the request raised, the status was 4xx or 5xx,
      or the reply was malformed) ends the run after the one request, with
      that error: nothing is transpiled and no framed procedure returned. */
  lemma {:induction false} ExtractionFailureEndsRun(
    post: HttpClient, transpile: Transpiler, procedure: string,
    read: string, write: string, model: string, url: string)
    requires ExtractTranspilableSql(post, procedure, model, url).outcome.Failure?
    ensures TranspileProcedure(post, transpile, procedure, read, write, model, url)
         == Run(Failure(ExtractTranspilableSql(post, procedure, model, url).outcome.error),
                [PostCall(url, Request(model, ExtractInstructions + procedure))])
  {
  }

  /** `transpile_procedure(procedure)` with its default arguments: the one
      request goes to the local endpoint for `llama2`, and every statement
      is transpiled from T-SQL to SingleStore. */
  lemma {:induction false} DefaultArguments(post: HttpClient, transpile: Transpiler, procedure: string)
    ensures var run := TranspileProcedure(post, transpile, procedure, DefaultRead, DefaultWrite, DefaultModel, LlmUrl);
      && run.trace[0] == PostCall("http://localhost:11434/api/generate",
                                  GenerateRequest("llama2", ExtractInstructions + procedure, false))
      && forall i :: 1 <= i < |run.trace| ==>
           run.trace[i].TranspileCall? && run.trace[i].read == "tsql" && run.trace[i].write == "singlestore"
  {
    if ExtractTranspilableSql(post, procedure, DefaultModel, LlmUrl).outcome.Success? {
      ExtractedCalls(post, transpile, procedure, DefaultRead, DefaultWrite, DefaultModel, LlmUrl);
    }
  }
}
