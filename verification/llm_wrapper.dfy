/** The SingleStore conversion pipeline of `LLMWrapper`: classify the parsed
    input, then either transpile it and have the assistant double-check the
    result, or (for a stored procedure) have the assistant list the data
    manipulation statements, transpile each one with a best-effort fallback,
    and have the assistant reassemble the procedure around them.

    Every collaborator is a parameter (`Services`), and every entry point
    returns a `Run`: the outcome together with the calls it made. */
module LlmWrapper {
  import opened Wrappers
  import opened Text
  import opened Oracles

  const DefaultModel: string := "llama3"
  const DefaultDialect: string := "tsql"
  const Target: string := "singlestore"
  const InvalidInputMessage: string := "Please provide sql."
  const ExtractorRole: string := "You extract SQL statements."
  const TranslatorRole: string := "You translate SQL between dialects."

  /** The collaborators of one wrapper: parser, transpiler and assistant. */
  datatype Services = Services(parse: Parser, transpile: Transpiler, chat: Assistant)

  // ---------------------------------------------------------------------
  // Prompt templates: literal text with `{procedure}` / `{converted}` holes
  // ---------------------------------------------------------------------

  datatype Hole = ProcedureHole | ConvertedHole
  datatype Piece = Lit(text: string) | Slot(hole: Hole)

  /** `template.format(procedure=..., converted=...)`: every hole is replaced
      once, and substituted text is never scanned for holes again. */
  function Fill(template: seq<Piece>, procedure: string, converted: string): string
    decreases |template|
  {
    if |template| == 0 then ""
    else
      var head := match template[0]
        case Lit(t) => t
        case Slot(ProcedureHole) => procedure
        case Slot(ConvertedHole) => converted;
      head + Fill(template[1..], procedure, converted)
  }

  lemma {:induction false} FillAppend(a: seq<Piece>, b: seq<Piece>, procedure: string, converted: string)
    ensures Fill(a + b, procedure, converted) == Fill(a, procedure, converted) + Fill(b, procedure, converted)
    decreases |a|
  {
    if |a| == 0 {
      assert a + b == b;
    } else {
      assert (a + b)[1..] == a[1..] + b;
      FillAppend(a[1..], b, procedure, converted);
    }
  }

  /** The three-piece templates used here: text, one hole, text. */
  lemma {:induction false} FillThree(before: string, hole: Hole, after: string, procedure: string, converted: string)
    ensures Fill([Lit(before), Slot(hole), Lit(after)], procedure, converted)
         == before + (if hole == ProcedureHole then procedure else converted) + after
  {
    var t := [Lit(before), Slot(hole), Lit(after)];
    assert t[1..] == [Slot(hole), Lit(after)];
    assert t[1..][1..] == [Lit(after)];
    assert t[1..][1..][1..] == [];
    assert Fill([Lit(after)], procedure, converted) == after + Fill([], procedure, converted);
  }

  /** The literal text around the holes of the three prompt templates. The
      model treats it as opaque: what is proved holds for every wording, and
      only where the holes are filled matters. */
  datatype Wording = Wording(
    instructions: string,      // the stored-procedure prompt before `{procedure}`
    outputMarker: string,      // ... and after it
    breakdown: string,         // the breakdown prompt before `{procedure}`
    statementsMarker: string,  // ... and after it
    bodyIntro: string)         // what the reassembly prompt adds before `{converted}`
  {
    function StoredProcedurePrompt(): seq<Piece> {
      [Lit(instructions), Slot(ProcedureHole), Lit(outputMarker)]
    }

    function BreakdownPrompt(): seq<Piece> {
      [Lit(breakdown), Slot(ProcedureHole), Lit(statementsMarker)]
    }

    /** The stored-procedure prompt followed by the converted body. */
    function ReassemblePrompt(): seq<Piece> {
      StoredProcedurePrompt() + [Lit(bodyIntro), Slot(ConvertedHole), Lit("\n")]
    }

    /** A stored-procedure prompt cannot be mistaken for a double-check
        request: the two start with different letters. */
    predicate SetsApartProcedures() {
      |instructions| > 0 && instructions[0] != DoubleCheckLead[0]
    }
  }

  /** The wording of `llm_wrapper.py`. Its first word is kept apart so that
      its first letter can be read off without expanding the whole text. */
  const SourceWording: Wording := Wording(
    "You " + InstructionsRest,
    "\n\nOUTPUT_PROCEDURE:",
    "List each data manipulation statement (SELECT, INSERT, UPDATE, DELETE, "
      + "MERGE) from the following stored procedure. Return one statement per "
      + "line in the same order and do not include any additional text.\n\n"
      + "STORED_PROCEDURE:\n",
    "\n\nSTATEMENTS:",
    "\nUse these SingleStore statements for the procedure body:\n")

  const InstructionsRest: string :=
    "are an expert in SingleStore Helios stored-procedure syntax and "
      + "semantics.  Your job is to take the INPUT_PROCEDURE, identify any "
      + "language constructs or SQL features that are not supported by SingleStore, "
      + "and emit a fully valid SingleStore stored procedure as OUTPUT_PROCEDURE.\n\n"
      + "Make these changes automatically:\n"
      + "\U{2022} Rewrite the header as CREATE OR REPLACE PROCEDURE, include any RETURNS "
      + "clause and the appropriate AUTHORIZE AS DEFINER or AUTHORIZE AS CURRENT_USER "
      + "clause.\n"
      + "\U{2022} Declare all local variables with DECLARE and default-value assignments, "
      + "remove unsupported modifiers on query-type parameters.\n"
      + "\U{2022} Replace any multi-row returns with ECHO SELECT to emit a rowset, or use "
      + "RETURNS QUERY(...) where appropriate.\n"
      + "\U{2022} Wrap the procedure body between DELIMITER // and DELIMITER ; so that "
      + "semicolons within the body are handled correctly by MySQL clients.\n"
      + "\U{2022} Strip or refactor any DDL statements that SingleStore does not allow "
      + "inside procedures invoked from pipelines.\n"
      + "\U{2022} Ensure that any unsupported statements (for example EXPLAIN BALANCE or "
      + "DDL inside a pipeline) are either removed or rewritten to SingleStore "
      + "equivalents.\n"
      + "\U{2022} Preserve nested DECLARE blocks, %ROWTYPE and %TYPE uses, and loop or "
      + "control-flow constructs, translating them into SingleStore\U{E2}\U{20AC}\U{2122}s procedural "
      + "extensions.\n"
      + "At the end, output the converted procedure code only, formatted with "
      + "appropriate DELIMITER commands and SQL fences.\n\n"
      + "Here is the procedure to convert.  Replace INPUT_PROCEDURE with the original "
      + "routine:\n\nINPUT_PROCEDURE:\n"

  lemma {:induction false} SourceWordingSetsApartProcedures()
    ensures SourceWording.SetsApartProcedures()
  {
    LeadOf("You ", InstructionsRest);
  }

  lemma {:induction false} LeadOf(x: string, y: string)
    requires |x| > 0
    ensures (x + y)[0] == x[0]
  {
  }

  /** An `LLMWrapper` instance: the chat model it was built with, and the
      prompt wording. `LLMWrapper()` is `Wrapper(DefaultModel, SourceWording)`. */
  datatype Wrapper = Wrapper(model: string, wording: Wording)

  // ---------------------------------------------------------------------
  // Classifier
  // ---------------------------------------------------------------------

  /** The four handling classes, with the label the source uses for each. */
  datatype QueryKind = StoredProcedure | InsertQuery | DdlQuery | Query {
    function Label(): string {
      match this
      case StoredProcedure => "stored procedure"
      case InsertQuery => "insert query"
      case DdlQuery => "DDL query"
      case Query => "query"
    }
  }

  /** `(expression.kind or "")`: an absent kind reads as the empty string. */
  function KindText(kind: Option<string>): string {
    kind.GetOr("")
  }

  /** `_query_type`: the first matching rule wins, so each class is
      characterised without reference to the order of the tests. */
  function QueryType(e: Expr): (k: QueryKind)
    ensures k == StoredProcedure <==> e.Create? && Upper(KindText(e.kind)) == "PROCEDURE"
    ensures k == InsertQuery <==> e.Insert?
    ensures k == DdlQuery <==> e.IsDdl() && !e.Insert? && k != StoredProcedure
    ensures k == Query <==> !e.IsDdl()
  {
    if e.Create? && Upper(KindText(e.kind)) == "PROCEDURE" then StoredProcedure
    else if e.Insert? then InsertQuery
    else if e.IsDdl() then DdlQuery
    else Query
  }

  /** `kind` is "procedure" in any mix of upper- and lower-case letters. */
  predicate SpellsProcedure(kind: string) {
    |kind| == 9 && forall i :: 0 <= i < 9 ==> LowerChar(kind[i]) == "procedure"[i]
  }

  lemma {:induction false} UpperLowerAgree(c: char, lower: char)
    requires 'a' <= lower <= 'z'
    ensures UpperChar(c) == UpperChar(lower) <==> LowerChar(c) == lower
  {
  }

  /** A `Create` is a stored procedure exactly when its kind spells
      "procedure" in any case; a `Create` without a kind never is. */
  lemma {:induction false} ProcedureKindIgnoresCase(kind: Option<string>)
    ensures QueryType(Create(kind)) == StoredProcedure <==> kind.Some? && SpellsProcedure(kind.value)
    ensures kind.None? ==> QueryType(Create(kind)) == DdlQuery
  {
    var text := KindText(kind);
    var upper := Upper(text);
    if upper == "PROCEDURE" {
      forall i | 0 <= i < 9 ensures LowerChar(text[i]) == "procedure"[i] {
        assert UpperChar(text[i]) == "PROCEDURE"[i];
        UpperLowerAgree(text[i], "procedure"[i]);
      }
    }
    if kind.Some? && SpellsProcedure(kind.value) {
      forall i | 0 <= i < 9 ensures upper[i] == "PROCEDURE"[i] {
        UpperLowerAgree(text[i], "procedure"[i]);
      }
    }
  }

  /** The class labels are pairwise distinct. */
  lemma {:induction false} LabelsDistinct(k1: QueryKind, k2: QueryKind)
    requires k1 != k2
    ensures k1.Label() != k2.Label()
  {
    assert k1.Label()[0] != k2.Label()[0] || |k1.Label()| != |k2.Label()|;
  }

  // ---------------------------------------------------------------------
  // Prompts and messages
  // ---------------------------------------------------------------------

  const DoubleCheckLead: string := "Double check that the following "
  const DoubleCheckTail: string := " is valid SingleStore SQL:\n"

  /** `_prompt`: the stored-procedure template for a procedure, otherwise the
      double-check request naming the class; the dialect is not used. */
  function Prompt(w: Wording, kind: QueryKind, sql: string, dialect: Option<string>): (r: string)
    ensures kind == StoredProcedure ==> r == w.instructions + sql + w.outputMarker
    ensures kind != StoredProcedure ==> r == DoubleCheckLead + kind.Label() + DoubleCheckTail + sql
  {
    if kind == StoredProcedure then
      FillThree(w.instructions, ProcedureHole, w.outputMarker, sql, "");
      Fill(w.StoredProcedurePrompt(), sql, "")
    else
      DoubleCheckLead + kind.Label() + DoubleCheckTail + sql
  }

  /** The prompt determines both the class and the statement: nothing of
      either is lost on the way to the assistant. */
  lemma {:induction false} PromptInjective(w: Wording, k1: QueryKind, a: string, d1: Option<string>,
                                           k2: QueryKind, b: string, d2: Option<string>)
    requires w.SetsApartProcedures()
    requires Prompt(w, k1, a, d1) == Prompt(w, k2, b, d2)
    ensures k1 == k2 && a == b
  {
    if k1 == StoredProcedure || k2 == StoredProcedure {
      PromptLead(w, k1, a, d1);
      PromptLead(w, k2, b, d2);
      SameContext(w.instructions, a, b, w.outputMarker);
    } else {
      var p := Prompt(w, k1, a, d1);
      var n := |DoubleCheckLead|;
      assert p[n] == k1.Label()[0] && p[n] == k2.Label()[0];
      assert k1 == k2;
      SameContext(DoubleCheckLead + k1.Label() + DoubleCheckTail, a, b, "");
    }
  }

  /** The first letter of a prompt tells its form. */
  lemma {:induction false} PromptLead(w: Wording, k: QueryKind, sql: string, d: Option<string>)
    requires |w.instructions| > 0
    ensures |Prompt(w, k, sql, d)| > 0
    ensures Prompt(w, k, sql, d)[0] == if k == StoredProcedure then w.instructions[0] else DoubleCheckLead[0]
  {
  }

  /** Text placed between the same prefix and suffix is recovered intact. */
  lemma {:induction false} SameContext(x: string, a: string, b: string, y: string)
    requires x + a + y == x + b + y
    ensures a == b
  {
    var p := x + a + y;
    assert a == p[|x|..|x| + |a|];
    assert b == p[|x|..|x| + |b|];
  }

  /** The request `to_singlestore` sends to double-check a transpiled query. */
  function ValidateMessages(w: Wording, kind: QueryKind, transpiled: string): (m: seq<Message>)
    ensures |m| == 2 && m[0] == Message("system", TranslatorRole) && m[1].role == "user"
    ensures kind != StoredProcedure ==>
      m[1].content == DoubleCheckLead + kind.Label() + DoubleCheckTail + transpiled
  {
    [Message("system", TranslatorRole), Message("user", Prompt(w, kind, transpiled, None))]
  }

  /** The extraction request: the procedure text in the breakdown template. */
  function BreakdownMessages(w: Wording, sql: string): (m: seq<Message>)
    ensures m == [Message("system", ExtractorRole),
                  Message("user", w.breakdown + sql + w.statementsMarker)]
  {
    FillThree(w.breakdown, ProcedureHole, w.statementsMarker, sql, "");
    [Message("system", ExtractorRole), Message("user", Fill(w.BreakdownPrompt(), sql, ""))]
  }

  /** The reassembly request: the stored-procedure prompt for the untouched
      original, followed by the converted body verbatim. */
  function ReassembleMessages(w: Wording, original: string, converted: string): (m: seq<Message>)
    ensures m == [Message("system", TranslatorRole),
                  Message("user", Prompt(w, StoredProcedure, original, None) + w.bodyIntro + converted + "\n")]
  {
    var head := w.StoredProcedurePrompt();
    var tail := [Lit(w.bodyIntro), Slot(ConvertedHole), Lit("\n")];
    FillAppend(head, tail, original, converted);
    FillThree(w.instructions, ProcedureHole, w.outputMarker, original, converted);
    FillThree(w.bodyIntro, ConvertedHole, "\n", original, converted);
    var prompt := Prompt(w, StoredProcedure, original, None);
    AppendAssociates(prompt, w.bodyIntro + converted, "\n");
    AppendAssociates(prompt, w.bodyIntro, converted);
    [Message("system", TranslatorRole), Message("user", Fill(w.ReassemblePrompt(), original, converted))]
  }

  /** For one original text, the reassembly request determines the body it
      carries. */
  lemma {:induction false} ReassemblyCarriesBody(w: Wording, original: string, c1: string, c2: string)
    requires ReassembleMessages(w, original, c1) == ReassembleMessages(w, original, c2)
    ensures c1 == c2
  {
    var prefix := Prompt(w, StoredProcedure, original, None) + w.bodyIntro;
    assert ReassembleMessages(w, original, c1)[1].content == ReassembleMessages(w, original, c2)[1].content;
    SameContext(prefix, c1, c2, "\n");
  }

  // ---------------------------------------------------------------------
  // Procedure path
  // ---------------------------------------------------------------------

  /** `_decompose_procedure`: one assistant call; its reply, split into
      stripped non-blank lines. A failing call propagates. */
  function DecomposeProcedure(wrapper: Wrapper, chat: Assistant, sql: string): (run: Run<seq<string>>)
    ensures run.trace == [ChatCall(wrapper.model, BreakdownMessages(wrapper.wording, sql))]
    ensures var reply := chat(wrapper.model, BreakdownMessages(wrapper.wording, sql));
      && (run.outcome.Failure? <==> reply.Failure?)
      && (run.outcome.Failure? ==> run.outcome.error == ServiceFailed(reply.error))
      && (run.outcome.Success? ==> run.outcome.value == NonBlankLines(reply.value))
    ensures run.outcome.Success? ==>
      forall k :: 0 <= k < |run.outcome.value| ==>
        var line := run.outcome.value[k];
        line != "" && IsTrimmed(line) && Avoids(line, IsLineBreak)
  {
    var messages := BreakdownMessages(wrapper.wording, sql);
    var call := ChatCall(wrapper.model, messages);
    match chat(wrapper.model, messages)
    case Failure(reason) => Run(Failure(ServiceFailed(reason)), [call])
    case Success(content) => Run(Success(NonBlankLines(content)), [call])
  }

  /** The transpile call made for one extracted statement. */
  function StatementCall(stmt: string, dialect: string): Call {
    TranspileCall(TrimTrailing(stmt, ';'), dialect, Target)
  }

  /** One turn of the loop in `_transpile_procedure`: drop every trailing
      `;`, transpile, fall back to the trimmed text on any failure, and
      append exactly one `;` either way. */
  function ConvertStatement(transpile: Transpiler, stmt: string, dialect: string): (r: string)
    ensures |r| >= 1 && r[|r| - 1] == ';'
    ensures var out := FirstOutput(transpile(TrimTrailing(stmt, ';'), dialect, Target), TrimTrailing(stmt, ';'));
      && (out.Success? ==> r == out.value + ";")
      && (out.Failure? ==>
            && |r| - 1 <= |stmt|
            && r[..|r| - 1] == stmt[..|r| - 1]
            && (forall i :: |r| - 1 <= i < |stmt| ==> stmt[i] == ';')
            && (|r| == 1 || r[|r| - 2] != ';'))
  {
    var text := TrimTrailing(stmt, ';');
    match FirstOutput(transpile(text, dialect, Target), text)
    case Success(converted) => converted + ";"
    case Failure(_) => text + ";"
  }

  /** A statement the transpiler cannot handle comes back as written when it
      already ends in a single `;`, and with one `;` added when it has none. */
  lemma {:induction false} FallbackKeepsStatement(transpile: Transpiler, stmt: string, dialect: string)
    requires FirstOutput(transpile(TrimTrailing(stmt, ';'), dialect, Target), TrimTrailing(stmt, ';')).Failure?
    ensures |stmt| >= 1 && stmt[|stmt| - 1] == ';' && (|stmt| == 1 || stmt[|stmt| - 2] != ';')
            ==> ConvertStatement(transpile, stmt, dialect) == stmt
    ensures (|stmt| == 0 || stmt[|stmt| - 1] != ';')
            ==> ConvertStatement(transpile, stmt, dialect) == stmt + ";"
  {
    var n := |stmt|;
    if n >= 1 && stmt[n - 1] == ';' && (n == 1 || stmt[n - 2] != ';') {
      assert TrimTrailing(stmt[..n - 1], ';') == stmt[..n - 1];
      assert TrimTrailing(stmt, ';') == stmt[..n - 1];
      assert stmt[..n - 1] + ";" == stmt;
    }
  }

  /** The whole loop of `_transpile_procedure`: entry `i` is statement `i`
      converted, and call `i` is the transpile call for statement `i`. */
  function ConvertStatements(transpile: Transpiler, stmts: seq<string>, dialect: string): (r: (seq<string>, seq<Call>))
    ensures |r.0| == |stmts| && |r.1| == |stmts|
    ensures forall i :: 0 <= i < |stmts| ==> r.0[i] == ConvertStatement(transpile, stmts[i], dialect)
    ensures forall i :: 0 <= i < |stmts| ==> r.1[i] == StatementCall(stmts[i], dialect)
    decreases |stmts|
  {
    if |stmts| == 0 then ([], [])
    else
      var rest := ConvertStatements(transpile, stmts[1..], dialect);
      ([ConvertStatement(transpile, stmts[0], dialect)] + rest.0,
       [StatementCall(stmts[0], dialect)] + rest.1)
  }

  /** The transpiler's first output for `text` is a single line, or it fails. */
  predicate OutputIsOneLine(transpile: Transpiler, text: string, dialect: string) {
    var out := FirstOutput(transpile(text, dialect, Target), text);
    out.Success? ==> '\n' !in out.value
  }

  /** The body handed to reassembly lists the converted statements one per
      line, in order: splitting it at `\n` recovers exactly the entries,
      as long as no statement or transpiler output spans several lines. */
  lemma {:induction false} BodyListsEveryStatement(transpile: Transpiler, stmts: seq<string>, dialect: string)
    requires |stmts| >= 1
    requires forall i :: 0 <= i < |stmts| ==> '\n' !in stmts[i]
    requires forall i :: 0 <= i < |stmts| ==> OutputIsOneLine(transpile, TrimTrailing(stmts[i], ';'), dialect)
    ensures var conv := ConvertStatements(transpile, stmts, dialect).0;
      Split(Join(conv, "\n"), '\n') == conv
  {
    var conv := ConvertStatements(transpile, stmts, dialect).0;
    forall k | 0 <= k < |conv| ensures '\n' !in conv[k] {
      var text := TrimTrailing(stmts[k], ';');
      assert '\n' !in text by {
        forall j | 0 <= j < |text| ensures text[j] != '\n' {
          assert text[j] == stmts[k][j];
        }
      }
    }
    SplitJoin(conv, '\n');
  }

  /** `_reassemble_procedure`: one assistant call; its reply, stripped. */
  function ReassembleProcedure(wrapper: Wrapper, chat: Assistant, original: string, converted: string): (run: Run<string>)
    ensures run.trace == [ChatCall(wrapper.model, ReassembleMessages(wrapper.wording, original, converted))]
    ensures var reply := chat(wrapper.model, ReassembleMessages(wrapper.wording, original, converted));
      && (run.outcome.Failure? <==> reply.Failure?)
      && (run.outcome.Failure? ==> run.outcome.error == ServiceFailed(reply.error))
      && (run.outcome.Success? ==> run.outcome.value == Strip(reply.value))
    ensures run.outcome.Success? ==> IsTrimmed(run.outcome.value)
  {
    var messages := ReassembleMessages(wrapper.wording, original, converted);
    var call := ChatCall(wrapper.model, messages);
    StripAll(chat(wrapper.model, messages));
    match chat(wrapper.model, messages)
    case Failure(reason) => Run(Failure(ServiceFailed(reason)), [call])
    case Success(content) => Run(Success(Strip(content)), [call])
  }

  /** Every successful reply is returned stripped. */
  lemma {:induction false} StripAll(reply: Result<string, string>)
    ensures reply.Success? ==> IsTrimmed(Strip(reply.value))
  {
    if reply.Success? {
      StripSpec(reply.value);
    }
  }

  /** The body `_transpile_procedure` hands to reassembly: the converted
      entries, one per line. */
  function ProcedureBody(transpile: Transpiler, stmts: seq<string>, dialect: string): string {
    Join(ConvertStatements(transpile, stmts, dialect).0, "\n")
  }

  /** `_transpile_procedure`: decompose, convert each statement, join the
      entries with `\n`, reassemble around the original text. The breakdown
      request comes first and a failed one ends the run; the rest of the
      path is stated by ProcedurePath. */
  function TranspileProcedure(wrapper: Wrapper, services: Services, sql: string, dialect: string): (run: Run<string>)
    ensures |run.trace| >= 1 && run.trace[0] == ChatCall(wrapper.model, BreakdownMessages(wrapper.wording, sql))
    ensures var reply := services.chat(wrapper.model, BreakdownMessages(wrapper.wording, sql));
      reply.Failure? ==> run == Run(Failure(ServiceFailed(reply.error)), [run.trace[0]])
    ensures run.outcome.Success? ==> IsTrimmed(run.outcome.value)
  {
    var decomposed := DecomposeProcedure(wrapper, services.chat, sql);
    match decomposed.outcome
    case Failure(e) => Run(Failure(e), decomposed.trace)
    case Success(stmts) =>
      var calls := ConvertStatements(services.transpile, stmts, dialect).1;
      var reassembled := ReassembleProcedure(wrapper, services.chat, sql, ProcedureBody(services.transpile, stmts, dialect));
      Run(reassembled.outcome, decomposed.trace + calls + reassembled.trace)
  }

  // ---------------------------------------------------------------------
  // Router
  // ---------------------------------------------------------------------

  /** The class of `sql`, when it parses. */
  function ClassOf(services: Services, sql: string, dialect: string): Option<QueryKind> {
    match services.parse(sql, dialect)
    case None => None
    case Some(e) => Some(QueryType(e))
  }

  /** `to_singlestore`: parse (a failure is the "Please provide sql." error,
      raised before anything else is called), classify, then take the
      procedure path or transpile the whole input and return the stripped
      reply of the assistant asked to double-check it. */
  function ToSingleStore(wrapper: Wrapper, services: Services, sql: string, dialect: string): (run: Run<string>)
    ensures |run.trace| >= 1 && run.trace[0] == ParseCall(sql, dialect)
    ensures ClassOf(services, sql, dialect).None? ==>
      run == Run(Failure(InvalidInput(InvalidInputMessage)), [ParseCall(sql, dialect)])
    ensures run.outcome.Success? ==> IsTrimmed(run.outcome.value)
  {
    var parseCall := ParseCall(sql, dialect);
    match services.parse(sql, dialect)
    case None => Run(Failure(InvalidInput(InvalidInputMessage)), [parseCall])
    case Some(e) =>
      var kind := QueryType(e);
      if kind == StoredProcedure then
        var run := TranspileProcedure(wrapper, services, sql, dialect);
        Run(run.outcome, [parseCall] + run.trace)
      else
        var transpileCall := TranspileCall(sql, dialect, Target);
        match FirstOutput(services.transpile(sql, dialect, Target), sql)
        case Failure(err) => Run(Failure(err), [parseCall, transpileCall])
        case Success(transpiled) =>
          var messages := ValidateMessages(wrapper.wording, kind, transpiled);
          var chatCall := ChatCall(wrapper.model, messages);
          StripAll(services.chat(wrapper.model, messages));
          match services.chat(wrapper.model, messages)
          case Failure(reason) => Run(Failure(ServiceFailed(reason)), [parseCall, transpileCall, chatCall])
          case Success(content) => Run(Success(Strip(content)), [parseCall, transpileCall, chatCall])
  }

  // ---------------------------------------------------------------------
  // The two routes
  // ---------------------------------------------------------------------

  /** The calls of the procedure route: parse, breakdown request, one
      transpile call per statement, reassembly request. */
  lemma {:induction false} ProcedureTraceCounts(parse: Call, breakdown: Call, calls: seq<Call>, reassemble: Call)
    requires parse.ParseCall? && breakdown.ChatCall? && reassemble.ChatCall?
    requires forall k :: 0 <= k < |calls| ==> calls[k].TranspileCall?
    ensures var trace := [parse, breakdown] + calls + [reassemble];
      && Count(trace, ParserService) == 1
      && Count(trace, AssistantService) == 2
      && Count(trace, TranspilerService) == |calls|
      && Count(trace, HttpService) == 0
  {
    var head := [parse, breakdown];
    assert head[1..] == [breakdown] && head[1..][1..] == [];
    assert [reassemble][1..] == [];
    CountAppend(head + calls, [reassemble], ParserService);
    CountAppend(head + calls, [reassemble], AssistantService);
    CountAppend(head + calls, [reassemble], TranspilerService);
    CountAppend(head + calls, [reassemble], HttpService);
    CountAppend(head, calls, ParserService);
    CountAppend(head, calls, AssistantService);
    CountAppend(head, calls, TranspilerService);
    CountAppend(head, calls, HttpService);
    CountUniform(calls, TranspilerService, ParserService);
    CountUniform(calls, TranspilerService, AssistantService);
    CountUniform(calls, TranspilerService, HttpService);
  }

  /** A stored procedure whose breakdown request is answered: the parse,
      the breakdown request, one transpile call per listed statement in
      order, each on that statement with its trailing `;` removed, then the
      reassembly request carrying the original text and the converted
      body. */
  lemma {:induction false} ProcedureRoute(wrapper: Wrapper, services: Services, sql: string, dialect: string)
    requires ClassOf(services, sql, dialect) == Some(StoredProcedure)
    requires services.chat(wrapper.model, BreakdownMessages(wrapper.wording, sql)).Success?
    ensures var stmts := NonBlankLines(services.chat(wrapper.model, BreakdownMessages(wrapper.wording, sql)).value);
      var converted := ConvertStatements(services.transpile, stmts, dialect);
      var request := ReassembleMessages(wrapper.wording, sql, ProcedureBody(services.transpile, stmts, dialect));
      var run := ToSingleStore(wrapper, services, sql, dialect);
      && run.trace == [ParseCall(sql, dialect), ChatCall(wrapper.model, BreakdownMessages(wrapper.wording, sql))]
                      + converted.1 + [ChatCall(wrapper.model, request)]
      && Count(run.trace, ParserService) == 1
      && Count(run.trace, AssistantService) == 2
      && Count(run.trace, TranspilerService) == |stmts|
  {
    var breakdown := ChatCall(wrapper.model, BreakdownMessages(wrapper.wording, sql));
    var stmts := NonBlankLines(services.chat(wrapper.model, BreakdownMessages(wrapper.wording, sql)).value);
    var converted := ConvertStatements(services.transpile, stmts, dialect);
    var request := ChatCall(wrapper.model, ReassembleMessages(wrapper.wording, sql, ProcedureBody(services.transpile, stmts, dialect)));
    var parse := ParseCall(sql, dialect);
    ProcedureDispatch(wrapper, services, sql, dialect);
    ProcedurePath(wrapper, services, sql, dialect);
    Regroup(parse, breakdown, converted.1, request);
    ProcedureTraceCounts(parse, breakdown, converted.1, request);
  }

  lemma {:induction false} Regroup<T>(a: T, b: T, middle: seq<T>, c: T)
    ensures [a] + ([b] + middle + [c]) == [a, b] + middle + [c]
  {
    assert [a] + [b] == [a, b];
    AppendAssociates([a], [b] + middle, [c]);
    AppendAssociates([a], [b], middle);
  }

  /** A stored procedure goes to `_transpile_procedure` after the parse,
      whose outcome is the result. */
  lemma {:induction false} ProcedureDispatch(wrapper: Wrapper, services: Services, sql: string, dialect: string)
    requires ClassOf(services, sql, dialect) == Some(StoredProcedure)
    ensures var run := TranspileProcedure(wrapper, services, sql, dialect);
      ToSingleStore(wrapper, services, sql, dialect) == Run(run.outcome, [ParseCall(sql, dialect)] + run.trace)
  {
  }

  /** A stored procedure whose breakdown request is answered ends with the
      reassembly request: the run succeeds exactly when that request is
      answered, and returns the stripped reply. */
  lemma {:induction false} ProcedureOutcome(wrapper: Wrapper, services: Services, sql: string, dialect: string)
    requires ClassOf(services, sql, dialect) == Some(StoredProcedure)
    requires services.chat(wrapper.model, BreakdownMessages(wrapper.wording, sql)).Success?
    ensures var stmts := NonBlankLines(services.chat(wrapper.model, BreakdownMessages(wrapper.wording, sql)).value);
      var reply := services.chat(wrapper.model, ReassembleMessages(wrapper.wording, sql, ProcedureBody(services.transpile, stmts, dialect)));
      var run := ToSingleStore(wrapper, services, sql, dialect);
      && (run.outcome.Success? <==> reply.Success?)
      && (run.outcome.Success? ==> run.outcome.value == Strip(reply.value))
      && (run.outcome.Failure? ==> run.outcome.error == ServiceFailed(reply.error))
  {
    ProcedureDispatch(wrapper, services, sql, dialect);
    ProcedurePath(wrapper, services, sql, dialect);
  }

  /** `_transpile_procedure` once its breakdown request is answered. */
  lemma {:induction false} ProcedurePath(wrapper: Wrapper, services: Services, sql: string, dialect: string)
    requires services.chat(wrapper.model, BreakdownMessages(wrapper.wording, sql)).Success?
    ensures var stmts := NonBlankLines(services.chat(wrapper.model, BreakdownMessages(wrapper.wording, sql)).value);
      var converted := ConvertStatements(services.transpile, stmts, dialect);
      var reassembled := ReassembleProcedure(wrapper, services.chat, sql, ProcedureBody(services.transpile, stmts, dialect));
      var run := TranspileProcedure(wrapper, services, sql, dialect);
      && run.trace == [ChatCall(wrapper.model, BreakdownMessages(wrapper.wording, sql))] + converted.1 + reassembled.trace
      && run.outcome == reassembled.outcome
  {
  }

  /** A stored procedure whose breakdown request fails: the run ends there
      with the assistant's error, and nothing is transpiled. */
  lemma {:induction false} BreakdownFailureEndsRun(wrapper: Wrapper, services: Services, sql: string, dialect: string)
    requires ClassOf(services, sql, dialect) == Some(StoredProcedure)
    requires services.chat(wrapper.model, BreakdownMessages(wrapper.wording, sql)).Failure?
    ensures var reply := services.chat(wrapper.model, BreakdownMessages(wrapper.wording, sql));
      ToSingleStore(wrapper, services, sql, dialect)
        == Run(Failure(ServiceFailed(reply.error)),
               [ParseCall(sql, dialect), ChatCall(wrapper.model, BreakdownMessages(wrapper.wording, sql))])
  {
  }

  /** Any other class: the parse and one transpile call on the whole input;
      a transpile failure ends the run, otherwise one double-check request
      for the transpiled text follows, and its stripped reply (not the
      transpiler's output) is the result. */
  lemma {:induction false} DirectRoute(wrapper: Wrapper, services: Services, sql: string, dialect: string, kind: QueryKind)
    requires ClassOf(services, sql, dialect) == Some(kind) && kind != StoredProcedure
    ensures var out := FirstOutput(services.transpile(sql, dialect, Target), sql);
      var run := ToSingleStore(wrapper, services, sql, dialect);
      && (out.Failure? ==>
            run == Run(Failure(TranspileFailed(sql)), [ParseCall(sql, dialect), TranspileCall(sql, dialect, Target)]))
      && (out.Success? ==>
            var request := ValidateMessages(wrapper.wording, kind, out.value);
            var reply := services.chat(wrapper.model, request);
            && run.trace == [ParseCall(sql, dialect), TranspileCall(sql, dialect, Target), ChatCall(wrapper.model, request)]
            && (run.outcome.Success? <==> reply.Success?)
            && (run.outcome.Success? ==> run.outcome.value == Strip(reply.value))
            && (run.outcome.Failure? ==> run.outcome.error == ServiceFailed(reply.error)))
  {
  }

  /** The two routes treat a transpile failure differently: with an
      assistant that always answers, a stored procedure is converted
      whatever the transpiler does, while any other input is converted
      exactly when the transpiler yields a statement. */
  lemma {:induction false} TranspileFailureAbsorbedOnlyForProcedures(
    wrapper: Wrapper, services: Services, sql: string, dialect: string, kind: QueryKind)
    requires ClassOf(services, sql, dialect) == Some(kind)
    requires forall m :: services.chat(wrapper.model, m).Success?
    ensures kind == StoredProcedure ==> ToSingleStore(wrapper, services, sql, dialect).outcome.Success?
    ensures kind != StoredProcedure ==>
      (ToSingleStore(wrapper, services, sql, dialect).outcome.Success?
       <==> FirstOutput(services.transpile(sql, dialect, Target), sql).Success?)
  {
    if kind == StoredProcedure {
      ProcedureOutcome(wrapper, services, sql, dialect);
    } else {
      DirectRoute(wrapper, services, sql, dialect, kind);
    }
  }

  /** `LLMWrapper().to_singlestore(sql)` with its default arguments, for
      any wording: the input is parsed as T-SQL, and a stored procedure's
      breakdown request goes to `llama3`. */
  lemma {:induction false} DefaultArguments(w: Wording, services: Services, sql: string)
    ensures var run := ToSingleStore(Wrapper(DefaultModel, w), services, sql, DefaultDialect);
      && run.trace[0] == ParseCall(sql, "tsql")
      && (ClassOf(services, sql, DefaultDialect) == Some(StoredProcedure) ==>
            |run.trace| >= 2 && run.trace[1] == ChatCall("llama3", BreakdownMessages(w, sql)))
  {
    if ClassOf(services, sql, DefaultDialect) == Some(StoredProcedure) {
      ProcedureDispatch(Wrapper(DefaultModel, w), services, sql, DefaultDialect);
    }
  }
}
