# SQL-to-SingleStore conversion pipeline, modelled in Dafny

This project models the deterministic control logic around the language
model in two modules of a sqlglot fork that converts SQL, and stored
procedures in particular, to the SingleStore dialect.

- `LLMWrapper.to_singlestore` (`sqlglot/llm_wrapper.py`) parses the
  input and classifies it as a stored procedure, an insert query, a DDL
  query or a plain query. Any kind other than a stored procedure is
  transpiled once, and a chat assistant is asked to double-check the
  result; its stripped reply is the answer. A stored procedure goes
  through three steps:
  - the assistant lists its data-manipulation statements, one per line;
  - each statement is transpiled, with a best-effort fallback to its own
    text;
  - the assistant reassembles the procedure around the converted body.
- `transpile_procedure` (`sqlglot/procedure.py`) is the older path. One
  HTTP request asks a local model for the statements, separated by `;`.
  Each statement is transpiled with no fallback. The results are joined,
  terminated and framed in `DELIMITER` commands.

The collaborators are function parameters (`Oracles`): the parser, the
transpiler, the chat assistant and the HTTP client. Every entry point
returns a `Run`, which holds the outcome (a value, or the error the
Python exception would carry) and the exact sequence of calls made into
the collaborators. This makes "which calls, in which order, with which
arguments" provable.

Files:

- `wrappers.dfy`: `Option` and `Result`.
- `text.dfy`: the Python string operations the pipelines use. It covers
  `str.strip` (with Python's whitespace set), `rstrip(';')`,
  `split(';')`, `splitlines()` (all of Python's line boundaries, with
  `\r\n` counted as one), `join`, ASCII `upper`, and the comprehension
  `[x.strip() for x in ... if x.strip()]`.
- `oracles.dfy`: the collaborator types, the call trace, the errors, and
  `transpile(...)[0]`.
- `llm_wrapper.dfy`: the classifier, the prompt templates, the procedure
  path and the router of `LLMWrapper`.
- `procedure.dfy`: `_call_llm`, `extract_transpilable_sql` and
  `transpile_procedure`.

The prompt templates are a `Wording` value: the literal text around the
`{procedure}` and `{converted}` holes. Properties are proved for every
wording. `SourceWording` holds the text of `llm_wrapper.py` verbatim.
Only one fact about that text is used: its first letter differs from the
first letter of the double-check request (`SourceWordingSetsApartProcedures`).

Three behaviours of the code are easy to misread:

- The per-statement fallback is not the statement unchanged:
  `rstrip(';')` removes every trailing `;` and exactly one `;` is
  appended, whether or not the transpiler succeeded (`ConvertStatement`,
  `FallbackKeepsStatement`).
- The non-procedure path does not return the assistant's reply as it
  comes: `.strip()` at `llm_wrapper.py` line 128 trims it (`DirectRoute`).
- `raise_for_status` rejects only statuses 400 to 599 (`IsErrorStatus`),
  so a 1xx or 3xx reply goes on to be decoded.

## Model

| member | source | states |
|---|---|---|
| Text.StripSpec | sqlglot/llm_wrapper.py:81 | `str.strip()` returns a string with no whitespace at either end, which the input surrounds with whitespace-only margins |
| Text.StripUnique | sqlglot/llm_wrapper.py:81 | the strip is the only trimmed string the input surrounds with whitespace margins, so the contract characterises `str.strip` completely |
| Text.StripTrimmed | sqlglot/llm_wrapper.py:91 | stripping is idempotent: an already trimmed reply is returned unchanged |
| Text.TrimTrailing | sqlglot/llm_wrapper.py:98 | `rstrip(';')` returns a prefix of the statement; every removed character is `;`, and the result does not end in `;` (all trailing semicolons go, not just one) |
| Text.Split | sqlglot/procedure.py:32 | `split(';')` gives at least one piece; no piece contains `;`; joining the pieces with `;` restores the input |
| Text.SplitAppend | sqlglot/procedure.py:32 | splitting distributes over a separator occurrence |
| Text.SplitJoin | sqlglot/llm_wrapper.py:104 | splitting a join of separator-free pieces recovers the pieces |
| Text.NonBlankPieces | sqlglot/procedure.py:32 | every extracted statement is non-empty, stripped and free of `;` |
| Text.NonBlankPiecesSingle | sqlglot/procedure.py:32 | a reply without `;` yields its strip, or nothing when it is blank |
| Text.NonBlankPiecesAppend | sqlglot/procedure.py:32 | each `;` in the reply cuts the statement list in two, so the statements keep their order |
| Text.SplitLinesUnbroken | sqlglot/llm_wrapper.py:81 | no line from `splitlines()` contains a line boundary |
| Text.NonBlankLines | sqlglot/llm_wrapper.py:81 | every decomposed statement is non-empty, stripped and free of line boundaries |
| Text.NonBlankLinesSingle | sqlglot/llm_wrapper.py:81 | a reply without line boundaries yields its strip, or nothing when it is blank |
| Text.NonBlankLinesAppend | sqlglot/llm_wrapper.py:81 | each line boundary (including the `\n` of a `\r\n`) cuts the list in two, so the lines keep their order and none is lost or merged |
| Text.CleanEntries | sqlglot/llm_wrapper.py:81 | the comprehension keeps no more entries than there are lines, each non-blank and stripped |
| Text.Upper | sqlglot/llm_wrapper.py:59 | `upper()` preserves length and maps each character to its upper-case form |
| Oracles.FirstOutput | sqlglot/llm_wrapper.py:100 | `transpile(...)[0]` succeeds exactly when the transpiler returns a non-empty list, and then yields its first element; otherwise it fails with the statement |
| LlmWrapper.FillThree | sqlglot/llm_wrapper.py:69 | `format` puts the argument into the hole once, between the literal text before and after it |
| LlmWrapper.SourceWordingSetsApartProcedures | sqlglot/llm_wrapper.py:10-11 | the stored-procedure template starts with a different letter from the double-check request |
| LlmWrapper.QueryType | sqlglot/llm_wrapper.py:58-65 | each class is characterised by an iff that does not depend on the order of the tests: a stored procedure is a `Create` whose upper-cased kind is `PROCEDURE`; an insert query is an `Insert`; a DDL query is any other DDL node; everything else is a query |
| LlmWrapper.ProcedureKindIgnoresCase | sqlglot/llm_wrapper.py:59 | a `Create` is a stored procedure exactly when its kind spells "procedure" in any case; a missing kind makes it a DDL query |
| LlmWrapper.LabelsDistinct | sqlglot/llm_wrapper.py:58-65 | the four class labels are pairwise distinct |
| LlmWrapper.Prompt | sqlglot/llm_wrapper.py:67-70 | a stored procedure gets the template with the SQL in its hole; any other class gets the double-check sentence naming the class, followed by the SQL; the dialect is ignored |
| LlmWrapper.ValidateMessages | sqlglot/llm_wrapper.py:120-125 | the double-check request is the translator system message plus a user message; for any class but a stored procedure its text is the double-check sentence naming the class, followed by the transpiled SQL |
| LlmWrapper.PromptInjective | sqlglot/llm_wrapper.py:67-70 | equal prompts mean equal classes and equal SQL, so nothing of either is lost |
| LlmWrapper.PromptLead | sqlglot/llm_wrapper.py:67-70 | the first letter of a prompt tells which of the two forms it has |
| LlmWrapper.BreakdownMessages | sqlglot/llm_wrapper.py:74-78 | the extraction request is the extractor system message plus the procedure inside the breakdown template |
| LlmWrapper.ReassembleMessages | sqlglot/llm_wrapper.py:85-89 | the reassembly request is the stored-procedure prompt for the untouched original, followed by the body introduction, the converted body verbatim, and a line break |
| LlmWrapper.ReassemblyCarriesBody | sqlglot/llm_wrapper.py:85 | for one original, the reassembly request determines the converted body it carries |
| LlmWrapper.DecomposeProcedure | sqlglot/llm_wrapper.py:72-81 | exactly one chat call with the breakdown request; it fails exactly when the assistant fails; otherwise the result is the non-blank stripped lines of the reply |
| LlmWrapper.ConvertStatement | sqlglot/llm_wrapper.py:97-103 | the entry always ends in `;`. After a successful transpile it is the first output plus `;`. After a failed one it is the statement with its trailing `;` run replaced by a single `;` |
| LlmWrapper.FallbackKeepsStatement | sqlglot/llm_wrapper.py:98-103 | on fallback, a statement ending in a single `;` comes back unchanged, and one without `;` gets exactly one appended |
| LlmWrapper.ConvertStatements | sqlglot/llm_wrapper.py:96-103 | one converted entry and one transpile call per statement, in order; each transpile call is on the listed statement with its trailing `;` removed |
| LlmWrapper.BodyListsEveryStatement | sqlglot/llm_wrapper.py:104 | for at least one statement, when no statement or output spans lines, splitting the body at `\n` recovers exactly the converted entries |
| LlmWrapper.ReassembleProcedure | sqlglot/llm_wrapper.py:83-91 | exactly one chat call with the reassembly request; it fails exactly when the assistant fails; otherwise it returns the stripped reply |
| LlmWrapper.TranspileProcedure | sqlglot/llm_wrapper.py:93-105 | the breakdown request is the first call; when it fails, the run is that failure after that one call; a success is stripped. ProcedurePath states the calls and outcome once the breakdown is answered |
| LlmWrapper.ToSingleStore | sqlglot/llm_wrapper.py:107-128 | the parse comes first; a parse failure is the "Please provide sql." error with no other call; every successful result is stripped |
| LlmWrapper.ProcedureRoute | sqlglot/llm_wrapper.py:114-117 | for a stored procedure whose breakdown is answered, the calls are the parse, the breakdown request, one transpile call per listed statement (each on that statement with its trailing `;` removed), then the reassembly request over the original and the joined body: 1 parse, 2 chats, one transpile per statement |
| LlmWrapper.ProcedureOutcome | sqlglot/llm_wrapper.py:114-117 | for a stored procedure whose breakdown is answered, the run succeeds exactly when the reassembly request is answered, returns its stripped reply, and otherwise fails with the assistant's error |
| LlmWrapper.ProcedurePath | sqlglot/llm_wrapper.py:93-105 | once the breakdown is answered, `_transpile_procedure` makes the per-statement calls and then the reassembly call, and returns the reassembly outcome |
| LlmWrapper.BreakdownFailureEndsRun | sqlglot/llm_wrapper.py:79 | a failed breakdown request ends the run with the assistant's error; nothing is transpiled or reassembled |
| LlmWrapper.DirectRoute | sqlglot/llm_wrapper.py:119-128 | for any other class there is exactly one transpile call, on the whole input. A transpile failure ends the run. Otherwise exactly one double-check request for the first output follows, and the result is the stripped reply |
| LlmWrapper.TranspileFailureAbsorbedOnlyForProcedures | sqlglot/llm_wrapper.py:99-119 | with an assistant that always answers, a stored procedure converts whatever the transpiler does, while any other input converts exactly when the transpiler yields a statement |
| LlmWrapper.DefaultArguments | sqlglot/llm_wrapper.py:55-110 | with the default model and dialect of `LLMWrapper()` and `to_singlestore`, the input is parsed as `tsql` and a stored procedure's breakdown request goes to `llama3` |
| Procedure.ResponseText | sqlglot/procedure.py:19-20 | a missing `response` field reads as the empty string and a text field as its text; a non-object body or a non-text field is a malformed reply |
| Procedure.CallLlm | sqlglot/procedure.py:14-20 | exactly one POST of the model, the prompt and `stream: false`. A failed request or a 4xx/5xx status raises before the body is read; otherwise the result is the response text |
| Procedure.ExtractTranspilableSql | sqlglot/procedure.py:23-32 | one request with the instructions in front of the procedure; it fails exactly when the request does; otherwise it returns the non-blank stripped `;` pieces of the reply, none containing `;` |
| Procedure.TranspileAll | sqlglot/procedure.py:46-48 | one transpile call per statement, in order, with no fallback. A success has one output per statement. A failure names the last statement called |
| Procedure.TranspileAllOutcome | sqlglot/procedure.py:46-48 | the run succeeds exactly when every statement converts, with each statement's first output in place; every statement before the last one called converted, and on failure the last one called did not |
| Procedure.TranspileAllStops | sqlglot/procedure.py:46-48 | the calls go on while statements convert: on success every statement converted; on failure all but the last one called did, and that one did not |
| Procedure.TranspileAllValues | sqlglot/procedure.py:47 | a successful run holds, at each position, the first element of the transpiler's output for that statement |
| Procedure.Frame | sqlglot/procedure.py:50 | the result is `DELIMITER //\n`, then the body, then `\n//\nDELIMITER ;` |
| Procedure.FrameInjective | sqlglot/procedure.py:50 | two framed procedures are equal exactly when their bodies are |
| Procedure.Body | sqlglot/procedure.py:49 | the body always ends in `;`, and is the lone `;` when there is no statement |
| Procedure.TranspileProcedure | sqlglot/procedure.py:35-50 | the extraction request comes first, and every successful result carries both frames around a non-empty body |
| Procedure.BodyTerminatesEach | sqlglot/procedure.py:49 | the body is the statements, each followed by `;`, one per line; with no statement it is a lone `;` |
| Procedure.BodyRoundTrip | sqlglot/procedure.py:32-49 | extracting the `;`-separated statements of a body recovers exactly the statements it was built from |
| Procedure.MissingResponseGivesEmptyProcedure | sqlglot/procedure.py:20 | a reply object without `response` yields no statements, no transpile call, and the frame around `;` |
| Procedure.ErrorStatusStopsBeforeExtraction | sqlglot/procedure.py:18 | a 4xx/5xx status ends the run after the one request, with that status as the error |
| Procedure.ExtractionFailureEndsRun | sqlglot/procedure.py:17-20 | any failed extraction (the request raised, a 4xx/5xx status, or a malformed reply) ends the run after the one request with that error; nothing is transpiled and no framed procedure is returned |
| Procedure.ExtractedCalls | sqlglot/procedure.py:45-48 | after extraction there is exactly one HTTP request; transpile calls follow one per statement, in order, and on success number exactly the statements |
| Procedure.ExtractedOutcome | sqlglot/procedure.py:45-50 | after extraction the run succeeds exactly when every statement converts, returning the framed body of the first outputs; otherwise the error names a statement that did not convert |
| Procedure.DefaultArguments | sqlglot/procedure.py:35-41 | with the default arguments the one request goes to `http://localhost:11434/api/generate` for `llama2` without streaming, and every transpile call reads `tsql` and writes `singlestore` |

## Left out

- The Streamlit interface (`streamlit_app.py`) and the SingleStore dialect are not part of this model. The dialect enters only as the opaque transpiler parameter.
- sqlglot's parser and transpiler are uninterpreted parameters. The classifier sees only the node classes it tests, and assumes, as in sqlglot's expression hierarchy, that `Create` and `Insert` derive from `DDL`.
- Network I/O, the 60-second timeout and JSON decoding are left out: a request either fails with an error text or returns a status and a decoded body.
- The chat assistant and the language model behind the HTTP endpoint are modelled as pure functions of their arguments. Nothing is claimed about what they answer, and concurrency is not modelled.
- Prompt wording: properties hold for any `Wording`. The only fact about the source text that is used is its first letter.
- Text.Upper: ASCII letters only. Python's full Unicode case mapping (for example `ß` to `SS`) is not modelled. The result is compared only with `PROCEDURE`, so the gap matters only for a non-ASCII character that Python would upper-case to one of its letters.
- LlmWrapper.Fill: only the `{procedure}` and `{converted}` holes are modelled. The templates contain no other braces, so `str.format` escapes and format specs never arise.
- LlmWrapper.ToSingleStore: its own contract covers only the parse step and the stripped result. The two routes are stated in full by `ProcedureRoute`, `BreakdownFailureEndsRun` and `DirectRoute`.
- Procedure.ResponseText: a `response` field that is not a string is reported as a malformed reply. In the source it is returned by `_call_llm` and fails only at the later `split`, which is the same end result for `transpile_procedure`.
- Procedure.TranspileProcedure: its own contract states the first call and the framing only. The calls and outcome are given by `ExtractionFailureEndsRun` when extraction fails (a raised request, a 4xx/5xx status, a malformed reply), and by `ExtractedCalls` and `ExtractedOutcome` when it succeeds.
