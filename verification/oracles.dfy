/** The collaborators both pipelines call but do not implement, modelled as
    uninterpreted function parameters, and the trace of calls a pipeline run
    makes into them.

    - the SQL parser (sqlglot's `parse_one`), which may reject its input;
    - the SQL transpiler (sqlglot's `transpile`), which may raise, and which
      returns a list of output statements of which callers take the first;
    - the chat assistant (`ollama.chat`), which may fail;
    - the HTTP client behind the older procedure path (`requests.post`),
      which may fail to deliver a response at all. */
module Oracles {
  import opened Wrappers

  /** The node `parse_one` returns, as far as the classifier looks at it.
      In sqlglot's expression hierarchy both `Create` and `Insert` derive
      from `DDL`; `kind` is the declared object kind of a `Create`
      (`"PROCEDURE"`, `"TABLE"`, ...), which may be absent. */
  datatype Expr = Create(kind: Option<string>) | Insert | OtherDdl | OtherExpr {
    predicate IsDdl() {
      Create? || Insert? || OtherDdl?
    }
  }

  /** One chat message: a role (`"system"` or `"user"`) and its text. */
  datatype Message = Message(role: string, content: string)

  /** The JSON payload the procedure path posts: model, prompt, stream flag. */
  datatype GenerateRequest = GenerateRequest(model: string, prompt: string, stream: bool)

  /** A field value of the decoded JSON reply: a string, or anything else
      (null, number, boolean, list, object). */
  datatype JsonValue = JString(text: string) | JOther

  /** The decoded reply body: a JSON object, some other JSON value, or text
      that is not JSON at all. */
  datatype JsonBody = JObject(fields: map<string, JsonValue>) | JNonObject | NotJson

  datatype HttpResponse = HttpResponse(status: int, body: JsonBody)

  /** `parse_one(sql, read=dialect)`; `None` when it raises. */
  type Parser = (string, string) -> Option<Expr>

  /** `transpile(text, read=..., write=...)`; `None` when it raises. */
  type Transpiler = (string, string, string) -> Option<seq<string>>

  /** `ollama.chat(model=..., messages=...)["message"]["content"]`; a
      failure carries the service's error text. */
  type Assistant = (string, seq<Message>) -> Result<string, string>

  /** `requests.post(url, json=request, timeout=60)`; a failure, with the
      error text, when the request raises (connection failure, the
      60-second timeout). */
  type HttpClient = (string, GenerateRequest) -> Result<HttpResponse, string>

  datatype Service = ParserService | TranspilerService | AssistantService | HttpService

  /** One call a pipeline makes into a collaborator, with its arguments. */
  datatype Call =
    | ParseCall(sql: string, read: string)
    | TranspileCall(text: string, read: string, write: string)
    | ChatCall(model: string, messages: seq<Message>)
    | PostCall(url: string, request: GenerateRequest)
  {
    function Service(): Service {
      match this
      case ParseCall(_, _) => ParserService
      case TranspileCall(_, _, _) => TranspilerService
      case ChatCall(_, _) => AssistantService
      case PostCall(_, _) => HttpService
    }
  }

  /** Number of calls into `service` in a trace. */
  function Count(trace: seq<Call>, service: Service): nat
    decreases |trace|
  {
    if |trace| == 0 then 0
    else (if trace[0].Service() == service then 1 else 0) + Count(trace[1..], service)
  }

  lemma {:induction false} CountAppend(a: seq<Call>, b: seq<Call>, service: Service)
    ensures Count(a + b, service) == Count(a, service) + Count(b, service)
    decreases |a|
  {
    if |a| == 0 {
      assert a + b == b;
    } else {
      assert (a + b)[1..] == a[1..] + b;
      CountAppend(a[1..], b, service);
    }
  }

  /** A trace whose calls all go to one service counts each of them there
      and none anywhere else. */
  lemma {:induction false} CountUniform(trace: seq<Call>, service: Service, other: Service)
    requires forall k :: 0 <= k < |trace| ==> trace[k].Service() == service
    requires other != service
    ensures Count(trace, service) == |trace|
    ensures Count(trace, other) == 0
    decreases |trace|
  {
    if |trace| > 0 {
      CountUniform(trace[1..], service, other);
    }
  }

  /** The exceptions that escape the pipelines. */
  datatype Error =
    | InvalidInput(message: string)   // the ValueError raised when parsing fails
    | TranspileFailed(text: string)   // transpile raised, or returned no statement to take first
    | ServiceFailed(reason: string)   // the assistant or the HTTP request failed
    | HttpStatus(code: int)           // raise_for_status on a 4xx or 5xx reply
    | MalformedReply                  // the reply body is not JSON, or not a text field

  /** The outcome of a pipeline run together with the calls it made, in order. */
  datatype Run<T> = Run(outcome: Result<T, Error>, trace: seq<Call>)

  /** `transpile(text, ...)[0]`: the first output statement; raising, or an
      empty output list (an IndexError), is a failure. */
  function FirstOutput(output: Option<seq<string>>, text: string): (r: Result<string, Error>)
    ensures r.Success? <==> output.Some? && |output.value| > 0
    ensures r.Success? ==> r.value == output.value[0]
    ensures r.Failure? ==> r.error == TranspileFailed(text)
  {
    if output.Some? && |output.value| > 0 then Success(output.value[0])
    else Failure(TranspileFailed(text))
  }
}
