/** Building JSON-RPC 2.0 request envelopes and classifying the responses (src/helper.rs). */
module Helper {
  import opened Wrappers
  import opened Json

  const JsonRpcVersion := "2.0"
  const HttpGetMethod := "GET"

  /** `BrpRequest`: the request object of section 4 of the JSON-RPC 2.0 Specification.
      The parameters are kept as the value that would be serialised. */
  datatype BrpRequest<P> = BrpRequest(jsonrpc: string, methodName: string, id: Option<Value>, params: Option<P>)

  /** An `ehttp::Request` with no headers; `body` stands for the serialised envelope. */
  datatype HttpRequest<P> = HttpRequest(httpMethod: string, url: string, body: BrpRequest<P>)

  /** `fetch_add(1)` on a 64-bit `usize` wraps around. */
  function Successor(v: u64): (r: u64)
    ensures v as int + 1 < U64_LIMIT ==> r as int == v as int + 1
    ensures v as int + 1 == U64_LIMIT ==> r == 0
  {
    ((v as int + 1) % U64_LIMIT) as u64
  }

  /** The counter value after `n` more fetch-and-increments. */
  function Advance(v: u64, n: nat): u64 {
    if n == 0 then v else Successor(Advance(v, n - 1))
  }

  lemma {:induction false} AdvanceWithoutWrap(v: u64, n: nat)
    requires v as int + n < U64_LIMIT
    ensures Advance(v, n) as int == v as int + n
  {
    if n > 0 {
      AdvanceWithoutWrap(v, n - 1);
    }
  }

  /** The process-wide `COUNTER`: the id the next envelope will carry. */
  class RequestCounter {
    var value: u64

    constructor ()
      ensures value == 1
    {
      value := 1;
    }

    /** `COUNTER.fetch_add(1, SeqCst)`: hands out the current value and moves on. */
    method FetchAdd() returns (previous: u64)
      modifies this
      ensures previous == old(value)
      ensures value == Successor(previous)
    {
      previous := value;
      value := Successor(value);
    }
  }

  /** The envelope `create_request` builds once it has drawn `id` from the counter. */
  function Envelope<P>(id: u64, methodName: string, params: Option<P>): (r: BrpRequest<P>)
    ensures r.jsonrpc == "2.0" && r.methodName == methodName
    ensures r.id == Some(Num(PosInt(id)))
    ensures r.params.None? <==> params.None?
    ensures r.params.Some? ==> r.params.value == params.value
  {
    BrpRequest(JsonRpcVersion, methodName, Some(Num(PosInt(id))), params)
  }

  /** `create_request`: draws the next id from the counter and wraps method and parameters. */
  method CreateRequest<P>(counter: RequestCounter, value: Option<P>, methodName: string) returns (r: BrpRequest<P>)
    modifies counter
    ensures r == Envelope(old(counter.value), methodName, value)
    ensures counter.value == Successor(old(counter.value))
  {
    var id := counter.FetchAdd();
    r := Envelope(id, methodName, value);
  }

  /** The HTTP request that carries an envelope to `url`. */
  function Get<P>(url: string, envelope: BrpRequest<P>): (r: HttpRequest<P>)
    ensures r.httpMethod == "GET" && r.url == url && r.body == envelope
  {
    HttpRequest(HttpGetMethod, url, envelope)
  }

  /** `make_request`: an envelope that always carries parameters. */
  method MakeRequest<P>(counter: RequestCounter, value: P, methodName: string, url: string) returns (r: HttpRequest<P>)
    modifies counter
    ensures r == Get(url, Envelope(old(counter.value), methodName, Some(value)))
    ensures counter.value == Successor(old(counter.value))
  {
    var envelope := CreateRequest(counter, Some(value), methodName);
    r := Get(url, envelope);
  }

  /** `make_empty_request`: an envelope without parameters. */
  method MakeEmptyRequest<P>(counter: RequestCounter, methodName: string, url: string) returns (r: HttpRequest<P>)
    modifies counter
    ensures r == Get(url, Envelope(old(counter.value), methodName, None))
    ensures counter.value == Successor(old(counter.value))
  {
    var envelope := CreateRequest(counter, None, methodName);
    r := Get(url, envelope);
  }

  /** Three envelopes built one after the other on a fresh counter carry ids 1, 2 and 3,
      whatever their methods. */
  method ThreeRequests(first: string, second: string, third: string)
    returns (a: BrpRequest<Value>, b: BrpRequest<Value>, c: BrpRequest<Value>)
    ensures a.id == Some(Num(PosInt(1))) && a.methodName == first
    ensures b.id == Some(Num(PosInt(2))) && b.methodName == second
    ensures c.id == Some(Num(PosInt(3))) && c.methodName == third
  {
    var counter := new RequestCounter();
    a := CreateRequest(counter, None, first);
    b := CreateRequest(counter, Some(Null), second);
    c := CreateRequest(counter, None, third);
  }

  // ----- responses -----

  /** The `error` member of a JSON-RPC failure response. */
  datatype RpcError = RpcError(code: i64, message: string, data: Option<Value>)

  /** `jsonrpc_types::Output`: one response object. */
  datatype Output = Success(result: Value, id: Value) | Failure(error: RpcError, id: Value)

  /** `jsonrpc_types::v2::Response`: a single response or a batch. */
  datatype RpcResponse = Single(output: Output) | Batch(outputs: seq<Output>)

  /** An `ehttp::Response`: whether the status was 2xx, the status code, and the body read
      as text (`None` when it is not UTF-8) holding a JSON-RPC response. */
  datatype HttpResponse = HttpResponse(ok: bool, status: nat, text: Option<RpcResponse>)

  /** The `String` error of `parse`: a message, or the remote failure whose text it is. */
  datatype ParseError = Message(text: string) | RemoteFailure(error: RpcError, id: Value)

  const CannotParseText := "Cannot parse text"
  const NotOne := "NOT ONE"

  /** serde_json's `from_value::<T>`: decodes a value into the requested shape or explains why not. */
  type Decoder<T> = Value -> Result<T, string>

  /** `parse`: classifies a response and decodes the payload of a single success. */
  function Parse<T>(response: HttpResponse, decode: Decoder<T>): (r: Result<T, ParseError>)
    ensures r.Ok? ==> response.text.Some? && response.text.value.Single? && response.text.value.output.Success?
    ensures r.Ok? ==> decode(response.text.value.output.result) == Ok(r.value)
  {
    match response.text
    case None => Err(Message(CannotParseText))
    case Some(Batch(_)) => Err(Message(NotOne))
    case Some(Single(Failure(e, id))) => Err(RemoteFailure(e, id))
    case Some(Single(Success(result, _))) =>
      match decode(result)
      case Ok(v) => Ok(v)
      case Err(message) => Err(Message(message))
  }

  lemma ParseNoText<T>(response: HttpResponse, decode: Decoder<T>)
    requires response.text.None?
    ensures Parse(response, decode) == Err(Message("Cannot parse text"))
  {
  }

  /** A batch is refused whatever its outputs, without decoding any of them. */
  lemma ParseBatch<T>(response: HttpResponse, decode: Decoder<T>, other: Decoder<T>)
    requires response.text.Some? && response.text.value.Batch?
    ensures Parse(response, decode) == Err(Message("NOT ONE"))
    ensures Parse(response, decode) == Parse(response.(text := Some(Batch([]))), other)
  {
  }

  /** A failure output yields its error and no decoder is consulted. */
  lemma ParseFailure<T>(response: HttpResponse, decode: Decoder<T>, other: Decoder<T>, e: RpcError, id: Value)
    requires response.text == Some(Single(Failure(e, id)))
    ensures Parse(response, decode) == Err(RemoteFailure(e, id))
    ensures Parse(response, decode) == Parse(response, other)
  {
  }

  /** A success output is `Ok(v)` exactly when its whole payload decodes to `v`;
      otherwise the decoder's message is the error. */
  lemma ParseSuccess<T>(response: HttpResponse, decode: Decoder<T>, result: Value, id: Value)
    requires response.text == Some(Single(Success(result, id)))
    ensures forall v :: Parse(response, decode) == Ok(v) <==> decode(result) == Ok(v)
    ensures decode(result).Err? ==> Parse(response, decode) == Err(Message(decode(result).error))
  {
  }

  /** `parse` succeeds only on a single success output. */
  lemma ParseOkOnlyOnSingleSuccess<T>(response: HttpResponse, decode: Decoder<T>)
    ensures Parse(response, decode).Ok? <==>
      response.text.Some? && response.text.value.Single? && response.text.value.output.Success?
      && decode(response.text.value.output.result).Ok?
  {
  }
}
