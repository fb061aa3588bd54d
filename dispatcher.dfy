/** Wrapping a decoded input body into a request for the executor and mapping
    the executor's reply back to the endpoint's output, as `process` does. */
module Dispatcher {
  import opened Base

  datatype Header = Header(requestId: Option<string>)

  /** The `data` field of an input model: `Union[List[Doc], Doc]`. */
  datatype DataField = Many(docs: seq<Obj>) | One(doc: Obj)

  /** An instance of an endpoint's input model. */
  datatype InputBody = InputBody(data: DataField, parameters: Option<Obj>, header: Option<Header>)

  /** What the executor receives: request id, parameters (none stands for the
      request's default empty parameters), endpoint and documents. */
  datatype Envelope = Envelope(requestId: Option<string>, parameters: Option<Obj>, endpoint: string, docs: seq<Obj>)

  /** The status code of a reply: `StatusProto.SUCCESS`, `StatusProto.ERROR`,
      or any other code. */
  datatype StatusCode = Success | Error | OtherCode(code: int)

  datatype Status = Status(code: StatusCode, description: string)

  /** What the executor answers. */
  datatype Reply = Reply(status: Status, docs: seq<Obj>, parameters: Obj)

  /** An instance of an endpoint's output model. */
  datatype Output = Output(data: seq<Obj>, parameters: Obj)

  /** The executor side: a document's `id`, and the awaited `caller`. */
  datatype Backend = Backend(docId: Obj -> string, caller: Envelope -> Reply)

  /** The `DataRequest` that `process` fills in field by field. */
  class DataRequest {
    var requestId: Option<string>
    var parameters: Option<Obj>
    var endpoint: string
    var docs: seq<Obj>

    /** A new request carries the id it was created with. */
    constructor (initialId: string)
      ensures requestId == Some(initialId) && parameters == None && endpoint == "" && docs == []
    {
      requestId := Some(initialId);
      parameters := None;
      endpoint := "";
      docs := [];
    }

    function Snapshot(): Envelope
      reads this
    {
      Envelope(requestId, parameters, endpoint, docs)
    }
  }

  /** The request `process` sends for `body`. Only a header that carries no
      id leaves the request without one, and the request carries no documents
      only when the body's list is empty. */
  function RequestFor(b: Backend, endpoint: string, initialId: string, body: InputBody): (env: Envelope)
    ensures env.requestId.None? <==> body.header.Some? && body.header.value.requestId.None?
    ensures env.docs == [] <==> body.data == Many([])
    ensures env.endpoint == endpoint && env.parameters == body.parameters
  {
    Envelope(
      if body.header.Some? then body.header.value.requestId
      else if body.data.One? then Some(b.docId(body.data.doc))
      else Some(initialId),
      body.parameters,
      endpoint,
      if body.data.Many? then body.data.docs else [body.data.doc])
  }

  /** The reply mapped to the endpoint's result: an ERROR status becomes an
      HTTP 500 carrying the status description, any other status the output
      model built from the reply's documents and parameters. */
  function Respond(reply: Reply): (r: Result<Output>)
    ensures r.Err? ==> r.error.HttpError? && r.error.status == InternalServerError
    ensures r.Ok? ==> r.value.data == reply.docs && r.value.parameters == reply.parameters
  {
    if reply.status.code == Error then
      Err(HttpError(InternalServerError, Described(reply.status.description)))
    else Ok(Output(reply.docs, reply.parameters))
  }

  /** `process`: fills a new request from the body, awaits the executor, and
      maps its reply. `initialId` is the id the new request was created with. */
  method Process(b: Backend, endpoint: string, initialId: string, body: InputBody) returns (r: Result<Output>)
    ensures r == Respond(b.caller(RequestFor(b, endpoint, initialId, body)))
  {
    var req := new DataRequest(initialId);
    if body.header.Some? {
      req.requestId := body.header.value.requestId;
    }
    if body.parameters.Some? {
      req.parameters := body.parameters;
    }
    req.endpoint := endpoint;
    match body.data {
      case Many(docs) =>
        req.docs := docs;
      case One(doc) =>
        req.docs := [doc];
        if body.header.None? {
          req.requestId := Some(b.docId(req.docs[0]));
        }
    }
    var resp := b.caller(req.Snapshot());
    if resp.status.code == Error {
      r := Err(HttpError(InternalServerError, Described(resp.status.description)));
    } else {
      r := Ok(Output(resp.docs, resp.parameters));
    }
  }

  /** The request id is the header's when a header is present; otherwise it
      is the id of the first document sent, but only when `data` is a single
      document; a list, even of one document, keeps the new request's id. */
  lemma RequestIdChoice(b: Backend, endpoint: string, initialId: string, body: InputBody)
    ensures var env := RequestFor(b, endpoint, initialId, body);
      (body.data.One? ==> |env.docs| == 1) &&
      (body.header.Some? ==> env.requestId == body.header.value.requestId) &&
      (body.header.None? && body.data.One? ==> env.requestId == Some(b.docId(env.docs[0]))) &&
      (body.header.None? && body.data.Many? ==> env.requestId == Some(initialId))
  {
  }

  /** The documents sent are the body's, in order, a single document being
      sent as a list of one, to the endpoint of the route, with the body's
      parameters. */
  lemma RequestCarriesBody(b: Backend, endpoint: string, initialId: string, body: InputBody)
    ensures var env := RequestFor(b, endpoint, initialId, body);
      env.endpoint == endpoint && env.parameters == body.parameters &&
      (body.data.Many? ==> env.docs == body.data.docs) &&
      (body.data.One? ==> env.docs == [body.data.doc])
  {
  }

  /** Exactly the ERROR status fails the request, with a 500 whose detail is
      the executor's description; every other status returns its documents
      and parameters. */
  lemma ErrorStatusIsServerError(reply: Reply)
    ensures Respond(reply).Err? <==> reply.status.code == Error
    ensures Respond(reply).Err? ==>
      Respond(reply).error == HttpError(InternalServerError, Described(reply.status.description))
    ensures Respond(reply).Ok? ==> Respond(reply).value == Output(reply.docs, reply.parameters)
  {
  }
}
