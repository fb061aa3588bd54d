/** The CSV branch of a registered POST route: the rows are split into
    parameters and documents, the endpoint's input model is built from them,
    and the request is dispatched to the executor. */
module CsvRoute {
  import opened Base
  import opened FieldTypes
  import opened CsvSplitter
  import opened Endpoints
  import opened Dispatcher

  /** `input_model(data=data, parameters=parameters)`: a required parameters
      field that received no parameters row fails validation; the header is
      always absent and `data` is always a list. */
  function InputFromCsv(spec: ParamSpec, sp: Split): (r: Result<InputBody>)
    ensures r.Err? <==> spec.required && sp.parameters.None?
    ensures r.Ok? ==> r.value.data == Many(sp.data) && r.value.parameters == sp.parameters && r.value.header.None?
  {
    if spec.required && sp.parameters.None? then Err(ValidationError("parameters"))
    else Ok(InputBody(Many(sp.data), sp.parameters, None))
  }

  /** The outcome of a CSV request on `route`; `initialId` is the id of the
      request `process` creates. */
  function CsvOutcome(p: Parsers, b: Backend, route: Route, rows: seq<seq<string>>, initialId: string): Result<Output> {
    var sp :- SplitBody(p, route.doc, route.params.model, rows);
    var body :- InputFromCsv(route.params, sp);
    Respond(b.caller(RequestFor(b, route.endpoint, initialId, body)))
  }

  /** The CSV branch of `post`: the row loop, then `process` on the input
      model built from its result. */
  method HandleCsv(p: Parsers, b: Backend, route: Route, rows: seq<seq<string>>, initialId: string)
    returns (r: Result<Output>)
    ensures r == CsvOutcome(p, b, route, rows, initialId)
  {
    var sp := SplitRows(p, route.doc, route.params.model, rows);
    if sp.Err? {
      return Err(sp.error);
    }
    var body := InputFromCsv(route.params, sp.value);
    if body.Err? {
      return Err(body.error);
    }
    r := Process(b, route.endpoint, initialId, body.value);
  }

  /** A body that fails to decode never reaches the executor: the error is
      the decoding error, whatever the executor would have answered. */
  lemma DecodeFailureSkipsExecutor(p: Parsers, b: Backend, other: Backend, route: Route,
                                   rows: seq<seq<string>>, initialId: string)
    requires SplitBody(p, route.doc, route.params.model, rows).Err?
    ensures CsvOutcome(p, b, route, rows, initialId) == Err(SplitBody(p, route.doc, route.params.model, rows).error)
    ensures CsvOutcome(p, b, route, rows, initialId) == CsvOutcome(p, other, route, rows, initialId)
  {
  }

  /** When the parameters are required, a body whose first row is not a
      parameters row is rejected by validation, before the executor runs. */
  lemma MissingRequiredParameters(p: Parsers, b: Backend, route: Route, rows: seq<seq<string>>, initialId: string)
    requires route.params.required
    requires |rows| == 0 || !IsParamsRow(rows[0])
    requires SplitBody(p, route.doc, route.params.model, rows).Ok?
    ensures CsvOutcome(p, b, route, rows, initialId) == Err(ValidationError("parameters"))
  {
    ParamsOnlyFromFirstRow(p, route.doc, route.params.model, rows);
  }

  /** A CSV request that decodes and validates sends all its documents, in
      row order, with the parameters row's record, to the route's endpoint,
      under the new request's own id: a CSV body never carries a header and
      its data is always a list. */
  lemma CsvRequestSent(p: Parsers, b: Backend, route: Route, rows: seq<seq<string>>, initialId: string, sp: Split)
    requires SplitBody(p, route.doc, route.params.model, rows) == Ok(sp)
    requires !route.params.required || sp.parameters.Some?
    ensures CsvOutcome(p, b, route, rows, initialId) ==
      Respond(b.caller(Envelope(Some(initialId), sp.parameters, route.endpoint, sp.data)))
    ensures |sp.data| == |rows| - DataStart(rows)
    ensures forall j :: DataStart(rows) <= j < |rows| ==>
      DecodeRow(p, route.doc, rows[j]) == Ok(sp.data[j - DataStart(rows)])
  {
    DataRowsInOrder(p, route.doc, route.params.model, rows, sp);
  }
}
