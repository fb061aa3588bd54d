# CSV decoding in Jina's SageMaker-compatible HTTP worker app

This project models the CSV path of the HTTP app that Jina's worker runtime
serves for AWS SageMaker (`get_fastapi_app` in `jina/serve/runtimes/worker/http_csp_app.py`). It covers:

- how one cell is decoded against a field's declared type
  (`recursive_parse`: Literal, Union, list, DocList, bool and other scalars);
- how one headerless CSV row becomes a model (`construct_model_from_line`);
- how the rows of a body are split into an optional parameters row and the
  input documents (the row loop of `post`);
- how the decoded body is sent to the executor and its reply mapped back
  (`process`);
- how each endpoint is registered: its route path, and whether its
  `parameters` field is required.

Python's dynamic pieces are explicit parameters. The calls into pydantic, docarray and
`json` are function-valued fields of the `Parsers` value:
`json.loads`, iteration over the decoded JSON, `model_validate`,
`parse_obj_as`, `DocList[T](s)` and `model(**fields)`. The document `id` and the
executor `caller` are fields of the `Backend` value. Every exception is a
value of `Exc`, kept apart by kind. The raising and catching in the source
become `Result` values and the `Step` of one cell: store a value, skip the
field, or raise.

The modules follow the program's structure:
`Base` (results, exceptions, ASCII lower-casing), `FieldTypes` (field types,
schemas, parsers), `FieldParser` (`recursive_parse`), `LineDecoder`
(`construct_model_from_line`), `CsvSplitter` (the row loop), `Endpoints`
(route registration), `Dispatcher` (`process`) and `CsvRoute` (the CSV
branch end to end).

The model follows the code as written, including these behaviours a reader
might not expect:

- A Union field tries its candidates even when the cell is empty. So
  `Optional[Literal[...]]` rejects an empty cell with the Literal's 400 unless
  "" is an allowed value; the field is not left absent.
- The Union loop never initialises `success`. When every candidate fails
  softly, reading it raises `UnboundLocalError` (a `NameError`). The
  `ValueError` written after the loop can never be raised. The row then fails
  with the per-field 400 that wraps the `NameError`.
- `line[idx]` is read outside the `try`. A parameters row with fewer cells
  than the parameters model raises `IndexError`, not the per-field 400.
  Data rows are protected by the cell-count test that runs before them.
- A body with a parameters row for an endpoint without a parameters model
  decodes that row against `Dict`. That has no model fields, so it raises
  `AttributeError`.

## Model

| member | source | states |
|---|---|---|
| Base.Lower | jina/serve/runtimes/worker/http_csp_app.py:221-223 | `str.lower()` on ASCII: the same length, each character lowered in place |
| FieldTypes.FieldNames | jina/serve/runtimes/worker/http_csp_app.py:281 | the field names of a model, in declared order, one per field |
| FieldParser.Parse | jina/serve/runtimes/worker/http_csp_app.py:161-236 | a field is left absent only when its cell is empty, and a Union field never fails with ValueError, TypeError or ValidationError, so an enclosing Union never swallows its failure |
| FieldParser.TryCandidates | jina/serve/runtimes/worker/http_csp_app.py:172-189 | the Union loop never ends in a soft failure: it ends in some candidate's store, skip or hard failure, or in the NameError for `success`; it skips only for an empty cell |
| FieldParser.ValidateAll | jina/serve/runtimes/worker/http_csp_app.py:196-198 | calls `model_validate` on each decoded element. On success there is one validated instance per element, in order; on failure the error is that of the first element that fails, all earlier ones having validated |
| FieldParser.LoadList | jina/serve/runtimes/worker/http_csp_app.py:190-215 | a non-empty list or DocList cell is always stored or raises; it is never skipped |
| FieldParser.RecursiveParse | jina/serve/runtimes/worker/http_csp_app.py:161-236 | raises exactly when the cell's decoding step raises, and then with that exception and the dictionary unchanged. Otherwise the dictionary is updated by that step: the value stored under the field name, or the field left out |
| FieldParser.LiteralAcceptsExactly | jina/serve/runtimes/worker/http_csp_app.py:162-169 | a Literal stores the cell unchanged exactly when it is an allowed value. Otherwise it raises the non-catchable 400 naming the field, the value and the allowed values |
| FieldParser.UnionStopsAtFirstNonSoft | jina/serve/runtimes/worker/http_csp_app.py:172-185 | candidates are tried in declared order: after candidates that each fail with ValueError, TypeError or ValidationError, the first one that does not fail that way decides the Union's outcome, and later candidates are ignored |
| FieldParser.HardFailureEscapes | jina/serve/runtimes/worker/http_csp_app.py:175-184 | any other exception from a candidate, such as a Literal's 400, escapes the Union at once |
| FieldParser.UnionExhausted | jina/serve/runtimes/worker/http_csp_app.py:172-189 | when every candidate fails softly, the Union raises NameError for `success`, which an enclosing Union does not catch |
| FieldParser.UnionOutcomeFromCandidate | jina/serve/runtimes/worker/http_csp_app.py:172-189 | conversely, any other Union outcome is the outcome of some candidate, and every earlier candidate failed softly |
| FieldParser.EmptyOptionalLiteralRejected | jina/serve/runtimes/worker/http_csp_app.py:162-189 | an `Optional[Literal[...]]` field without "" among its values rejects the empty cell with the Literal's 400 |
| FieldParser.EmptyCellAbsent | jina/serve/runtimes/worker/http_csp_app.py:190-218 | an empty cell leaves a list, DocList, bool or scalar field absent, also as the first candidate of a Union |
| FieldParser.ListPassesThrough | jina/serve/runtimes/worker/http_csp_app.py:190-215 | a non-empty list cell of non-model elements stores what `json.loads` returns, unchanged; a `json.loads` failure propagates |
| FieldParser.ListValidatesEachElement | jina/serve/runtimes/worker/http_csp_app.py:196-210 | under pydantic 2, a non-empty `List[T]` or `DocList[T]` cell of model elements stores one validated instance per decoded element, in order, wrapped in `DocList[T]` for a DocList field. Otherwise it raises the first failing element's error |
| FieldParser.ListParsedWhole | jina/serve/runtimes/worker/http_csp_app.py:193-215 | a `json.loads` failure on a non-empty list or DocList cell propagates. Under pydantic 1 a list of model elements is converted as a whole by `parse_obj_as(List[T], ...)` or `parse_obj_as(DocList[T], ...)`, whose failure propagates |
| FieldParser.BoolAcceptsTrueFalse | jina/serve/runtimes/worker/http_csp_app.py:219-229 | a non-empty bool cell decodes exactly when it lower-cases to "true" or "false", to the matching boolean. Anything else is the 400 naming the field and the value |
| FieldParser.BoolIgnoresCase | jina/serve/runtimes/worker/http_csp_app.py:219-224 | "TRUE" and "False" decode to the matching booleans |
| FieldParser.BoolRejectsOtherWords | jina/serve/runtimes/worker/http_csp_app.py:219-229 | "1" and "yes" are rejected with the bool 400 |
| FieldParser.ScalarFallback | jina/serve/runtimes/worker/http_csp_app.py:230-236 | a non-empty scalar cell is converted by `DocList[T](s)`. Only when that fails with ValueError, TypeError or ValidationError is `parse_obj_as(T, s)` tried, and its failure propagates |
| LineDecoder.Unwrap | jina/serve/runtimes/worker/http_csp_app.py:239-251 | `Optional[X]` is unwrapped to X's fields; `Optional[Dict]` raises AttributeError on the field table |
| LineDecoder.Fill | jina/serve/runtimes/worker/http_csp_app.py:253-271 | the field loop gets through its fields only when the row has a cell for each of them. Any failure is either the unwrapped IndexError or the per-field 400, never a bare parser exception |
| LineDecoder.FromLine | jina/serve/runtimes/worker/http_csp_app.py:238-273 | a model is constructed only for a model type, not `Optional[Dict]`, and only from a row with a cell for each of its fields |
| LineDecoder.ConstructModelFromLine | jina/serve/runtimes/worker/http_csp_app.py:238-273 | the loop's result is the left fold of field decoding over the declared fields, followed by the constructor call on the completed dictionary |
| LineDecoder.FillErrorPersists | jina/serve/runtimes/worker/http_csp_app.py:253-271 | once a field has raised, the fields after it are never decoded |
| LineDecoder.FillSucceedsIff | jina/serve/runtimes/worker/http_csp_app.py:253-271 | every field decodes exactly when the row has a cell for every field and no field's decoding raises |
| LineDecoder.FillValues | jina/serve/runtimes/worker/http_csp_app.py:253-271 | with distinct field names: each field whose step stores holds the value decoded from its own cell, each skipped field is absent, and there is no other key |
| LineDecoder.FirstFailingFieldReported | jina/serve/runtimes/worker/http_csp_app.py:261-271 | the first field whose decoding raises decides the row: one 400 naming that field, its raw cell and the cause, whatever follows |
| LineDecoder.ShortRowIndexError | jina/serve/runtimes/worker/http_csp_app.py:258 | a row that runs out of cells before any field fails raises IndexError, outside the per-field 400 |
| LineDecoder.ConstructOnlyAfterAllFields | jina/serve/runtimes/worker/http_csp_app.py:253-273 | when a field fails, the model constructor is never called: the outcome does not depend on it and is the field's error |
| LineDecoder.ConstructFromCompleteFields | jina/serve/runtimes/worker/http_csp_app.py:273 | when every field decodes, the model is constructed from exactly the decoded dictionary |
| CsvSplitter.DecodeRow | jina/serve/runtimes/worker/http_csp_app.py:297-312 | a data row with the wrong cell count is the 400 naming the row and the expected field order; a decoded row has one cell per field |
| CsvSplitter.DecodeRows | jina/serve/runtimes/worker/http_csp_app.py:297-312 | decoding the data rows yields one document per row |
| CsvSplitter.SplitBody | jina/serve/runtimes/worker/http_csp_app.py:281-312 | the decoded body has parameters exactly when its first row is a parameters row, and one document per remaining row |
| CsvSplitter.SplitRows | jina/serve/runtimes/worker/http_csp_app.py:281-312 | the row loop's result is the parameters record of a marked first row (if any) plus the data rows decoded in order, and the first failing row decides the error |
| CsvSplitter.DecodeRowsErrorPersists | jina/serve/runtimes/worker/http_csp_app.py:285-312 | a failing data row stops the loop: later rows are never decoded |
| CsvSplitter.DecodeRowsInOrder | jina/serve/runtimes/worker/http_csp_app.py:297-312 | the rows decode exactly when each row decodes; then there is one document per row, in row order, each the decoding of its row |
| CsvSplitter.ShapeMismatchReported | jina/serve/runtimes/worker/http_csp_app.py:297-312 | the first row with the wrong cell count, after rows that decoded, fails the body with the 400 naming the row and the expected field order |
| CsvSplitter.ParamsOnlyFromFirstRow | jina/serve/runtimes/worker/http_csp_app.py:291-295 | the body has parameters exactly when its first row has "params_row" as its second cell. They are that row's cells after the marker, decoded against the parameters model; the data are the remaining rows |
| CsvSplitter.DataRowsInOrder | jina/serve/runtimes/worker/http_csp_app.py:285-312 | every data row, in input order, becomes exactly one document |
| CsvSplitter.DecodedRowHasShape | jina/serve/runtimes/worker/http_csp_app.py:297-312 | a data row that decodes has one cell per document field and is decoded by `construct_model_from_line` against the document model |
| CsvSplitter.ParamsRowExample | jina/serve/runtimes/worker/http_csp_app.py:291-295 | `_,params_row,5,true` followed by one data row yields the parameters decoded from `5,true` and one document |
| Endpoints.Strip | jina/serve/runtimes/worker/http_csp_app.py:95 | `strip("/")` leaves no '/' at either end and never lengthens the name |
| Endpoints.RoutePath | jina/serve/runtimes/worker/http_csp_app.py:95 | the route path starts with exactly one '/' and does not end with one unless it is "/" |
| Endpoints.StripRemovesOnlyEndSlashes | jina/serve/runtimes/worker/http_csp_app.py:95 | the stripped name is a slice of the name with nothing but slashes before and after it |
| Endpoints.StripOfStripped | jina/serve/runtimes/worker/http_csp_app.py:95 | a name with no slash at either end is unchanged |
| Endpoints.RoutePathNormal | jina/serve/runtimes/worker/http_csp_app.py:95 | the route path starts with exactly one '/', does not end with one unless it is "/", and is idempotent; "foo" and "/foo/" give the same route |
| Endpoints.ParamsSpecFor | jina/serve/runtimes/worker/http_csp_app.py:327-341 | `parameters` is required exactly when a parameters model exists and cannot be built without arguments. An optional field is `Optional[model]`, or `Optional[Dict]` when there is no model. The declared type is always the parameters model itself when one exists |
| Endpoints.ParamsRequiredness | jina/serve/runtimes/worker/http_csp_app.py:327-341 | `parameters` is required exactly when a parameters model exists and cannot be built without arguments. Otherwise it is Optional. A parameters row is decoded against the model itself, or fails with AttributeError when there is only `Optional[Dict]` |
| Endpoints.RegisterRoutes | jina/serve/runtimes/worker/http_csp_app.py:323-369 | the registration loop yields the routes of the endpoint map in order, skipping the dry-run endpoint |
| Endpoints.RoutesCoverEndpoints | jina/serve/runtimes/worker/http_csp_app.py:323-324 | every endpoint except `_jina_dry_run_` gets its route, and every route belongs to such an endpoint |
| Dispatcher.DataRequest.constructor | jina/serve/runtimes/worker/http_csp_app.py:117 | a new request carries its generated id and nothing else |
| Dispatcher.RequestFor | jina/serve/runtimes/worker/http_csp_app.py:116-131 | the request is left without an id only by a header that carries none. It has no documents only when the body's list is empty, and it carries the route's endpoint and the body's parameters |
| Dispatcher.Respond | jina/serve/runtimes/worker/http_csp_app.py:136-140 | a failed reply is always an HTTP 500; a successful one returns the reply's documents and parameters |
| Dispatcher.Process | jina/serve/runtimes/worker/http_csp_app.py:116-140 | `process` sends the request built from the body, and its result is the executor's reply mapped to the output |
| Dispatcher.RequestIdChoice | jina/serve/runtimes/worker/http_csp_app.py:117-134 | the header's request id wins. With no header, a single document's id is used. A list, even of one document, keeps the generated id |
| Dispatcher.RequestCarriesBody | jina/serve/runtimes/worker/http_csp_app.py:120-131 | the executor receives the body's documents in order (one document as a list of one), its parameters and the route's endpoint |
| Dispatcher.ErrorStatusIsServerError | jina/serve/runtimes/worker/http_csp_app.py:136-140 | exactly the ERROR status fails the request, with an HTTP 500 carrying the status description. Any other status returns the reply's documents and parameters |
| CsvRoute.InputFromCsv | jina/serve/runtimes/worker/http_csp_app.py:314 | building the input model fails exactly when the parameters are required and no parameters row was given. Otherwise `data` is the list of documents, the parameters are passed through and there is no header |
| CsvRoute.HandleCsv | jina/serve/runtimes/worker/http_csp_app.py:281-314 | the CSV branch is the row loop, then the input model, then `process` |
| CsvRoute.DecodeFailureSkipsExecutor | jina/serve/runtimes/worker/http_csp_app.py:281-314 | a body that fails to decode never reaches the executor: the error is the decoding error, whatever the executor would answer |
| CsvRoute.MissingRequiredParameters | jina/serve/runtimes/worker/http_csp_app.py:314 | with required parameters, a body whose first row is not a parameters row is rejected by validation before the executor runs |
| CsvRoute.CsvRequestSent | jina/serve/runtimes/worker/http_csp_app.py:314 | a CSV request that decodes sends every data row's document in row order, with the parameters row's record, under the newly generated request id |

## Left out

- The FastAPI app itself is not modelled: app creation, CORS, the `/ping` health route, response classes and OpenAPI metadata are framework configuration with no logic of their own.
- The content-type dispatch of `post` is not modelled. The JSON branch hands the body straight to pydantic, and other content types get a fixed 400.
- Reading the request body and decoding it as UTF-8 is I/O. The CSV tokenizer (`csv.reader` with no quoting and '\\' as escape) and the `is_valid_csv` pre-validation are the standard library. The model starts from rows already split into cells.
- The model does not decide the outcome of `json.loads`, `model_validate`, `parse_obj_as`, `DocList[T](s)` or `model(**fields)`. They are parameters of the model, and no property depends on their behaviour.
- `pydantic.create_model`, config inheritance and field-alias handling are not modelled. The synthesized input and output models are represented by their field lists and names.
- `DataRequest()` draws a random request id. That id is the parameter `initialId`.
- The executor call is not modelled as asynchronous: `caller` is the awaited reply.
- Protobuf conversion of parameters and documents is not modelled. The request's documents and parameters are the body's values.
- The pydantic validation of `data` inside `input_model(...)` is not modelled. Documents built by `construct_model_from_line` are taken as valid. Only the required-parameters rule is modelled.
- Literal arguments that are not strings are not modelled: a cell is a string, and it can only equal a string value.
- Dispatcher.RequestFor: a header whose `request_id` is None is modelled as a request with no id. What protobuf does when None is assigned to its string field is not modelled.
- The numeric values of the protobuf status codes are not modelled. Only whether a reply's code is ERROR matters.
- Base.Lower: lower-cases ASCII letters only. It is exact for comparing with "true" and "false", but not Python's full Unicode `str.lower()`.
- CsvRoute.InputFromCsv: a missing required `parameters` field fails with a generic ValidationError. The error message pydantic builds is not modelled.
