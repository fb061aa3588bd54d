/** The per-endpoint decisions `get_fastapi_app` makes when it registers a
    POST route: the route path, whether the parameters field is required and
    with which type, and the table of routes built from the endpoint map. */
module Endpoints {
  import opened Base
  import opened FieldTypes
  import opened LineDecoder

  /** The endpoint name that gets no route. */
  const DryRunEndpoint: string := "_jina_dry_run_"

  /** `s.strip("/")`: every leading and trailing '/' removed. */
  function Strip(s: string): (r: string)
    ensures |r| <= |s|
    ensures r == [] || (r[0] != '/' && r[|r| - 1] != '/')
    decreases |s|
  {
    if s != [] && s[0] == '/' then Strip(s[1..])
    else if s != [] && s[|s| - 1] == '/' then Strip(s[..|s| - 1])
    else s
  }

  /** `s[i..j]` has nothing but slashes before and after it in `s`. */
  predicate FramedBySlashes(s: string, i: nat, j: nat)
    requires i <= j <= |s|
  {
    (forall k :: 0 <= k < i ==> s[k] == '/') && (forall k :: j <= k < |s| ==> s[k] == '/')
  }

  /** Strip removes only slashes, and only at the two ends: the stripped name
      is a slice of the name with nothing but slashes before and after it. */
  lemma {:induction false} StripRemovesOnlyEndSlashes(s: string)
    ensures exists i: nat, j: nat :: i <= j <= |s| && FramedBySlashes(s, i, j) && Strip(s) == s[i..j]
    decreases |s|
  {
    if s != [] && s[0] == '/' {
      StripRemovesOnlyEndSlashes(s[1..]);
      var i: nat, j: nat :| i <= j <= |s[1..]| && FramedBySlashes(s[1..], i, j) && Strip(s[1..]) == s[1..][i..j];
      FramedAfterLeadingSlash(s, i, j);
    } else if s != [] && s[|s| - 1] == '/' {
      StripRemovesOnlyEndSlashes(s[..|s| - 1]);
      var i: nat, j: nat :| i <= j <= |s| - 1 && FramedBySlashes(s[..|s| - 1], i, j) && Strip(s[..|s| - 1]) == s[..|s| - 1][i..j];
      FramedBeforeTrailingSlash(s, i, j);
    } else {
      assert FramedBySlashes(s, 0, |s|) && Strip(s) == s[0..|s|];
    }
  }

  lemma FramedAfterLeadingSlash(s: string, i: nat, j: nat)
    requires s != [] && s[0] == '/' && i <= j <= |s| - 1 && FramedBySlashes(s[1..], i, j)
    ensures FramedBySlashes(s, i + 1, j + 1) && s[1..][i..j] == s[i + 1..j + 1]
  {
    assert forall k :: 0 < k < |s| ==> s[k] == s[1..][k - 1];
  }

  lemma FramedBeforeTrailingSlash(s: string, i: nat, j: nat)
    requires s != [] && s[|s| - 1] == '/' && i <= j <= |s| - 1 && FramedBySlashes(s[..|s| - 1], i, j)
    ensures FramedBySlashes(s, i, j) && s[..|s| - 1][i..j] == s[i..j]
  {
    assert forall k :: 0 <= k < |s| - 1 ==> s[k] == s[..|s| - 1][k];
  }

  /** A name with no slash at either end is its own stripped form. */
  lemma StripOfStripped(s: string)
    requires s == [] || (s[0] != '/' && s[|s| - 1] != '/')
    ensures Strip(s) == s
  {
  }

  /** The route path `f'/{endpoint_path.strip("/")}'`: exactly one leading
      slash, and no trailing slash unless the path is "/". */
  function RoutePath(endpoint: string): (path: string)
    ensures |path| > 0 && path[0] == '/' && (|path| == 1 || (path[1] != '/' && path[|path| - 1] != '/'))
  {
    "/" + Strip(endpoint)
  }

  /** The path starts with exactly one slash and does not end with one
      (unless it is "/"), and normalising it again changes nothing: "foo",
      "/foo" and "/foo/" all get the route "/foo". */
  lemma RoutePathNormal(endpoint: string)
    ensures var path := RoutePath(endpoint);
      path[0] == '/' && (|path| == 1 || (path[1] != '/' && path[|path| - 1] != '/'))
    ensures RoutePath(RoutePath(endpoint)) == RoutePath(endpoint)
    ensures RoutePath("/" + endpoint + "/") == RoutePath(endpoint)
  {
    var inner := Strip(endpoint);
    assert ("/" + inner)[1..] == inner;
    StripOfStripped(inner);
    var e := "/" + endpoint + "/";
    assert e[1..] == endpoint + "/";
    StripTrailing(endpoint);
  }

  lemma {:induction false} StripTrailing(s: string)
    ensures Strip(s + "/") == Strip(s)
    decreases |s|
  {
    var t := s + "/";
    if s != [] && s[0] == '/' {
      assert t[1..] == s[1..] + "/";
      StripTrailing(s[1..]);
    } else {
      assert t[..|t| - 1] == s;
    }
  }

  /** How the parameters field of the endpoint's input model is declared:
      its type, and whether it is required (default `...`) or optional
      (default `None`). */
  datatype ParamSpec = ParamSpec(model: ModelType, required: bool)

  /** Lines 327-341: with no parameters model the field is `Optional[Dict]`;
      with one, it is required exactly when `parameters_model()` raises,
      and is otherwise `Optional[parameters_model]`. */
  function ParamsSpecFor(zeroArgOk: Schema -> bool, parametersModel: Option<Schema>): (spec: ParamSpec)
    ensures spec.required <==> parametersModel.Some? && !zeroArgOk(parametersModel.value)
    ensures !spec.required ==> spec.model.OptionalOf? || spec.model.OptionalDict?
    ensures parametersModel.Some? ==> !spec.model.OptionalDict? && spec.model.schema == parametersModel.value
    ensures parametersModel.None? ==> spec.model.OptionalDict?
  {
    match parametersModel
    case None => ParamSpec(OptionalDict, false)
    case Some(s) => if zeroArgOk(s) then ParamSpec(OptionalOf(s), false) else ParamSpec(Record(s), true)
  }

  /** Parameters are required exactly when a parameters model exists and
      cannot be built without arguments; an optional field is `Optional`;
      and a parameters row is decoded against the declared model itself. */
  lemma ParamsRequiredness(p: Parsers, zeroArgOk: Schema -> bool, parametersModel: Option<Schema>)
    ensures var spec := ParamsSpecFor(zeroArgOk, parametersModel);
      (spec.required <==> parametersModel.Some? && !zeroArgOk(parametersModel.value)) &&
      (!spec.required ==> spec.model.OptionalOf? || spec.model.OptionalDict?) &&
      (parametersModel.Some? ==> Unwrap(p, spec.model) == Ok(parametersModel.value)) &&
      (parametersModel.None? ==> Unwrap(p, spec.model).Err? && Unwrap(p, spec.model).error.AttributeError?)
  {
  }

  /** The models an endpoint declares. */
  datatype EndpointModels = EndpointModels(input: Schema, output: Schema, parameters: Option<Schema>)

  /** A registered POST route: its path, the endpoint it executes, the names
      of the synthesized input and output models, the document schemas, and
      the parameters field. */
  datatype Route = Route(path: string, endpoint: string, inputModelName: string, outputModelName: string,
                         doc: Schema, output: Schema, params: ParamSpec)

  function RouteFor(zeroArgOk: Schema -> bool, endpoint: string, m: EndpointModels): Route {
    Route(RoutePath(endpoint), endpoint, Strip(endpoint) + "_input_model", Strip(endpoint) + "_output_model",
          m.input, m.output, ParamsSpecFor(zeroArgOk, m.parameters))
  }

  /** The routes for the first `n` entries of the endpoint map. */
  function Routes(zeroArgOk: Schema -> bool, entries: seq<(string, EndpointModels)>, n: nat): seq<Route>
    requires n <= |entries|
    decreases n
  {
    if n == 0 then []
    else if entries[n - 1].0 == DryRunEndpoint then Routes(zeroArgOk, entries, n - 1)
    else Routes(zeroArgOk, entries, n - 1) + [RouteFor(zeroArgOk, entries[n - 1].0, entries[n - 1].1)]
  }

  /** The registration loop over `request_models_map.items()`: one route per
      endpoint other than the dry-run endpoint, in map order. */
  method RegisterRoutes(zeroArgOk: Schema -> bool, entries: seq<(string, EndpointModels)>) returns (routes: seq<Route>)
    ensures routes == Routes(zeroArgOk, entries, |entries|)
  {
    routes := [];
    for i := 0 to |entries|
      invariant routes == Routes(zeroArgOk, entries, i)
    {
      var (endpoint, models) := entries[i];
      if endpoint != DryRunEndpoint {
        var params := ParamsSpecFor(zeroArgOk, models.parameters);
        var route := Route(RoutePath(endpoint), endpoint, Strip(endpoint) + "_input_model",
                           Strip(endpoint) + "_output_model", models.input, models.output, params);
        routes := routes + [route];
      }
    }
  }

  /** Every endpoint except the dry-run one gets its route, and every route
      belongs to such an endpoint. */
  lemma {:induction false} RoutesCoverEndpoints(zeroArgOk: Schema -> bool, entries: seq<(string, EndpointModels)>, n: nat)
    requires n <= |entries|
    ensures forall i :: 0 <= i < n && entries[i].0 != DryRunEndpoint ==>
      RouteFor(zeroArgOk, entries[i].0, entries[i].1) in Routes(zeroArgOk, entries, n)
    ensures forall r :: r in Routes(zeroArgOk, entries, n) ==>
      r.endpoint != DryRunEndpoint &&
      exists i :: 0 <= i < n && r == RouteFor(zeroArgOk, entries[i].0, entries[i].1)
    decreases n
  {
    if n > 0 {
      RoutesCoverEndpoints(zeroArgOk, entries, n - 1);
    }
  }
}
