/** Decoding one CSV row into a model, as `construct_model_from_line` does:
    the i-th declared field is decoded from the i-th cell, the first failing
    field aborts the row with one HTTP 400, and the model is constructed only
    from a complete `parsed_fields` dictionary. */
module LineDecoder {
  import opened Base
  import opened FieldTypes
  import opened FieldParser

  /** `Optional[X]` is unwrapped to `X`. `Optional[Dict]` unwraps to `Dict`,
      which has no model fields: reading them raises AttributeError. */
  function Unwrap(p: Parsers, m: ModelType): (r: Result<Schema>)
    ensures m.Record? || m.OptionalOf? ==> r == Ok(m.schema)
    ensures m.OptionalDict? ==> r.Err? && r.error.AttributeError?
  {
    match m
    case Record(s) => Ok(s)
    case OptionalOf(s) => Ok(s)
    case OptionalDict => Err(AttributeError(if p.pydanticV2 then "model_fields" else "__fields__"))
  }

  /** The dictionary after the loop has handled the first `n` fields. Reading
      `line[idx]` is outside the `try`, so a row shorter than the model raises
      IndexError unwrapped; a decoding failure becomes the per-field 400. */
  function Fill(p: Parsers, fs: seq<Field>, line: seq<string>, n: nat): (r: Result<map<string, Value>>)
    requires n <= |fs|
    ensures r.Ok? ==> n <= |line|
    ensures r.Err? ==>
      (r.error == IndexError || (r.error.HttpError? && r.error.status == BadRequest && r.error.detail.FieldError?))
    decreases n
  {
    if n == 0 then Ok(map[])
    else
      match Fill(p, fs, line, n - 1)
      case Err(e) => Err(e)
      case Ok(m) =>
        if n - 1 >= |line| then Err(IndexError)
        else
          var s := Parse(p, fs[n - 1].ftype, fs[n - 1].name, line[n - 1]);
          if s.Raise? then Err(HttpError(BadRequest, FieldError(fs[n - 1].name, line[n - 1], s.e)))
          else Ok(Apply(m, fs[n - 1].name, s))
  }

  /** The result of `construct_model_from_line(model, line)`. A model is
      built only for a real model type, from a row with a cell for each of its
      fields. */
  function FromLine(p: Parsers, m: ModelType, line: seq<string>): (r: Result<Obj>)
    ensures r.Ok? ==> (m.Record? || m.OptionalOf?) && |m.schema.fields| <= |line|
  {
    var s :- Unwrap(p, m);
    var fields :- Fill(p, s.fields, line, |s.fields|);
    p.construct(s, fields)
  }

  /** `construct_model_from_line`: unwraps the model type, decodes each
      declared field from its cell into `parsed_fields`, and constructs the
      model from the whole dictionary. */
  method ConstructModelFromLine(p: Parsers, model: ModelType, line: seq<string>) returns (r: Result<Obj>)
    ensures r == FromLine(p, model, line)
  {
    var unwrapped := Unwrap(p, model);
    if unwrapped.Err? {
      return Err(unwrapped.error);
    }
    var fs := unwrapped.value.fields;
    var parsed: map<string, Value> := map[];
    for idx := 0 to |fs|
      invariant Fill(p, fs, line, idx) == Ok(parsed)
    {
      if idx >= |line| {
        FillErrorPersists(p, fs, line, idx + 1, |fs|);
        return Err(IndexError);
      }
      var fieldStr := line[idx];
      var out, raised := RecursiveParse(p, fs[idx].ftype, fs[idx].name, fieldStr, parsed);
      if raised.Some? {
        FillErrorPersists(p, fs, line, idx + 1, |fs|);
        return Err(HttpError(BadRequest, FieldError(fs[idx].name, fieldStr, raised.value)));
      }
      parsed := out;
    }
    r := p.construct(unwrapped.value, parsed);
  }

  /** Once the loop has raised, the fields after it are never decoded. */
  lemma {:induction false} FillErrorPersists(p: Parsers, fs: seq<Field>, line: seq<string>, n: nat, m: nat)
    requires n <= m <= |fs|
    requires Fill(p, fs, line, n).Err?
    ensures Fill(p, fs, line, m) == Fill(p, fs, line, n)
    decreases m
  {
    if m > n {
      FillErrorPersists(p, fs, line, n, m - 1);
    }
  }

  /** No field raises: the cell decoded from `line[i]` for the i-th field. */
  ghost predicate CellOk(p: Parsers, fs: seq<Field>, line: seq<string>, i: nat)
    requires i < |fs| && i < |line|
  {
    !Parse(p, fs[i].ftype, fs[i].name, line[i]).Raise?
  }

  /** The loop gets through the first `n` fields exactly when the row has a
      cell for each of them and none of them raises. */
  lemma {:induction false} FillSucceedsIff(p: Parsers, fs: seq<Field>, line: seq<string>, n: nat)
    requires n <= |fs|
    ensures Fill(p, fs, line, n).Ok? <==> n <= |line| && forall i :: 0 <= i < n ==> CellOk(p, fs, line, i)
    decreases n
  {
    if n > 0 {
      FillSucceedsIff(p, fs, line, n - 1);
      if Fill(p, fs, line, n).Ok? {
        assert n - 1 < |line| && CellOk(p, fs, line, n - 1);
      } else if n <= |line| && forall i :: 0 <= i < n - 1 ==> CellOk(p, fs, line, i) {
        assert !CellOk(p, fs, line, n - 1);
      }
    }
  }

  /** On success, the i-th field holds the value decoded from `line[i]`, a
      field whose cell decoded to nothing is absent, and no other key is
      present. */
  lemma {:induction false} FillValues(p: Parsers, fs: seq<Field>, line: seq<string>, n: nat)
    requires n <= |fs| && DistinctNames(fs)
    requires Fill(p, fs, line, n).Ok?
    ensures n <= |line|
    ensures forall k :: k in Fill(p, fs, line, n).value ==> exists i :: 0 <= i < n && fs[i].name == k
    ensures forall i :: 0 <= i < n ==>
      var s := Parse(p, fs[i].ftype, fs[i].name, line[i]);
      (s.Store? ==> fs[i].name in Fill(p, fs, line, n).value && Fill(p, fs, line, n).value[fs[i].name] == s.v) &&
      (s.Skip? ==> fs[i].name !in Fill(p, fs, line, n).value)
    decreases n
  {
    if n > 0 {
      FillValues(p, fs, line, n - 1);
      var m := Fill(p, fs, line, n - 1).value;
      var last := Parse(p, fs[n - 1].ftype, fs[n - 1].name, line[n - 1]);
      assert Fill(p, fs, line, n).value == Apply(m, fs[n - 1].name, last);
      forall i | 0 <= i < n - 1
        ensures fs[i].name != fs[n - 1].name
      {
      }
    }
  }

  /** The first failing field decides the row's error: a decoding failure of
      field k is one HTTP 400 naming that field and its raw cell, whatever the
      fields after it hold. */
  lemma {:induction false} FirstFailingFieldReported(p: Parsers, fs: seq<Field>, line: seq<string>, n: nat, k: nat)
    requires k < n <= |fs| && k < |line|
    requires forall i :: 0 <= i < k ==> CellOk(p, fs, line, i)
    requires Parse(p, fs[k].ftype, fs[k].name, line[k]).Raise?
    ensures Fill(p, fs, line, n) ==
      Err(HttpError(BadRequest, FieldError(fs[k].name, line[k], Parse(p, fs[k].ftype, fs[k].name, line[k]).e)))
    decreases n
  {
    if n - 1 > k {
      FirstFailingFieldReported(p, fs, line, n - 1, k);
    } else {
      FillSucceedsIff(p, fs, line, k);
    }
  }

  /** A row that runs out of cells before any field fails raises IndexError,
      outside the per-field 400. */
  lemma {:induction false} ShortRowIndexError(p: Parsers, fs: seq<Field>, line: seq<string>, n: nat)
    requires |line| < n <= |fs|
    requires forall i :: 0 <= i < |line| ==> CellOk(p, fs, line, i)
    ensures Fill(p, fs, line, n) == Err(IndexError)
    decreases n
  {
    if n - 1 > |line| {
      ShortRowIndexError(p, fs, line, n - 1);
    } else {
      FillSucceedsIff(p, fs, line, |line|);
    }
  }

  /** No partial model: when a field fails, the model is never constructed,
      so the outcome does not depend on the model constructor at all. */
  lemma ConstructOnlyAfterAllFields(p: Parsers, m: ModelType, line: seq<string>,
                                     construct: (Schema, map<string, Value>) -> Result<Obj>)
    requires m.Record? || m.OptionalOf?
    requires Fill(p, m.schema.fields, line, |m.schema.fields|).Err?
    ensures FromLine(p, m, line) == FromLine(p.(construct := construct), m, line)
    ensures FromLine(p, m, line) == Err(Fill(p, m.schema.fields, line, |m.schema.fields|).error)
  {
    FillIgnoresConstruct(p, m.schema.fields, line, |m.schema.fields|, construct);
  }

  /** Decoding the fields never consults the model constructor. */
  lemma {:induction false} FillIgnoresConstruct(p: Parsers, fs: seq<Field>, line: seq<string>, n: nat,
                                                construct: (Schema, map<string, Value>) -> Result<Obj>)
    requires n <= |fs|
    ensures Fill(p, fs, line, n) == Fill(p.(construct := construct), fs, line, n)
    decreases n
  {
    if n > 0 {
      FillIgnoresConstruct(p, fs, line, n - 1, construct);
      if n - 1 < |line| {
        ParseIgnoresConstruct(p, fs[n - 1].ftype, fs[n - 1].name, line[n - 1], construct);
      }
    }
  }

  /** Decoding one cell never consults the model constructor. */
  lemma {:induction false} ParseIgnoresConstruct(p: Parsers, t: FieldType, name: string, cell: string,
                                                 construct: (Schema, map<string, Value>) -> Result<Obj>)
    ensures Parse(p, t, name, cell) == Parse(p.(construct := construct), t, name, cell)
    decreases t, 1
  {
    if t.Union? {
      CandidatesIgnoreConstruct(p, t.cands, name, cell, construct);
    } else if t.ListOf? || t.DocListOf? {
      var q := p.(construct := construct);
      assert q.loads == p.loads && q.iterate == p.iterate && q.validate == p.validate && q.parseObjAs == p.parseObjAs;
    }
  }

  lemma {:induction false} CandidatesIgnoreConstruct(p: Parsers, cands: seq<FieldType>, name: string, cell: string,
                                                     construct: (Schema, map<string, Value>) -> Result<Obj>)
    ensures TryCandidates(p, cands, name, cell) == TryCandidates(p.(construct := construct), cands, name, cell)
    decreases cands, 0
  {
    if cands != [] {
      ParseIgnoresConstruct(p, cands[0], name, cell, construct);
      CandidatesIgnoreConstruct(p, cands[1..], name, cell, construct);
    }
  }

  /** On success the model is built from exactly the decoded dictionary. */
  lemma ConstructFromCompleteFields(p: Parsers, m: ModelType, line: seq<string>)
    requires m.Record? || m.OptionalOf?
    requires Fill(p, m.schema.fields, line, |m.schema.fields|).Ok?
    ensures FromLine(p, m, line) == p.construct(m.schema, Fill(p, m.schema.fields, line, |m.schema.fields|).value)
  {
  }
}
