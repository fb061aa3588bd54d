/** Decoding one CSV cell against its field's declared type, as
    `recursive_parse` does: the specification function `Parse`, the method
    `RecursiveParse` that updates the `parsed_fields` dictionary, and the
    properties of each kind of field. */
module FieldParser {
  import opened Base
  import opened FieldTypes

  /** What decoding one cell does: store a value under the field's name,
      store nothing, or raise. */
  datatype Step = Store(v: Value) | Skip | Raise(e: Exc)

  /** A failure a Union swallows before it tries its next candidate. */
  predicate SoftFailure(s: Step) {
    s.Raise? && Soft(s.e)
  }

  /** The dictionary after a step that did not raise. */
  function Apply(fields: map<string, Value>, name: string, s: Step): map<string, Value> {
    if s.Store? then fields[name := s.v] else fields
  }

  /** The effect of `recursive_parse(field_type, field_name, field_str)`.
      Only an empty cell leaves a field absent, and a Union never fails with
      an exception an enclosing Union would swallow. */
  function Parse(p: Parsers, t: FieldType, name: string, cell: string): (s: Step)
    ensures s.Skip? ==> cell == ""
    ensures t.Union? ==> !SoftFailure(s)
    decreases t, 1
  {
    match t
    case Literal(allowed) =>
      if cell in allowed then Store(Text(cell))
      else Raise(HttpError(BadRequest, InvalidLiteral(name, cell, allowed)))
    case Union(cands) => TryCandidates(p, cands, name, cell)
    case ListOf(item) => if cell == "" then Skip else LoadList(p, item, false, cell)
    case DocListOf(doc) => if cell == "" then Skip else LoadList(p, doc, true, cell)
    case Bool => if cell == "" then Skip else ParseBool(name, cell)
    case Scalar(typeName) => if cell == "" then Skip else Coerce(p, typeName, cell)
  }

  /** The Union loop from candidate `cands[0]` on. The first candidate that
      does not fail softly decides; when every candidate fails softly the
      loop ends with `success` never bound, so `if not success` raises
      NameError (the ValueError after it is never reached). */
  function TryCandidates(p: Parsers, cands: seq<FieldType>, name: string, cell: string): (s: Step)
    ensures s.Skip? ==> cell == ""
    ensures !SoftFailure(s)
    decreases cands, 0
  {
    if cands == [] then Raise(NameError("success"))
    else
      var s := Parse(p, cands[0], name, cell);
      if SoftFailure(s) then TryCandidates(p, cands[1..], name, cell) else s
  }

  /** A bool cell: "false" or "true" in any letter case. */
  function ParseBool(name: string, cell: string): Step {
    if Lower(cell) == "false" then Store(Flag(false))
    else if Lower(cell) == "true" then Store(Flag(true))
    else Raise(HttpError(BadRequest, InvalidBool(name, cell)))
  }

  /** Any other type: `DocList[T](field_str)`, and on ValueError or TypeError
      the fallback `parse_obj_as(T, field_str)`, whose own failure propagates. */
  function Coerce(p: Parsers, typeName: string, cell: string): Step {
    match p.docListOf(typeName, cell)
    case Ok(v) => Store(Converted(v))
    case Err(e) =>
      if !Soft(e) then Raise(e)
      else
        match p.parseObjAs(typeName, PyStr(cell))
        case Ok(v) => Store(Converted(v))
        case Err(e2) => Raise(e2)
  }

  /** `[T.model_validate(item) for item in items]`: every item in order, the
      first failure propagating. */
  function ValidateAll(validate: (string, Obj) -> Result<Obj>, typeName: string, items: seq<Obj>): (r: Result<seq<Obj>>)
    ensures r.Ok? ==> |r.value| == |items|
    ensures r.Ok? ==> forall i :: 0 <= i < |items| ==> validate(typeName, items[i]) == Ok(r.value[i])
    ensures r.Err? ==> exists k :: 0 <= k < |items| && validate(typeName, items[k]) == Err(r.error) &&
                                   forall j :: 0 <= j < k ==> validate(typeName, items[j]).Ok?
  {
    if items == [] then Ok([])
    else
      match validate(typeName, items[0])
      case Err(e) => Err(e)
      case Ok(x) =>
        match ValidateAll(validate, typeName, items[1..])
        case Err(e) =>
          ghost var k :| 0 <= k < |items[1..]| && validate(typeName, items[1..][k]) == Err(e) &&
                         forall j :: 0 <= j < k ==> validate(typeName, items[1..][j]).Ok?;
          assert validate(typeName, items[k + 1]) == Err(e);
          Err(e)
        case Ok(xs) => Ok([x] + xs)
  }

  /** A non-empty `List[T]` or `DocList[T]` cell: `json.loads`, then the
      elements validated one by one (pydantic 2) or all at once with
      `parse_obj_as` (pydantic 1) when T is a model, else the decoded value
      as it is. */
  function LoadList(p: Parsers, item: Item, docList: bool, cell: string): (s: Step)
    ensures !s.Skip?
  {
    match p.loads(cell)
    case Err(e) => Raise(e)
    case Ok(parsed) =>
      if !item.isModel then Store(Loaded(parsed))
      else if p.pydanticV2 then
        match p.iterate(parsed)
        case Err(e) => Raise(e)
        case Ok(elems) =>
          match ValidateAll(p.validate, item.name, elems)
          case Err(e) => Raise(e)
          case Ok(objs) => Store(if docList then DocsOf(item.name, objs) else Instances(objs))
      else
        match p.parseObjAs((if docList then "DocList[" else "List[") + item.name + "]", parsed)
        case Err(e) => Raise(e)
        case Ok(v) => Store(Converted(v))
  }

  /** `recursive_parse`: decodes `cell` as a `t` and stores the result in
      `fields` under `name`. On an exception the dictionary is left as it was.
      `success` is the Python flag: false here stands for "never bound". */
  method RecursiveParse(p: Parsers, t: FieldType, name: string, cell: string, fields: map<string, Value>)
    returns (out: map<string, Value>, raised: Option<Exc>)
    decreases t
    ensures raised.Some? <==> Parse(p, t, name, cell).Raise?
    ensures raised.Some? ==> raised.value == Parse(p, t, name, cell).e && out == fields
    ensures raised.None? ==> out == Apply(fields, name, Parse(p, t, name, cell))
  {
    out, raised := fields, None;
    match t {
      case Literal(allowed) =>
        if cell !in allowed {
          raised := Some(HttpError(BadRequest, InvalidLiteral(name, cell, allowed)));
          return;
        }
        out := fields[name := Text(cell)];
      case Union(cands) =>
        var success := false;
        var i := 0;
        while i < |cands|
          invariant 0 <= i <= |cands|
          invariant out == fields && raised.None? && !success
          invariant TryCandidates(p, cands, name, cell) == TryCandidates(p, cands[i..], name, cell)
        {
          assert cands[i..][1..] == cands[i + 1..];
          var o, r := RecursiveParse(p, cands[i], name, cell, out);
          if r.None? {
            out := o;
            success := true;
            break;
          } else if Soft(r.value) {
            i := i + 1;
            continue;
          } else {
            raised := r;
            return;
          }
        }
        if !success {
          raised := Some(NameError("success"));
        }
      case ListOf(item) =>
        if cell != "" {
          var s := LoadList(p, item, false, cell);
          if s.Raise? {
            raised := Some(s.e);
            return;
          }
          out := fields[name := s.v];
        }
      case DocListOf(doc) =>
        if cell != "" {
          var s := LoadList(p, doc, true, cell);
          if s.Raise? {
            raised := Some(s.e);
            return;
          }
          out := fields[name := s.v];
        }
      case Bool =>
        if cell != "" {
          if Lower(cell) == "false" {
            out := fields[name := Flag(false)];
          } else if Lower(cell) == "true" {
            out := fields[name := Flag(true)];
          } else {
            raised := Some(HttpError(BadRequest, InvalidBool(name, cell)));
          }
        }
      case Scalar(typeName) =>
        if cell != "" {
          var direct := p.docListOf(typeName, cell);
          if direct.Ok? {
            out := fields[name := Converted(direct.value)];
          } else if !Soft(direct.error) {
            raised := Some(direct.error);
          } else {
            var fallback := p.parseObjAs(typeName, PyStr(cell));
            if fallback.Ok? {
              out := fields[name := Converted(fallback.value)];
            } else {
              raised := Some(fallback.error);
            }
          }
        }
    }
  }

  // ---------------------------------------------------------------------
  // Literal fields

  /** A Literal accepts exactly its allowed values, byte for byte, and stores
      the cell unchanged; anything else, the empty cell included, is an HTTP
      400 naming the field, the value and the allowed values. */
  lemma LiteralAcceptsExactly(p: Parsers, allowed: seq<string>, name: string, cell: string)
    ensures Parse(p, Literal(allowed), name, cell).Store? <==> cell in allowed
    ensures cell in allowed ==> Parse(p, Literal(allowed), name, cell) == Store(Text(cell))
    ensures cell !in allowed ==>
      Parse(p, Literal(allowed), name, cell) == Raise(HttpError(BadRequest, InvalidLiteral(name, cell, allowed))) &&
      !SoftFailure(Parse(p, Literal(allowed), name, cell))
  {
  }

  // ---------------------------------------------------------------------
  // Union fields

  /** Candidates are tried in declared order, and the first one that does not
      fail softly decides: its store, skip or hard failure is the Union's, and
      the candidates after it are never tried. */
  lemma {:induction false} UnionStopsAtFirstNonSoft(p: Parsers, before: seq<FieldType>, c: FieldType,
                                                     after: seq<FieldType>, name: string, cell: string)
    requires forall j :: 0 <= j < |before| ==> SoftFailure(Parse(p, before[j], name, cell))
    requires !SoftFailure(Parse(p, c, name, cell))
    ensures Parse(p, Union(before + [c] + after), name, cell) == Parse(p, c, name, cell)
  {
    UnionTail(p, before, c, after, name, cell);
  }

  lemma {:induction false} UnionTail(p: Parsers, before: seq<FieldType>, c: FieldType,
                                     after: seq<FieldType>, name: string, cell: string)
    requires forall j :: 0 <= j < |before| ==> SoftFailure(Parse(p, before[j], name, cell))
    requires !SoftFailure(Parse(p, c, name, cell))
    ensures TryCandidates(p, before + [c] + after, name, cell) == Parse(p, c, name, cell)
  {
    var cands := before + [c] + after;
    if before == [] {
      assert cands[0] == c;
    } else {
      assert cands[0] == before[0];
      assert cands[1..] == before[1..] + [c] + after;
      UnionTail(p, before[1..], c, after, name, cell);
    }
  }

  /** A hard failure of a candidate (the 400 of a Literal or bool candidate,
      or any exception other than ValueError, TypeError and ValidationError)
      escapes the Union at once, whatever candidates follow. */
  lemma HardFailureEscapes(p: Parsers, before: seq<FieldType>, c: FieldType,
                           after: seq<FieldType>, name: string, cell: string)
    requires forall j :: 0 <= j < |before| ==> SoftFailure(Parse(p, before[j], name, cell))
    requires Parse(p, c, name, cell).Raise? && !Soft(Parse(p, c, name, cell).e)
    ensures Parse(p, Union(before + [c] + after), name, cell) == Parse(p, c, name, cell)
  {
    UnionStopsAtFirstNonSoft(p, before, c, after, name, cell);
  }

  /** When every candidate fails softly, the Union raises NameError, which is
      itself not a soft failure, and stores nothing. */
  lemma {:induction false} UnionExhausted(p: Parsers, cands: seq<FieldType>, name: string, cell: string)
    requires forall j :: 0 <= j < |cands| ==> SoftFailure(Parse(p, cands[j], name, cell))
    ensures Parse(p, Union(cands), name, cell) == Raise(NameError("success"))
    ensures !SoftFailure(Parse(p, Union(cands), name, cell))
    decreases |cands|
  {
    if cands != [] {
      assert SoftFailure(Parse(p, cands[0], name, cell));
      forall j | 0 <= j < |cands[1..]|
        ensures SoftFailure(Parse(p, cands[1..][j], name, cell))
      {
        assert cands[1..][j] == cands[j + 1];
      }
      UnionExhausted(p, cands[1..], name, cell);
    }
  }

  /** Conversely, a Union that does not raise NameError took its outcome from
      some candidate, every earlier candidate having failed softly. */
  lemma {:induction false} UnionOutcomeFromCandidate(p: Parsers, cands: seq<FieldType>, name: string, cell: string)
    requires Parse(p, Union(cands), name, cell) != Raise(NameError("success"))
    ensures exists k :: 0 <= k < |cands| && Parse(p, Union(cands), name, cell) == Parse(p, cands[k], name, cell) &&
                        !SoftFailure(Parse(p, cands[k], name, cell)) &&
                        forall j :: 0 <= j < k ==> SoftFailure(Parse(p, cands[j], name, cell))
    decreases |cands|
  {
    assert cands != [];
    if SoftFailure(Parse(p, cands[0], name, cell)) {
      UnionOutcomeFromCandidate(p, cands[1..], name, cell);
      var k :| 0 <= k < |cands[1..]| && Parse(p, Union(cands[1..]), name, cell) == Parse(p, cands[1..][k], name, cell) &&
               !SoftFailure(Parse(p, cands[1..][k], name, cell)) &&
               forall j :: 0 <= j < k ==> SoftFailure(Parse(p, cands[1..][j], name, cell));
      assert cands[k + 1] == cands[1..][k];
      forall j | 0 <= j < k + 1
        ensures SoftFailure(Parse(p, cands[j], name, cell))
      {
        if j > 0 { assert cands[j] == cands[1..][j - 1]; }
      }
    } else {
      assert Parse(p, Union(cands), name, cell) == Parse(p, cands[0], name, cell);
    }
  }

  /** An empty cell still goes through the candidates: `Optional[Literal[...]]`
      whose allowed values do not include "" rejects the empty cell with the
      Literal's 400 instead of leaving the field absent. */
  lemma EmptyOptionalLiteralRejected(p: Parsers, allowed: seq<string>, name: string)
    requires "" !in allowed
    ensures Parse(p, Union([Literal(allowed), Scalar("NoneType")]), name, "") ==
            Raise(HttpError(BadRequest, InvalidLiteral(name, "", allowed)))
  {
    var cands := [Literal(allowed), Scalar("NoneType")];
    assert cands[0] == Literal(allowed);
    assert TryCandidates(p, cands, name, "") == Parse(p, Literal(allowed), name, "");
  }

  // ---------------------------------------------------------------------
  // Empty cells, lists and documents

  /** For list, DocList, bool and other scalar fields an empty cell leaves the
      field absent; so does a Union whose first candidate is one of these. */
  lemma EmptyCellAbsent(p: Parsers, t: FieldType, name: string)
    requires t.ListOf? || t.DocListOf? || t.Bool? || t.Scalar?
    ensures Parse(p, t, name, "") == Skip
    ensures forall rest: seq<FieldType> :: Parse(p, Union([t] + rest), name, "") == Skip
  {
    forall rest: seq<FieldType>
      ensures Parse(p, Union([t] + rest), name, "") == Skip
    {
      assert ([t] + rest)[0] == t;
      assert Parse(p, t, name, "") == Skip;
      assert TryCandidates(p, [t] + rest, name, "") == Skip;
    }
  }

  /** A non-empty list cell of non-model elements stores what `json.loads`
      returns, unchanged; its failure propagates. */
  lemma ListPassesThrough(p: Parsers, item: Item, docList: bool, name: string, cell: string)
    requires cell != "" && !item.isModel
    ensures var t := if docList then DocListOf(item) else ListOf(item);
            Parse(p, t, name, cell) == (match p.loads(cell)
                                        case Ok(v) => Store(Loaded(v))
                                        case Err(e) => Raise(e))
  {
  }

  /** Under pydantic 2 a non-empty `List[T]` or `DocList[T]` cell of model
      elements validates every decoded element in order: on success it
      stores one instance per element (wrapped in a `DocList[T]` for a
      DocList field), on failure it raises the first failing element's
      error. */
  lemma ListValidatesEachElement(p: Parsers, item: Item, docList: bool, name: string, cell: string, elems: seq<Obj>)
    requires cell != "" && item.isModel && p.pydanticV2
    requires p.loads(cell).Ok? && p.iterate(p.loads(cell).value) == Ok(elems)
    ensures var t := if docList then DocListOf(item) else ListOf(item);
            match Parse(p, t, name, cell)
            case Store(v) =>
              (if docList then v.DocsOf? && v.docType == item.name else v.Instances?) &&
              |v.items| == |elems| &&
              forall i :: 0 <= i < |elems| ==> p.validate(item.name, elems[i]) == Ok(v.items[i])
            case Skip => false
            case Raise(e) =>
              exists k :: 0 <= k < |elems| && p.validate(item.name, elems[k]) == Err(e) &&
                          forall j :: 0 <= j < k ==> p.validate(item.name, elems[j]).Ok?
  {
  }

  /** Under pydantic 1 a non-empty list cell of model elements is converted
      as a whole by `parse_obj_as(List[T], ...)` or `parse_obj_as(DocList[T],
      ...)`, whose failure propagates; for any element type a `json.loads`
      failure propagates. */
  lemma ListParsedWhole(p: Parsers, item: Item, docList: bool, name: string, cell: string)
    requires cell != ""
    ensures var t := if docList then DocListOf(item) else ListOf(item);
            p.loads(cell).Err? ==> Parse(p, t, name, cell) == Raise(p.loads(cell).error)
    ensures var t := if docList then DocListOf(item) else ListOf(item);
            var target := (if docList then "DocList[" else "List[") + item.name + "]";
            p.loads(cell).Ok? && item.isModel && !p.pydanticV2 ==>
              Parse(p, t, name, cell) == (match p.parseObjAs(target, p.loads(cell).value)
                                          case Ok(v) => Store(Converted(v))
                                          case Err(e) => Raise(e))
  {
  }

  // ---------------------------------------------------------------------
  // Bool fields

  /** A non-empty bool cell decodes exactly when it is "true" or "false" in
      any letter case, to the matching boolean; any other value is an HTTP
      400 naming the field and the value. */
  lemma BoolAcceptsTrueFalse(p: Parsers, name: string, cell: string)
    requires cell != ""
    ensures Parse(p, Bool, name, cell).Store? <==> Lower(cell) == "true" || Lower(cell) == "false"
    ensures Parse(p, Bool, name, cell).Store? ==> Parse(p, Bool, name, cell) == Store(Flag(Lower(cell) == "true"))
    ensures !Parse(p, Bool, name, cell).Store? ==>
      Parse(p, Bool, name, cell) == Raise(HttpError(BadRequest, InvalidBool(name, cell)))
  {
  }

  /** Letter case does not matter. */
  lemma BoolIgnoresCase(p: Parsers, name: string)
    ensures Parse(p, Bool, name, "TRUE") == Store(Flag(true))
    ensures Parse(p, Bool, name, "False") == Store(Flag(false))
  {
    assert Lower("TRUE") == "true";
    assert Lower("False") == "false";
  }

  /** "1" and "yes" are not booleans. */
  lemma BoolRejectsOtherWords(p: Parsers, name: string)
    ensures Parse(p, Bool, name, "1") == Raise(HttpError(BadRequest, InvalidBool(name, "1")))
    ensures Parse(p, Bool, name, "yes") == Raise(HttpError(BadRequest, InvalidBool(name, "yes")))
  {
    assert Lower("1") == "1";
    assert Lower("yes") == "yes";
  }

  // ---------------------------------------------------------------------
  // Other scalar fields

  /** A non-empty scalar cell is coerced by `DocList[T](s)`; only when that
      raises ValueError or TypeError is `parse_obj_as(T, s)` tried, and only
      when both fail does the field fail. */
  lemma ScalarFallback(p: Parsers, typeName: string, name: string, cell: string)
    requires cell != ""
    ensures p.docListOf(typeName, cell).Ok? ==>
      Parse(p, Scalar(typeName), name, cell) == Store(Converted(p.docListOf(typeName, cell).value))
    ensures p.docListOf(typeName, cell).Err? && !Soft(p.docListOf(typeName, cell).error) ==>
      Parse(p, Scalar(typeName), name, cell) == Raise(p.docListOf(typeName, cell).error)
    ensures p.docListOf(typeName, cell).Err? && Soft(p.docListOf(typeName, cell).error) ==>
      Parse(p, Scalar(typeName), name, cell) ==
      (match p.parseObjAs(typeName, PyStr(cell))
       case Ok(v) => Store(Converted(v))
       case Err(e) => Raise(e))
  {
  }
}
