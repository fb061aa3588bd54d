/** Splitting the rows of a headerless CSV body into an optional parameters
    record and the input documents, as the row loop of the CSV branch of
    `post` does. Rows arrive already split into cells. */
module CsvSplitter {
  import opened Base
  import opened FieldTypes
  import opened LineDecoder

  const ParamsMarker: string := "params_row"

  /** The first row is a parameters row when its second cell is the marker. */
  predicate IsParamsRow(line: seq<string>) {
    |line| > 1 && line[1] == ParamsMarker
  }

  /** A data row: its cell count must equal the document's field count, else
      an HTTP 400 naming the row and the expected field order, raised before
      any cell is decoded. */
  function DecodeRow(p: Parsers, doc: Schema, line: seq<string>): (r: Result<Obj>)
    ensures |line| != |doc.fields| ==> r == Err(HttpError(BadRequest, RowShape(line, FieldNames(doc))))
    ensures r.Ok? ==> |line| == |doc.fields|
  {
    if |line| != |doc.fields| then Err(HttpError(BadRequest, RowShape(line, FieldNames(doc))))
    else FromLine(p, Record(doc), line)
  }

  /** `DecodeRow` for one document schema, as a function of the row. */
  function RowDecoder(p: Parsers, doc: Schema): seq<string> -> Result<Obj> {
    line => DecodeRow(p, doc, line)
  }

  /** The data rows decoded in order by `decode`; the first row that fails
      decides. */
  function DecodeRows(decode: seq<string> -> Result<Obj>, rows: seq<seq<string>>): (r: Result<seq<Obj>>)
    ensures r.Ok? ==> |r.value| == |rows|
    decreases |rows|
  {
    if rows == [] then Ok([])
    else
      var done :- DecodeRows(decode, rows[..|rows| - 1]);
      var last :- decode(rows[|rows| - 1]);
      Ok(done + [last])
  }

  /** The index of the first data row. */
  function DataStart(rows: seq<seq<string>>): (k: nat)
    ensures k <= |rows|
  {
    if |rows| > 0 && IsParamsRow(rows[0]) then 1 else 0
  }

  /** The decoded body: the parameters record, if any, and the documents. */
  datatype Split = Split(parameters: Option<Obj>, data: seq<Obj>)

  /** The outcome of the row loop. A parameters row is decoded from its cells
      after the marker, `line[2:]`, against the parameters model. */
  function SplitBody(p: Parsers, doc: Schema, params: ModelType, rows: seq<seq<string>>): (r: Result<Split>)
    ensures r.Ok? ==> (r.value.parameters.Some? <==> DataStart(rows) == 1)
    ensures r.Ok? ==> |r.value.data| == |rows| - DataStart(rows)
  {
    if DataStart(rows) == 1 then
      var q :- FromLine(p, params, rows[0][2..]);
      var data :- DecodeRows(RowDecoder(p, doc), rows[1..]);
      Ok(Split(Some(q), data))
    else
      var data :- DecodeRows(RowDecoder(p, doc), rows);
      Ok(Split(None, data))
  }

  /** The row loop: only the first row is tested for the marker; every other
      row is a data row checked against the document's field count and then
      decoded and appended. */
  method SplitRows(p: Parsers, doc: Schema, params: ModelType, rows: seq<seq<string>>) returns (r: Result<Split>)
    ensures r == SplitBody(p, doc, params, rows)
  {
    var fieldNames := FieldNames(doc);
    var data: seq<Obj> := [];
    var parameters: Option<Obj> := None;
    var firstRow := true;
    ghost var start := DataStart(rows);
    for i := 0 to |rows|
      invariant firstRow <==> i == 0
      invariant i > 0 ==> start <= i
      invariant start == 1 && i > 0 ==> FromLine(p, params, rows[0][2..]).Ok? &&
                                        parameters == Some(FromLine(p, params, rows[0][2..]).value)
      invariant start == 0 || i == 0 ==> parameters.None?
      invariant i > 0 ==> DecodeRows(RowDecoder(p, doc), rows[start..i]) == Ok(data)
      invariant i == 0 ==> data == []
    {
      var line := rows[i];
      if firstRow {
        firstRow := false;
        if |line| > 1 && line[1] == ParamsMarker {
          var q := ConstructModelFromLine(p, params, line[2..]);
          if q.Err? {
            return Err(q.error);
          }
          parameters := Some(q.value);
          assert rows[1..1] == [];
          continue;
        }
      }
      if |line| != |fieldNames| {
        r := Err(HttpError(BadRequest, RowShape(line, fieldNames)));
        assert DecodeRows(RowDecoder(p, doc), rows[start..i + 1]) == Err(r.error) by {
          assert rows[start..i + 1][..|rows[start..i + 1]| - 1] == rows[start..i];
        }
        DecodeRowsErrorPersists(RowDecoder(p, doc), rows[start..], i + 1 - start);
        assert rows[start..][..i + 1 - start] == rows[start..i + 1];
        return;
      }
      var x := ConstructModelFromLine(p, Record(doc), line);
      assert rows[start..i + 1][..|rows[start..i + 1]| - 1] == rows[start..i];
      if x.Err? {
        r := Err(x.error);
        DecodeRowsErrorPersists(RowDecoder(p, doc), rows[start..], i + 1 - start);
        assert rows[start..][..i + 1 - start] == rows[start..i + 1];
        return;
      }
      data := data + [x.value];
    }
    assert rows[start..|rows|] == rows[start..];
    r := Ok(Split(parameters, data));
  }

  /** A failing row stops the loop: the rows after it are never decoded. */
  lemma {:induction false} DecodeRowsErrorPersists(decode: seq<string> -> Result<Obj>, rows: seq<seq<string>>, k: nat)
    requires k <= |rows|
    requires DecodeRows(decode, rows[..k]).Err?
    ensures DecodeRows(decode, rows) == DecodeRows(decode, rows[..k])
    decreases |rows|
  {
    if k < |rows| {
      assert rows[..|rows| - 1][..k] == rows[..k];
      DecodeRowsErrorPersists(decode, rows[..|rows| - 1], k);
    } else {
      assert rows[..k] == rows;
    }
  }

  /** The decoded documents are the rows decoded one by one, in input order,
      one document per row; and conversely, when every row decodes, so does
      the whole. */
  lemma {:induction false} DecodeRowsInOrder(decode: seq<string> -> Result<Obj>, rows: seq<seq<string>>)
    ensures DecodeRows(decode, rows).Ok? <==> forall j :: 0 <= j < |rows| ==> decode(rows[j]).Ok?
    ensures DecodeRows(decode, rows).Ok? ==>
      |DecodeRows(decode, rows).value| == |rows| &&
      forall j :: 0 <= j < |rows| ==> decode(rows[j]) == Ok(DecodeRows(decode, rows).value[j])
    decreases |rows|
  {
    if rows != [] {
      var init := rows[..|rows| - 1];
      DecodeRowsInOrder(decode, init);
      assert forall j :: 0 <= j < |init| ==> init[j] == rows[j];
      if DecodeRows(decode, rows).Ok? {
        var xs := DecodeRows(decode, rows).value;
        assert xs == DecodeRows(decode, init).value + [decode(rows[|rows| - 1]).value];
      } else if forall j :: 0 <= j < |rows| ==> decode(rows[j]).Ok? {
        assert DecodeRows(decode, init).Ok?;
      }
    }
  }

  /** The first row whose cell count is wrong fails the body with the shape
      error, before any of its cells are decoded: the error does not depend
      on the parsers at all. */
  lemma ShapeMismatchReported(p: Parsers, doc: Schema, rows: seq<seq<string>>, k: nat)
    requires k < |rows| && |rows[k]| != |doc.fields|
    requires forall j :: 0 <= j < k ==> DecodeRow(p, doc, rows[j]).Ok?
    ensures DecodeRows(RowDecoder(p, doc), rows) == Err(HttpError(BadRequest, RowShape(rows[k], FieldNames(doc))))
  {
    var decode := RowDecoder(p, doc);
    var pre := rows[..k + 1];
    assert pre[..k] == rows[..k];
    DecodeRowsInOrder(decode, rows[..k]);
    assert decode(rows[k]) == Err(HttpError(BadRequest, RowShape(rows[k], FieldNames(doc))));
    assert DecodeRows(decode, pre) == Err(HttpError(BadRequest, RowShape(rows[k], FieldNames(doc))));
    DecodeRowsErrorPersists(decode, rows, k + 1);
  }

  /** Only the first row can carry parameters: the body has parameters
      exactly when its first row is marked, and they are that row's cells
      after the marker decoded against the parameters model. A marked row
      anywhere else is a data row. */
  lemma ParamsOnlyFromFirstRow(p: Parsers, doc: Schema, params: ModelType, rows: seq<seq<string>>)
    requires SplitBody(p, doc, params, rows).Ok?
    ensures var sp := SplitBody(p, doc, params, rows).value;
      (sp.parameters.Some? <==> |rows| > 0 && IsParamsRow(rows[0])) &&
      (sp.parameters.Some? ==> FromLine(p, params, rows[0][2..]) == Ok(sp.parameters.value)) &&
      DecodeRows(RowDecoder(p, doc), rows[DataStart(rows)..]) == Ok(sp.data)
  {
    assert rows[0..] == rows;
  }

  /** Every data row, in input order, becomes one document. */
  lemma DataRowsInOrder(p: Parsers, doc: Schema, params: ModelType, rows: seq<seq<string>>, sp: Split)
    requires SplitBody(p, doc, params, rows) == Ok(sp)
    ensures |sp.data| == |rows| - DataStart(rows)
    ensures forall j :: DataStart(rows) <= j < |rows| ==> DecodeRow(p, doc, rows[j]) == Ok(sp.data[j - DataStart(rows)])
  {
    ParamsOnlyFromFirstRow(p, doc, params, rows);
    var k := DataStart(rows);
    var decode := RowDecoder(p, doc);
    var dataRows := rows[k..];
    DecodeRowsInOrder(decode, dataRows);
    forall j | k <= j < |rows|
      ensures DecodeRow(p, doc, rows[j]) == Ok(sp.data[j - k])
    {
      assert rows[j] == dataRows[j - k];
      assert decode(dataRows[j - k]) == Ok(sp.data[j - k]);
    }
  }

  /** A data row that decodes has one cell per document field and is decoded
      by `construct_model_from_line` against the document model. */
  lemma DecodedRowHasShape(p: Parsers, doc: Schema, line: seq<string>, x: Obj)
    requires DecodeRow(p, doc, line) == Ok(x)
    ensures |line| == |doc.fields| && FromLine(p, Record(doc), line) == Ok(x)
  {
  }

  /** The sample body with a parameters row: `_,params_row,5,true` followed
      by one data row. */
  lemma ParamsRowExample(p: Parsers, doc: Schema, params: ModelType, row: seq<string>)
    requires |row| == |doc.fields|
    requires FromLine(p, params, ["5", "true"]).Ok? && FromLine(p, Record(doc), row).Ok?
    ensures SplitBody(p, doc, params, [["_", "params_row", "5", "true"], row]) ==
            Ok(Split(Some(FromLine(p, params, ["5", "true"]).value), [FromLine(p, Record(doc), row).value]))
  {
    var rows := [["_", "params_row", "5", "true"], row];
    assert rows[0][2..] == ["5", "true"];
    assert rows[1..] == [row];
    assert DecodeRows(RowDecoder(p, doc), [row]) == Ok([FromLine(p, Record(doc), row).value]) by {
      assert [row][..0] == [];
      assert DecodeRows(RowDecoder(p, doc), []) == Ok([]);
      assert DecodeRow(p, doc, row) == FromLine(p, Record(doc), row);
      assert [] + [FromLine(p, Record(doc), row).value] == [FromLine(p, Record(doc), row).value];
    }
  }
}
