/** The declared shapes of CSV fields and records, the values a decoded cell
    becomes, and the foreign parsers the decoder relies on. */
module FieldTypes {
  import opened Base

  /** The element type of a list field: its name, and whether it is a pydantic
      model (for `List[T]`) or a docarray document (for `DocList[T]`). */
  datatype Item = Item(name: string, isModel: bool)

  /** A field's declared type, classified in the order `recursive_parse` tests
      it: a Literal, then a Union (`Optional[X]` is `Union[X, NoneType]`),
      then a `List[T]`, then a `DocList[T]`, then `bool`, else any other type. */
  datatype FieldType =
    | Literal(allowed: seq<string>)
    | Union(cands: seq<FieldType>)
    | ListOf(item: Item)
    | DocListOf(doc: Item)
    | Bool
    | Scalar(typeName: string)

  datatype Field = Field(name: string, ftype: FieldType)

  /** A pydantic model or document class: its name and its fields in declared
      order, which is the column order of a CSV row. */
  datatype Schema = Schema(name: string, fields: seq<Field>)

  /** The type `construct_model_from_line` is called with: a model, the model
      wrapped in `Optional[...]`, or `Optional[Dict]` for an endpoint that
      declares no parameters model. */
  datatype ModelType = Record(schema: Schema) | OptionalOf(schema: Schema) | OptionalDict

  /** What a decoded cell stores in `parsed_fields`. */
  datatype Value =
    | Text(s: string)                            // a Literal cell, unchanged
    | Flag(b: bool)                              // a bool cell
    | Loaded(json: Obj)                          // `json.loads` of the cell, passed through
    | Instances(items: seq<Obj>)                 // `[T.model_validate(item) ...]`
    | DocsOf(docType: string, items: seq<Obj>)   // `DocList[T]([T.model_validate(item) ...])`
    | Converted(obj: Obj)                        // `DocList[T](s)` or `parse_obj_as(...)`

  /** The foreign code the decoder calls, each as a function that returns a
      value or the exception it raises:
      - `pydanticV2`: which pydantic major version is installed;
      - `loads`: `json.loads`;
      - `iterate`: iterating over a decoded JSON value (`for item in parsed_list`);
      - `validate`: `T.model_validate(item)`, by type name;
      - `parseObjAs`: `parse_obj_as(T, x)`, by the name of the target type;
      - `docListOf`: `DocList[T](field_str)`;
      - `construct`: `model(**parsed_fields)`. */
  datatype Parsers = Parsers(
    pydanticV2: bool,
    loads: string -> Result<Obj>,
    iterate: Obj -> Result<seq<Obj>>,
    validate: (string, Obj) -> Result<Obj>,
    parseObjAs: (string, Obj) -> Result<Obj>,
    docListOf: (string, string) -> Result<Obj>,
    construct: (Schema, map<string, Value>) -> Result<Obj>)

  function FieldNames(s: Schema): (names: seq<string>)
    ensures |names| == |s.fields|
    ensures forall i :: 0 <= i < |s.fields| ==> names[i] == s.fields[i].name
  {
    seq(|s.fields|, i requires 0 <= i < |s.fields| => s.fields[i].name)
  }

  /** Field names of a model are the keys of a dict, so they are distinct. */
  predicate DistinctNames(fs: seq<Field>) {
    forall i, j :: 0 <= i < j < |fs| ==> fs[i].name != fs[j].name
  }
}
