/** Values shared by every part of the CSV decoding model: optional values,
    results that carry a Python exception, the exceptions themselves, and the
    opaque objects handed out by foreign libraries. */
module Base {

  datatype Option<+T> = None | Some(value: T)

  /** The outcome of a Python call: a value, or the exception it raised. */
  datatype Result<+T> = Ok(value: T) | Err(error: Exc) {
    predicate IsFailure() { Err? }

    function PropagateFailure<U>(): Result<U>
      requires Err?
    {
      Err(error)
    }

    function Extract(): T
      requires Ok?
    {
      value
    }
  }

  /** An object made by foreign code (a decoded JSON value, a validated model,
      a coerced scalar, a document). Only a Python string built by this code
      is told apart; everything else is identified and never looked into. */
  datatype Obj = PyStr(s: string) | PyObj(id: nat)

  /** The exception classes the decoding code tells apart. Each stands for the
      class and its subclasses as the `except` clauses see them. */
  datatype Exc =
    | HttpError(status: nat, detail: Detail)   // fastapi.HTTPException
    | ValueError(msg: string)                  // also json.JSONDecodeError
    | TypeError(msg: string)
    | ValidationError(msg: string)             // pydantic.ValidationError
    | NameError(name: string)                  // reading a local that was never bound
    | IndexError                               // `line[idx]` past the end of the row
    | AttributeError(attr: string)             // model fields of a type that is not a model
    | OtherError(kind: string, msg: string)    // any other exception of foreign code

  /** The detail carried by an HTTP error, by what its message names. */
  datatype Detail =
    | InvalidLiteral(field: string, value: string, allowed: seq<string>)
    | InvalidBool(field: string, value: string)
    | FieldError(field: string, value: string, cause: Exc)
    | RowShape(line: seq<string>, expected: seq<string>)
    | Described(text: string)

  const BadRequest: nat := 400
  const InternalServerError: nat := 500

  /** The exceptions a Union field catches before trying its next candidate:
      `except (ValueError, TypeError, ValidationError)`. The scalar fallback
      catches `(ValueError, TypeError)`, which is the same set because
      pydantic's ValidationError derives from ValueError. */
  predicate Soft(e: Exc) {
    e.ValueError? || e.TypeError? || e.ValidationError?
  }

  /** `str.lower()` on one character, restricted to ASCII letters. No other
      character lowers to a letter of "true" or "false", so this is exact for
      the comparisons the bool branch makes. */
  function LowerChar(c: char): (d: char)
    ensures 'A' <= c <= 'Z' ==> 'a' <= d <= 'z'
    ensures !('A' <= c <= 'Z') ==> d == c
  {
    if 'A' <= c <= 'Z' then (c as int + 32) as char else c
  }

  function Lower(s: string): (r: string)
    ensures |r| == |s|
    ensures forall i :: 0 <= i < |s| ==> r[i] == LowerChar(s[i])
  {
    if s == [] then [] else [LowerChar(s[0])] + Lower(s[1..])
  }
}
