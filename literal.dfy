/**
 * `Cobot.check_valid_literal`: a motion payload is accepted when it evaluates to a
 * literal whose `len` is exactly 6.  The evaluator (`ast.literal_eval`) is not modelled:
 * its outcome is the input.
 */
module Literal {
  import opened Wrappers

  /** The Python literals `ast.literal_eval` can produce, grouped by how `len` treats them. */
  datatype PyLiteral =
    | Number(value: real)                 // int, float, bool, complex: no len()
    | NoneValue                           // None: no len()
    | Text(chars: string)                 // str or bytes: len counts characters
    | Container(items: seq<PyLiteral>)    // list, tuple, set or dict: len counts entries

  /** What evaluating the payload gives: a literal, or one of the two errors the source catches. */
  datatype EvalResult = Evaluated(literal: PyLiteral) | ValueError | SyntaxError

  /** `len(x)` is not caught by the source: it raises TypeError on a literal without a length. */
  datatype LenError = TypeError

  /** Python's `len`, or None where `len` raises TypeError. */
  function PyLen(x: PyLiteral): (r: Option<nat>)
    ensures r.None? <==> x.Number? || x.NoneValue?
  {
    match x
    case Text(cs) => Some(|cs|)
    case Container(items) => Some(|items|)
    case _ => None
  }

  /** The literal of a comma-separated vector of numbers such as `[-0.12, -0.43, 0.14, 0, 3.11, 0.14]`. */
  function Vector(v: seq<real>): (x: PyLiteral)
    ensures x.Container? && |x.items| == |v|
    ensures forall i :: 0 <= i < |v| ==> x.items[i] == Number(v[i])
  {
    if v == [] then Container([]) else Container([Number(v[0])] + Vector(v[1..]).items)
  }

  /**
   * True exactly when the payload evaluates and its length is 6; False on a ValueError or
   * SyntaxError and on any other length; the TypeError of `len` escapes to the caller.
   */
  function CheckValidLiteral(e: EvalResult): (r: Result<bool, LenError>)
    ensures r == Success(true) <==> e.Evaluated? && PyLen(e.literal) == Some(6)
    ensures r.Failure? <==> e.Evaluated? && PyLen(e.literal).None?
    ensures (e.ValueError? || e.SyntaxError?) ==> r == Success(false)
  {
    match e
    case ValueError => Success(false)
    case SyntaxError => Success(false)
    case Evaluated(x) =>
      match PyLen(x)
      case None => Failure(TypeError)
      case Some(n) => Success(n == 6)
  }

  /** A six-number vector is accepted and any other number of components is refused. */
  lemma VectorValidIffSix(v: seq<real>)
    ensures CheckValidLiteral(Evaluated(Vector(v))) == Success(|v| == 6)
  {
  }
}
