/**
 * The value of a gq `Node` struct (what `*n` denotes, and what the copies
 * `cn := *n` and `subN := cn` hold), its error record, and the two
 * value-receiver reads `IsMap` and `String`.
 */
module Nodes {
  import opened Json
  import opened Origins

  datatype Option<+T> = None | Some(value: T)

  /** The dynamic Go type of a decoded value, as `%T` names it. */
  datatype Kind = NilKind | BoolKind | Float64Kind | StringKind | SliceKind | MapKind

  function KindOf(v: Value): (k: Kind)
    ensures k == NilKind <==> v.Null?
    ensures k == BoolKind <==> v.Bool?
    ensures k == Float64Kind <==> v.Num?
    ensures k == StringKind <==> v.Str?
    ensures k == SliceKind <==> v.Arr?
    ensures k == MapKind <==> v.Obj?
  {
    match v
    case Null => NilKind
    case Bool(_) => BoolKind
    case Num(_) => Float64Kind
    case Str(_) => StringKind
    case Arr(_) => SliceKind
    case Obj(_) => MapKind
  }

  /** What `%T` prints for a value of each kind: only a slice type starts
      with '[' and only a map type with 'm'. */
  function TypeName(k: Kind): (name: string)
    ensures |name| >= 4
    ensures k == NilKind <==> name == "<nil>"
    ensures k == SliceKind <==> name[0] == '['
    ensures k == MapKind <==> name[0] == 'm'
  {
    match k
    case NilKind => "<nil>"
    case BoolKind => "bool"
    case Float64Kind => "float64"
    case StringKind => "string"
    case SliceKind => "[]interface {}"
    case MapKind => "map[string]interface {}"
  }

  /** The shape an operation wanted; each operation has its own wording. */
  datatype Expected =
    | ExpectJsonMap      // G
    | ExpectJsonArray    // I
    | ExpectMapOrArray   // Filter, Map
    | ExpectNumeric      // Int, Float
    | ExpectMap          // MapValue
    | ExpectArray        // Array
    | ExpectString       // Str

  /** The error a node latches. The library itself only raises shape
      mismatches; a script, which is compiled into the same package, may also
      assign its own error to `err`. */
  datatype Error =
    | Mismatch(expected: Expected, found: Kind)
    | ScriptError(text: string)

  /** The error's text, as `%v` prints it. */
  function Message(e: Error): (msg: string)
    ensures e.Mismatch? ==> "expected " <= msg
    ensures e.Mismatch? ==>
      |msg| >= |TypeName(e.found)| && msg[|msg| - |TypeName(e.found)|..] == TypeName(e.found)
  {
    match e
    case ScriptError(text) => text
    case Mismatch(expected, found) =>
      var t := TypeName(found);
      match expected
      case ExpectJsonMap => "expected JSON map, found: " + t
      case ExpectJsonArray => "expected JSON array, found: " + t
      case ExpectMapOrArray => "expected map or array, was " + t
      case ExpectNumeric => "expected numeric, was " + t
      case ExpectMap => "expected map, was " + t
      case ExpectArray => "expected array, was " + t
      case ExpectString => "expected string, was " + t
  }

  /** Different kinds print different `%T` names. */
  lemma TypeNameInjective(k1: Kind, k2: Kind)
    requires TypeName(k1) == TypeName(k2)
    ensures k1 == k2
  {
  }

  /** A mismatch message names the kind that was found: two mismatches from
      the same operation read alike only when they found the same kind. */
  lemma MismatchMessageNamesKind(e: Expected, k1: Kind, k2: Kind)
    requires Message(Mismatch(e, k1)) == Message(Mismatch(e, k2))
    ensures k1 == k2
  {
    var m1, m2 := Message(Mismatch(e, k1)), Message(Mismatch(e, k2));
    var t1, t2 := TypeName(k1), TypeName(k2);
    assert m1[|m1| - |t1|..] == t1 && m2[|m2| - |t2|..] == t2;
    assert |t1| == |t2|;
    TypeNameInjective(k1, k2);
  }

  /** The three fields of a Node struct. */
  datatype NodeState = NodeState(val: Value, err: Option<Error>, origin: string)

  /** Checks if this is a map node: the only shape on which `G` and
      `MapValue` succeed, and the `found` kind a map-expecting error would
      not report. */
  function IsMap(n: NodeState): (b: bool)
    ensures b <==> KindOf(n.val) == MapKind
  {
    n.val.Obj?
  }

  /** The text a node prints as. An errored node prints a diagnostic that
      starts with "Error: " and its whole trace and ends with the error's
      message; any other node prints what the JSON encoder produces for its
      value, which is a parameter here. */
  function String(n: NodeState, encode: Value -> string): (text: string)
    ensures n.err.Some? ==> "Error: " + n.origin + ": " <= text
    ensures n.err.Some? ==>
      |text| >= |Message(n.err.value)| && text[|text| - |Message(n.err.value)|..] == Message(n.err.value)
    ensures n.err.None? ==> text == encode(n.val)
  {
    if n.err.Some? then "Error: " + n.origin + ": " + Message(n.err.value)
    else encode(n.val)
  }

  /** An errored node's printout depends only on its error and trace, never
      on the value it still holds. */
  lemma StringIgnoresValue(n: NodeState, m: NodeState, encode: Value -> string)
    requires n.err.Some? && n.err == m.err && n.origin == m.origin
    ensures String(n, encode) == String(m, encode)
  {
  }

  /** Go's `int(f)` conversion: truncation toward zero. */
  function Trunc(x: real): (r: int)
    ensures 0.0 <= x ==> r as real <= x < r as real + 1.0
    ensures x < 0.0 ==> r as real - 1.0 < x <= r as real
  {
    if x >= 0.0 then x.Floor else -((-x).Floor)
  }

  /** Truncation rounds 2.9 down and -2.9 up. */
  lemma TruncExamples()
    ensures Trunc(2.9) == 2 && Trunc(-2.9) == -2
  {
  }
}
