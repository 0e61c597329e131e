/**
 * The node handle a gq script threads through its call chain. Every
 * operation is a pointer-receiver method that updates the node's three
 * fields in place and hands back the same pointer; since that pointer is
 * always the receiver, the methods here return nothing and a chain
 * `n.G("a").I(0)` is the sequence `n.G("a"); n.I(0);`.
 */
module Gq {
  import opened Json
  import opened Origins
  import opened Nodes
  import opened Transforms

  class Node {
    /** The parsed JSON. */
    var val: Value
    /** The latched error, if any. */
    var err: Option<Error>
    /** The calls that produced this node. */
    var origin: string

    /** The struct this handle points to, `*n`. */
    function State(): NodeState
      reads this
    {
      NodeState(val, err, origin)
    }

    /** A node as decoding a document leaves it: the decoded value, no error
        and an empty trace. */
    constructor (v: Value)
      ensures State() == NodeState(v, None, "")
    {
      val, err, origin := v, None, "";
    }

    /** `*n = s`: the whole struct is overwritten at once. */
    method Commit(s: NodeState)
      modifies this
      ensures State() == s
    {
      val, err, origin := s.val, s.err, s.origin;
    }

    /** Appends `name(args...)` to the trace and changes nothing else. */
    method Trace(name: string, args: seq<Arg>)
      modifies this
      ensures origin == Extend(old(origin), Call(name, args))
      ensures val == old(val) && err == old(err)
    {
      origin := AppendCall(origin, name, args);
    }

    /** The number, truncated toward zero. Any other value yields 0, traces
        `Int()` and overwrites the error, latched or not. A number is
        returned even from a node that already holds an error. */
    method Int() returns (x: int)
      modifies this
      ensures old(val).Num? ==> x == Trunc(old(val).x) && State() == old(State())
      ensures !old(val).Num? ==>
        x == 0 && val == old(val)
        && err == Some(Mismatch(ExpectNumeric, KindOf(old(val))))
        && origin == Extend(old(origin), Call("Int", []))
    {
      if val.Num? {
        return Trunc(val.x);
      }
      Trace("Int", []);
      err := Some(Mismatch(ExpectNumeric, KindOf(val)));
      x := 0;
    }

    /** The number itself; otherwise 0, tracing `Float()` and overwriting the
        error. */
    method Float() returns (x: real)
      modifies this
      ensures old(val).Num? ==> x == old(val).x && State() == old(State())
      ensures !old(val).Num? ==>
        x == 0.0 && val == old(val)
        && err == Some(Mismatch(ExpectNumeric, KindOf(old(val))))
        && origin == Extend(old(origin), Call("Float", []))
    {
      if val.Num? {
        return val.x;
      }
      Trace("Float", []);
      err := Some(Mismatch(ExpectNumeric, KindOf(val)));
      x := 0.0;
    }

    /** The map itself, on exactly the nodes IsMap accepts; otherwise an
        empty map, tracing `MapValue()` and overwriting the error. */
    method MapValue() returns (m: map<string, Value>)
      modifies this
      ensures IsMap(old(State())) ==> m == old(val).fields && State() == old(State())
      ensures !IsMap(old(State())) ==>
        m == map[] && val == old(val)
        && err == Some(Mismatch(ExpectMap, KindOf(old(val))))
        && origin == Extend(old(origin), Call("MapValue", []))
    {
      if val.Obj? {
        return val.fields;
      }
      Trace("MapValue", []);
      err := Some(Mismatch(ExpectMap, KindOf(val)));
      m := map[];
    }

    /** The array itself; otherwise an empty array, tracing `Array()` and
        overwriting the error. */
    method Array() returns (a: seq<Value>)
      modifies this
      ensures old(val).Arr? ==> a == old(val).items && State() == old(State())
      ensures !old(val).Arr? ==>
        a == [] && val == old(val)
        && err == Some(Mismatch(ExpectArray, KindOf(old(val))))
        && origin == Extend(old(origin), Call("Array", []))
    {
      if val.Arr? {
        return val.items;
      }
      Trace("Array", []);
      err := Some(Mismatch(ExpectArray, KindOf(val)));
      a := [];
    }

    /** The string itself; otherwise the literal "error", tracing `String()`
        (not `Str()`) and overwriting the error. */
    method Str() returns (s: string)
      modifies this
      ensures old(val).Str? ==> s == old(val).s && State() == old(State())
      ensures !old(val).Str? ==>
        s == "error" && val == old(val)
        && err == Some(Mismatch(ExpectString, KindOf(old(val))))
        && origin == Extend(old(origin), Call("String", []))
    {
      if val.Str? {
        return val.s;
      }
      Trace("String", []);
      err := Some(Mismatch(ExpectString, KindOf(val)));
      s := "error";
    }

    /** Map lookup. A latched error makes it a no-op. Otherwise `G(path)` is
        traced and the node fails exactly when it is not a map; a map node
        becomes the value at `path`, or null when the key is absent. */
    method G(path: string)
      modifies this
      ensures old(err).Some? ==> State() == old(State())
      ensures old(err).None? ==> origin == Extend(old(origin), Call("G", [StrArg(path)]))
      ensures old(err).None? ==> (err.None? <==> IsMap(old(State())))
      ensures old(err).None? && old(val).Obj? && path in old(val).fields ==> val == old(val).fields[path]
      ensures old(err).None? && old(val).Obj? && path !in old(val).fields ==> val == Null
      ensures old(err).None? && !old(val).Obj? ==>
        val == old(val) && err == Some(Mismatch(ExpectJsonMap, KindOf(old(val))))
    {
      if err.Some? {
        return;
      }
      Trace("G", [StrArg(path)]);
      if !val.Obj? {
        err := Some(Mismatch(ExpectJsonMap, KindOf(val)));
        return;
      }
      var m := val.fields;
      val := if path in m then m[path] else Null;
    }

    /** Array indexing. A latched error makes it a no-op. Otherwise `I(i)` is
        traced and the node fails exactly when it is not an array; an array
        node becomes its element `i`. The index is not checked: out of range
        it is a run-time panic, so callers must stay in range. */
    method I(i: int)
      requires err.None? && val.Arr? ==> 0 <= i < |val.items|
      modifies this
      ensures old(err).Some? ==> State() == old(State())
      ensures old(err).None? ==> origin == Extend(old(origin), Call("I", [IntArg(i)]))
      ensures old(err).None? ==> (err.None? <==> old(val).Arr?)
      ensures old(err).None? && old(val).Arr? ==> val == old(val).items[i]
      ensures old(err).None? && !old(val).Arr? ==>
        val == old(val) && err == Some(Mismatch(ExpectJsonArray, KindOf(old(val))))
    {
      if err.Some? {
        return;
      }
      Trace("I", [IntArg(i)]);
      if !val.Arr? {
        err := Some(Mismatch(ExpectJsonArray, KindOf(val)));
        return;
      }
      var a := val.items;
      val := a[i];
    }

    /** Keeps the children of a map or array the callback accepts. A latched
        error makes it a no-op; otherwise the node becomes what Filtered
        describes: the filtered container, the first failing child, or a
        shape error. */
    method Filter(f: FilterFn)
      modifies this
      ensures old(err).Some? ==> State() == old(State())
      ensures old(err).None? ==> Filtered(old(State()), f, State())
    {
      if err.Some? {
        return;
      }
      var cn := State();
      var o := AppendCall(cn.origin, "Filter", [StrArg("func")]);
      cn := cn.(origin := o);
      assert cn == FilterCopy(old(State()));
      match cn.val {
        case Obj(m) =>
          var r := FilterObject(cn, m, f);
          Commit(r);
        case Arr(a) =>
          var r := FilterArray(cn, a, f);
          Commit(r);
        case _ =>
          cn := cn.(err := Some(Mismatch(ExpectMapOrArray, KindOf(val))));
          Commit(cn);
      }
    }

    /** Replaces every child of a map or array with the value the callback
        returns for it. A latched error makes it a no-op; otherwise the node
        becomes what Mapped describes. */
    method Map(f: MapFn)
      modifies this
      ensures old(err).Some? ==> State() == old(State())
      ensures old(err).None? ==> Mapped(old(State()), f, State())
    {
      if err.Some? {
        return;
      }
      var cn := State();
      var o := AppendCall(cn.origin, "Map", [StrArg("func")]);
      cn := cn.(origin := o);
      assert cn == MapCopy(old(State()));
      match cn.val {
        case Obj(m) =>
          var r := MapObject(cn, m, f);
          Commit(r);
        case Arr(a) =>
          var r := MapArray(cn, a, f);
          Commit(r);
        case _ =>
          cn := cn.(err := Some(Mismatch(ExpectMapOrArray, KindOf(val))));
          Commit(cn);
      }
    }
  }

  /** Once a node holds an error, a chain of navigation and transform calls
      leaves it exactly as it was: same value, same error, same trace. */
  method StickyChain(n: Node, path: string, i: int, f: FilterFn, g: MapFn)
    requires n.err.Some?
    modifies n
    ensures n.State() == old(n.State())
  {
    n.G(path);
    n.I(i);
    n.Filter(f);
    n.Map(g);
    n.G(path);
  }
}
