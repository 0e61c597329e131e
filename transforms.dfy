/**
 * The bulk transforms `Filter` and `Map`. Both work on a copy `cn` of the
 * node whose trace already records the call, hand every child to the
 * callback as a fresh copy `subN` of `cn` traced with `G(key)` or `I(index)`,
 * and either build a new container or stop at the first child the callback
 * leaves in error, which then becomes the result as a whole.
 */
module Transforms {
  import opened Json
  import opened Origins
  import opened Nodes

  /** A Filter callback, as a function of the child it is handed: its
      verdict, and the child as the callback left it. */
  type FilterFn = NodeState -> (bool, NodeState)

  /** A Map callback, as a function of the child it is handed: the child as
      the callback left it, and the node whose value the callback returned. */
  type MapFn = NodeState -> (NodeState, NodeState)

  /** The child handed to a callback for array element `i`. */
  function ArrayChild(cn: NodeState, i: int, v: Value): NodeState
  {
    NodeState(v, cn.err, Extend(cn.origin, Call("I", [IntArg(i)])))
  }

  /** The child handed to a callback for map entry `k`. */
  function ObjectChild(cn: NodeState, k: string, v: Value): NodeState
  {
    NodeState(v, cn.err, Extend(cn.origin, Call("G", [StrArg(k)])))
  }

  /** The trace of an array child names its index: two children with the same
      trace are the same element. */
  lemma ArrayChildNamesIndex(cn: NodeState, i: int, j: int, v: Value, w: Value)
    requires ArrayChild(cn, i, v).origin == ArrayChild(cn, j, w).origin
    ensures i == j
  {
    ExtendCancel(cn.origin, Call("I", [IntArg(i)]), Call("I", [IntArg(j)]));
    CallOneArgCancel("I", IntArg(i), IntArg(j));
    IntToStringInjective(i, j);
  }

  /** A trace that extends the traces of two array children of the same copy
      names one element: whatever a callback appends after `I(i)`, the
      trace still pinpoints index i. */
  lemma ExtendedArrayTraceNamesIndex(cn: NodeState, i: int, j: int, v: Value, w: Value, t: string)
    requires ArrayChild(cn, i, v).origin <= t && ArrayChild(cn, j, w).origin <= t
    ensures i == j
  {
    IntCallPrefixFree(cn.origin, "I", i, j, t);
  }

  /** The trace of a map child names its key. */
  lemma ObjectChildNamesKey(cn: NodeState, k: string, l: string, v: Value, w: Value)
    requires ObjectChild(cn, k, v).origin == ObjectChild(cn, l, w).origin
    ensures k == l
  {
    ExtendCancel(cn.origin, Call("G", [StrArg(k)]), Call("G", [StrArg(l)]));
    CallOneArgCancel("G", StrArg(k), StrArg(l));
  }

  /** The elements of `xs` whose verdict in `keep` is true, in order: what the
      array loop of Filter appends to `filtered`. */
  function KeepIf(xs: seq<Value>, keep: seq<bool>): seq<Value>
    requires |xs| == |keep|
  {
    if |xs| == 0 then []
    else
      var n := |xs| - 1;
      KeepIf(xs[..n], keep[..n]) + (if keep[n] then [xs[n]] else [])
  }

  /** The positions whose verdict is true, strictly increasing, and every
      such position. */
  function KeptIndices(keep: seq<bool>): (idx: seq<nat>)
    ensures forall j :: 0 <= j < |idx| ==> idx[j] < |keep| && keep[idx[j]]
    ensures forall j, k :: 0 <= j < k < |idx| ==> idx[j] < idx[k]
    ensures forall i :: 0 <= i < |keep| && keep[i] ==> i in idx
  {
    if |keep| == 0 then []
    else
      var n := |keep| - 1;
      KeptIndices(keep[..n]) + (if keep[n] then [n] else [])
  }

  /** KeepIf is exactly the subsequence of accepted elements in their
      original order: its j-th element is the element at the j-th accepted
      position. */
  lemma {:induction false} KeepIfSelects(xs: seq<Value>, keep: seq<bool>)
    requires |xs| == |keep|
    ensures |KeepIf(xs, keep)| == |KeptIndices(keep)|
    ensures forall j :: 0 <= j < |KeptIndices(keep)| ==> KeepIf(xs, keep)[j] == xs[KeptIndices(keep)[j]]
  {
    if |xs| > 0 {
      var n := |xs| - 1;
      KeepIfSelects(xs[..n], keep[..n]);
    }
  }

  /** The verdict of a Filter callback on each array element. */
  function Verdicts(cn: NodeState, a: seq<Value>, f: FilterFn): (vs: seq<bool>)
    ensures |vs| == |a|
  {
    seq(|a|, i requires 0 <= i < |a| => f(ArrayChild(cn, i, a[i])).0)
  }

  /** The value of the node a Map callback returns for each array element. */
  function ReturnedValues(cn: NodeState, a: seq<Value>, f: MapFn): (vs: seq<Value>)
    ensures |vs| == |a|
  {
    seq(|a|, i requires 0 <= i < |a| => f(ArrayChild(cn, i, a[i])).1.val)
  }

  /** The entries of `m` whose Filter verdict is true. */
  function AcceptedFields(cn: NodeState, m: map<string, Value>, f: FilterFn): map<string, Value>
  {
    map k | k in m && f(ObjectChild(cn, k, m[k])).0 :: m[k]
  }

  /** Every key of `m`, mapped to the value of the node a Map callback
      returns for it. */
  function ReturnedFields(cn: NodeState, m: map<string, Value>, f: MapFn): map<string, Value>
  {
    map k | k in m :: f(ObjectChild(cn, k, m[k])).1.val
  }

  /** Whether the callback leaves array child `i` in error. */
  predicate FilterFailsAt(cn: NodeState, a: seq<Value>, f: FilterFn, i: int)
    requires 0 <= i < |a|
  {
    f(ArrayChild(cn, i, a[i])).1.err.Some?
  }

  predicate MapFailsAt(cn: NodeState, a: seq<Value>, f: MapFn, i: int)
    requires 0 <= i < |a|
  {
    f(ArrayChild(cn, i, a[i])).0.err.Some?
  }

  /** Filter's array loop from the copy `cn`: with no failing child the copy
      holds the accepted elements; otherwise the result is the first failing
      child as the callback left it. */
  ghost predicate FilteredArray(cn: NodeState, a: seq<Value>, f: FilterFn, r: NodeState)
  {
    if forall i :: 0 <= i < |a| ==> !FilterFailsAt(cn, a, f, i) then
      r == cn.(val := Arr(KeepIf(a, Verdicts(cn, a, f))))
    else
      exists i :: 0 <= i < |a| && FilterFailsAt(cn, a, f, i) && r == f(ArrayChild(cn, i, a[i])).1
                  && forall j :: 0 <= j < i ==> !FilterFailsAt(cn, a, f, j)
  }

  /** Filter's map loop from the copy `cn`: with no failing child the copy
      holds the entries whose verdict is true, values untouched; otherwise the
      result is some failing child as the callback left it (map iteration
      order decides which). */
  ghost predicate FilteredObject(cn: NodeState, m: map<string, Value>, f: FilterFn, r: NodeState)
  {
    if forall k :: k in m ==> f(ObjectChild(cn, k, m[k])).1.err.None? then
      r == cn.(val := Obj(AcceptedFields(cn, m, f)))
    else
      exists k :: k in m && f(ObjectChild(cn, k, m[k])).1.err.Some? && r == f(ObjectChild(cn, k, m[k])).1
  }

  /** Map's array loop from the copy `cn`: with no failing child, element `i`
      becomes the value of the node returned for child `i`; otherwise the
      result is the first failing child as the callback left it. */
  ghost predicate MappedArray(cn: NodeState, a: seq<Value>, f: MapFn, r: NodeState)
  {
    if forall i :: 0 <= i < |a| ==> !MapFailsAt(cn, a, f, i) then
      r == cn.(val := Arr(ReturnedValues(cn, a, f)))
    else
      exists i :: 0 <= i < |a| && MapFailsAt(cn, a, f, i) && r == f(ArrayChild(cn, i, a[i])).0
                  && forall j :: 0 <= j < i ==> !MapFailsAt(cn, a, f, j)
  }

  /** Map's map loop from the copy `cn`: with no failing child, every key
      stays and maps to the value of the node returned for it; otherwise the
      result is some failing child as the callback left it. */
  ghost predicate MappedObject(cn: NodeState, m: map<string, Value>, f: MapFn, r: NodeState)
  {
    if forall k :: k in m ==> f(ObjectChild(cn, k, m[k])).0.err.None? then
      r == cn.(val := Obj(ReturnedFields(cn, m, f)))
    else
      exists k :: k in m && f(ObjectChild(cn, k, m[k])).0.err.Some? && r == f(ObjectChild(cn, k, m[k])).0
  }

  /** The copy Filter works on: the node with `Filter(func)` traced. */
  function FilterCopy(s: NodeState): NodeState
  {
    s.(origin := Extend(s.origin, Call("Filter", [StrArg("func")])))
  }

  /** The copy Map works on: the node with `Map(func)` traced. */
  function MapCopy(s: NodeState): NodeState
  {
    s.(origin := Extend(s.origin, Call("Map", [StrArg("func")])))
  }

  /** What `Filter` commits for a node `s` without an error. */
  ghost predicate Filtered(s: NodeState, f: FilterFn, r: NodeState)
  {
    var cn := FilterCopy(s);
    match s.val
    case Obj(m) => FilteredObject(cn, m, f, r)
    case Arr(a) => FilteredArray(cn, a, f, r)
    case _ => r == cn.(err := Some(Mismatch(ExpectMapOrArray, KindOf(s.val))))
  }

  /** What `Map` commits for a node `s` without an error. */
  ghost predicate Mapped(s: NodeState, f: MapFn, r: NodeState)
  {
    var cn := MapCopy(s);
    match s.val
    case Obj(m) => MappedObject(cn, m, f, r)
    case Arr(a) => MappedArray(cn, a, f, r)
    case _ => r == cn.(err := Some(Mismatch(ExpectMapOrArray, KindOf(s.val))))
  }

  /** One unrolling of KeepIf, as the array loop of Filter extends it. */
  lemma KeepIfSnoc(a: seq<Value>, keep: seq<bool>, i: nat)
    requires |a| == |keep| && i < |a|
    ensures KeepIf(a[..i + 1], keep[..i + 1])
         == KeepIf(a[..i], keep[..i]) + (if keep[i] then [a[i]] else [])
  {
    assert a[..i + 1][..i] == a[..i];
    assert keep[..i + 1][..i] == keep[..i];
  }

  /** `subN := cn; subN.trace("I", i); subN.val = v` */
  method ArrayChildOf(cn: NodeState, i: int, v: Value) returns (subN: NodeState)
    ensures subN == ArrayChild(cn, i, v)
  {
    subN := cn;
    var o := AppendCall(subN.origin, "I", [IntArg(i)]);
    subN := subN.(origin := o);
    subN := subN.(val := v);
  }

  /** `subN := cn; subN.trace("G", k); subN.val = v` */
  method ObjectChildOf(cn: NodeState, k: string, v: Value) returns (subN: NodeState)
    ensures subN == ObjectChild(cn, k, v)
  {
    subN := cn;
    var o := AppendCall(subN.origin, "G", [StrArg(k)]);
    subN := subN.(origin := o);
    subN := subN.(val := v);
  }

  /** The array loop of Filter. */
  method FilterArray(cn: NodeState, a: seq<Value>, f: FilterFn) returns (r: NodeState)
    ensures FilteredArray(cn, a, f, r)
  {
    var filtered: seq<Value> := [];
    var i := 0;
    while i < |a|
      invariant 0 <= i <= |a|
      invariant forall j :: 0 <= j < i ==> !FilterFailsAt(cn, a, f, j)
      invariant filtered == KeepIf(a[..i], Verdicts(cn, a, f)[..i])
    {
      var subN := ArrayChildOf(cn, i, a[i]);
      var (success, after) := f(subN);
      assert (success, after) == f(ArrayChild(cn, i, a[i]));
      if after.err.Some? {
        r := after;
        assert FilterFailsAt(cn, a, f, i) && r == f(ArrayChild(cn, i, a[i])).1;
        return;
      }
      assert !FilterFailsAt(cn, a, f, i) && success == Verdicts(cn, a, f)[i];
      if success {
        filtered := filtered + [a[i]];
      }
      KeepIfSnoc(a, Verdicts(cn, a, f), i);
      i := i + 1;
    }
    assert a[..|a|] == a;
    assert Verdicts(cn, a, f)[..|a|] == Verdicts(cn, a, f);
    r := cn.(val := Arr(filtered));
  }

  /** The map loop of Filter; keys are visited in an unspecified order. */
  method FilterObject(cn: NodeState, m: map<string, Value>, f: FilterFn) returns (r: NodeState)
    ensures FilteredObject(cn, m, f, r)
  {
    var filtered: map<string, Value> := map[];
    var remaining := m.Keys;
    while remaining != {}
      invariant remaining <= m.Keys
      invariant forall k :: k in m && k !in remaining ==> f(ObjectChild(cn, k, m[k])).1.err.None?
      invariant forall k :: k in filtered <==> k in m && k !in remaining && f(ObjectChild(cn, k, m[k])).0
      invariant forall k :: k in filtered ==> filtered[k] == m[k]
      decreases remaining
    {
      var k :| k in remaining;
      var v := m[k];
      var subN := ObjectChildOf(cn, k, v);
      var outcome := f(subN);  // (success, subN after the call)
      if outcome.1.err.Some? {
        r := outcome.1;
        return;
      }
      if outcome.0 {
        filtered := filtered[k := v];
      }
      remaining := remaining - {k};
    }
    assert filtered == AcceptedFields(cn, m, f);
    r := cn.(val := Obj(filtered));
  }

  /** The array loop of Map. */
  method MapArray(cn: NodeState, a: seq<Value>, f: MapFn) returns (r: NodeState)
    ensures MappedArray(cn, a, f, r)
  {
    var filtered: seq<Value> := [];
    var i := 0;
    while i < |a|
      invariant 0 <= i <= |a|
      invariant forall j :: 0 <= j < i ==> !MapFailsAt(cn, a, f, j)
      invariant |filtered| == i
      invariant forall j :: 0 <= j < i ==> filtered[j] == f(ArrayChild(cn, j, a[j])).1.val
    {
      var subN := ArrayChildOf(cn, i, a[i]);
      var (after, replace) := f(subN);
      assert (after, replace) == f(ArrayChild(cn, i, a[i]));
      if after.err.Some? {
        r := after;
        assert MapFailsAt(cn, a, f, i) && r == f(ArrayChild(cn, i, a[i])).0;
        return;
      }
      assert !MapFailsAt(cn, a, f, i);
      filtered := filtered + [replace.val];
      i := i + 1;
    }
    assert filtered == ReturnedValues(cn, a, f);
    r := cn.(val := Arr(filtered));
  }

  /** The map loop of Map; keys are visited in an unspecified order. */
  method MapObject(cn: NodeState, m: map<string, Value>, f: MapFn) returns (r: NodeState)
    ensures MappedObject(cn, m, f, r)
  {
    var filtered: map<string, Value> := map[];
    var remaining := m.Keys;
    while remaining != {}
      invariant remaining <= m.Keys
      invariant forall k :: k in m && k !in remaining ==> f(ObjectChild(cn, k, m[k])).0.err.None?
      invariant forall k :: k in filtered <==> k in m && k !in remaining
      invariant forall k :: k in filtered ==> filtered[k] == f(ObjectChild(cn, k, m[k])).1.val
      decreases remaining
    {
      var k :| k in remaining;
      var v := m[k];
      var subN := ObjectChildOf(cn, k, v);
      var outcome := f(subN);  // (subN after the call, replace)
      if outcome.0.err.Some? {
        r := outcome.0;
        return;
      }
      filtered := filtered[k := outcome.1.val];
      remaining := remaining - {k};
    }
    assert filtered == ReturnedFields(cn, m, f);
    r := cn.(val := Obj(filtered));
  }

  /** KeepIf with every verdict true keeps everything. */
  lemma {:induction false} KeepIfAll(xs: seq<Value>, keep: seq<bool>)
    requires |xs| == |keep|
    requires forall i :: 0 <= i < |keep| ==> keep[i]
    ensures KeepIf(xs, keep) == xs
  {
    if |xs| > 0 {
      var n := |xs| - 1;
      KeepIfAll(xs[..n], keep[..n]);
      assert xs[..n] + [xs[n]] == xs;
    }
  }

  /** A Filter over an array that no child fails keeps exactly the accepted
      elements, in their original order, and traces only its own call. */
  lemma FilterKeepsAcceptedElements(s: NodeState, f: FilterFn, r: NodeState)
    requires s.val.Arr? && Filtered(s, f, r) && r.err.None?
    ensures r.origin == FilterCopy(s).origin && r.val.Arr?
    ensures var idx := KeptIndices(Verdicts(FilterCopy(s), s.val.items, f));
      |r.val.items| == |idx| && forall j :: 0 <= j < |idx| ==> r.val.items[j] == s.val.items[idx[j]]
  {
    KeepIfSelects(s.val.items, Verdicts(FilterCopy(s), s.val.items, f));
  }

  /** A Filter over a map that no child fails keeps exactly the accepted
      keys, with their values untouched, and traces only its own call. */
  lemma FilterKeepsAcceptedEntries(s: NodeState, f: FilterFn, r: NodeState)
    requires s.val.Obj? && Filtered(s, f, r) && r.err.None?
    ensures r.origin == FilterCopy(s).origin && r.val.Obj?
    ensures forall k :: k in r.val.fields <==> k in s.val.fields && f(ObjectChild(FilterCopy(s), k, s.val.fields[k])).0
    ensures forall k :: k in r.val.fields ==> r.val.fields[k] == s.val.fields[k]
  {
  }

  /** A Map that no child fails keeps the container's shape: an array keeps
      its length and element `i` becomes the value returned for child `i`; a
      map keeps exactly its keys. Only the Map call itself is traced. */
  lemma MapKeepsShape(s: NodeState, f: MapFn, r: NodeState)
    requires (s.val.Arr? || s.val.Obj?) && Mapped(s, f, r) && r.err.None?
    ensures r.origin == MapCopy(s).origin
    ensures s.val.Arr? ==> r.val.Arr? && |r.val.items| == |s.val.items|
    ensures s.val.Arr? ==> forall i :: 0 <= i < |s.val.items| ==>
      r.val.items[i] == f(ArrayChild(MapCopy(s), i, s.val.items[i])).1.val
    ensures s.val.Obj? ==> r.val.Obj? && r.val.fields.Keys == s.val.fields.Keys
    ensures s.val.Obj? ==> forall k :: k in s.val.fields ==>
      r.val.fields[k] == f(ObjectChild(MapCopy(s), k, s.val.fields[k])).1.val
  {
  }

  /** A Filter whose callback accepts every child and leaves it alone gives
      back the container it started from. */
  lemma FilterAcceptingAllIsIdentity(s: NodeState, f: FilterFn, r: NodeState)
    requires s.err.None? && (s.val.Arr? || s.val.Obj?) && Filtered(s, f, r)
    requires forall c: NodeState :: f(c) == (true, c)
    ensures r == FilterCopy(s)
  {
    var cn := FilterCopy(s);
    match s.val
    case Arr(a) =>
      forall i | 0 <= i < |a|
        ensures !FilterFailsAt(cn, a, f, i) && Verdicts(cn, a, f)[i]
      {
        assert f(ArrayChild(cn, i, a[i])) == (true, ArrayChild(cn, i, a[i]));
      }
      KeepIfAll(a, Verdicts(cn, a, f));
    case Obj(m) =>
      forall k | k in m
        ensures f(ObjectChild(cn, k, m[k])).1.err.None? && f(ObjectChild(cn, k, m[k])).0
      {
        assert f(ObjectChild(cn, k, m[k])) == (true, ObjectChild(cn, k, m[k]));
      }
      assert AcceptedFields(cn, m, f) == m;
  }

  /** A Map whose callback returns the child it was handed, untouched, gives
      back the container it started from. */
  lemma MapOfUnchangedChildIsIdentity(s: NodeState, f: MapFn, r: NodeState)
    requires s.err.None? && (s.val.Arr? || s.val.Obj?) && Mapped(s, f, r)
    requires forall c: NodeState :: f(c) == (c, c)
    ensures r == MapCopy(s)
  {
    var cn := MapCopy(s);
    match s.val
    case Arr(a) =>
      forall i | 0 <= i < |a|
        ensures !MapFailsAt(cn, a, f, i) && f(ArrayChild(cn, i, a[i])).1.val == a[i]
      {
        assert f(ArrayChild(cn, i, a[i])) == (ArrayChild(cn, i, a[i]), ArrayChild(cn, i, a[i]));
      }
      assert ReturnedValues(cn, a, f) == a;
    case Obj(m) =>
      forall k | k in m
        ensures f(ObjectChild(cn, k, m[k])).0.err.None? && f(ObjectChild(cn, k, m[k])).1.val == m[k]
      {
        assert f(ObjectChild(cn, k, m[k])) == (ObjectChild(cn, k, m[k]), ObjectChild(cn, k, m[k]));
      }
      assert ReturnedFields(cn, m, f) == m;
  }

  /** Whatever Filter commits, the trace before the call followed by
      `Filter(func)` survives, provided every callback only extends the trace
      it is handed (as every gq operation does). A committed failure also
      keeps the step to the child that failed. */
  lemma FilterTraceExtends(s: NodeState, f: FilterFn, r: NodeState)
    requires s.err.None? && Filtered(s, f, r)
    requires forall c: NodeState :: c.origin <= f(c).1.origin
    ensures s.origin < r.origin
    ensures FilterCopy(s).origin <= r.origin
    ensures s.val.Arr? && r.err.Some? ==>
      exists i :: 0 <= i < |s.val.items| && ArrayChild(FilterCopy(s), i, s.val.items[i]).origin <= r.origin
    ensures s.val.Obj? && r.err.Some? ==>
      exists k :: k in s.val.fields && ObjectChild(FilterCopy(s), k, s.val.fields[k]).origin <= r.origin
  {
    var cn := FilterCopy(s);
    match s.val
    case Arr(a) =>
      if !forall i :: 0 <= i < |a| ==> !FilterFailsAt(cn, a, f, i) {
        var i :| 0 <= i < |a| && FilterFailsAt(cn, a, f, i) && r == f(ArrayChild(cn, i, a[i])).1;
        PrefixTransitive(cn.origin, ArrayChild(cn, i, a[i]).origin, r.origin);
        assert ArrayChild(cn, i, a[i]).origin <= r.origin;
      }
    case Obj(m) =>
      if !forall k :: k in m ==> f(ObjectChild(cn, k, m[k])).1.err.None? {
        var k :| k in m && f(ObjectChild(cn, k, m[k])).1.err.Some? && r == f(ObjectChild(cn, k, m[k])).1;
        PrefixTransitive(cn.origin, ObjectChild(cn, k, m[k]).origin, r.origin);
        assert ObjectChild(cn, k, m[k]).origin <= r.origin;
      }
    case _ =>
  }

  /** The Map counterpart of FilterTraceExtends. */
  lemma MapTraceExtends(s: NodeState, f: MapFn, r: NodeState)
    requires s.err.None? && Mapped(s, f, r)
    requires forall c: NodeState :: c.origin <= f(c).0.origin
    ensures s.origin < r.origin
    ensures MapCopy(s).origin <= r.origin
    ensures s.val.Arr? && r.err.Some? ==>
      exists i :: 0 <= i < |s.val.items| && ArrayChild(MapCopy(s), i, s.val.items[i]).origin <= r.origin
    ensures s.val.Obj? && r.err.Some? ==>
      exists k :: k in s.val.fields && ObjectChild(MapCopy(s), k, s.val.fields[k]).origin <= r.origin
  {
    var cn := MapCopy(s);
    match s.val
    case Arr(a) =>
      if !forall i :: 0 <= i < |a| ==> !MapFailsAt(cn, a, f, i) {
        var i :| 0 <= i < |a| && MapFailsAt(cn, a, f, i) && r == f(ArrayChild(cn, i, a[i])).0;
        PrefixTransitive(cn.origin, ArrayChild(cn, i, a[i]).origin, r.origin);
        assert ArrayChild(cn, i, a[i]).origin <= r.origin;
      }
    case Obj(m) =>
      if !forall k :: k in m ==> f(ObjectChild(cn, k, m[k])).0.err.None? {
        var k :| k in m && f(ObjectChild(cn, k, m[k])).0.err.Some? && r == f(ObjectChild(cn, k, m[k])).0;
        PrefixTransitive(cn.origin, ObjectChild(cn, k, m[k]).origin, r.origin);
        assert ObjectChild(cn, k, m[k]).origin <= r.origin;
      }
    case _ =>
  }
}
