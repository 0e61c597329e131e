/**
 * The provenance string a node carries in its `origin` field: every traced
 * call is rendered as `method(arg1, arg2, ...)` and appended to the previous
 * origin with a ": " separator.
 */
module Origins {

  /** An argument passed to `trace`: the source only ever passes strings
      (keys, paths, the literal "func") and ints (array indices). */
  datatype Arg = StrArg(s: string) | IntArg(i: int)

  /** The decimal digit character for `d`. */
  function Digit(d: nat): (c: char)
    requires d < 10
    ensures '0' <= c <= '9'
  {
    (('0' as int) + d) as char
  }

  /** Decimal rendering of a natural number, most significant digit first. */
  function NatToString(n: nat): (s: string)
    ensures |s| > 0
    ensures forall j :: 0 <= j < |s| ==> '0' <= s[j] <= '9'
    ensures n >= 10 ==> |s| >= 2
    decreases n
  {
    if n < 10 then [Digit(n)] else NatToString(n / 10) + [Digit(n % 10)]
  }

  /** What Go's fmt.Sprint prints for an int: its decimal form, with a
      leading '-' when negative. */
  function IntToString(i: int): (s: string)
    ensures |s| > 0
    ensures i < 0 <==> s[0] == '-'
    ensures forall j :: 0 <= j < |s| ==> s[j] == '-' || '0' <= s[j] <= '9'
  {
    if i < 0 then "-" + NatToString(-i) else NatToString(i)
  }

  /** fmt.Sprint of one trace argument. */
  function Sprint(a: Arg): string
  {
    match a
    case StrArg(s) => s
    case IntArg(i) => IntToString(i)
  }

  /** The Sprint of every argument, in order. */
  function Sprints(args: seq<Arg>): (ss: seq<string>)
    ensures |ss| == |args|
  {
    seq(|args|, j requires 0 <= j < |args| => Sprint(args[j]))
  }

  /** The lengths of all the strings in `xs`, added up. */
  function TotalLength(xs: seq<string>): nat
  {
    if |xs| == 0 then 0 else |xs[0]| + TotalLength(xs[1..])
  }

  /** strings.Join: the elements separated by `sep`. */
  function Join(xs: seq<string>, sep: string): string
  {
    if |xs| == 0 then ""
    else if |xs| == 1 then xs[0]
    else xs[0] + sep + Join(xs[1..], sep)
  }

  /** The trace entry for one call: `name(a1, a2, ...)`. */
  function Call(name: string, args: seq<Arg>): string
  {
    name + "(" + Join(Sprints(args), ", ") + ")"
  }

  /** Join of nothing is empty and of one string is that string; otherwise
      it starts with the first string and is as long as all the strings plus
      one separator between each two. */
  lemma {:induction false} JoinShape(xs: seq<string>, sep: string)
    ensures |xs| == 0 ==> Join(xs, sep) == ""
    ensures |xs| == 1 ==> Join(xs, sep) == xs[0]
    ensures |xs| > 0 ==>
      xs[0] <= Join(xs, sep) && |Join(xs, sep)| == TotalLength(xs) + (|xs| - 1) * |sep|
    decreases |xs|
  {
    if |xs| > 1 {
      JoinShape(xs[1..], sep);
    }
  }

  /** Every entry is `name(` ... `)`. */
  lemma CallShape(name: string, args: seq<Arg>)
    ensures name + "(" <= Call(name, args)
    ensures Call(name, args)[|Call(name, args)| - 1] == ')'
  {
  }

  /** A one-argument entry is the name and the printed argument in
      parentheses, with no separator. */
  lemma CallOneArg(name: string, a: Arg)
    ensures Call(name, [a]) == name + "(" + Sprint(a) + ")"
  {
  }

  /** The origin after appending `entry`: the entry alone when nothing was
      traced before, otherwise the old origin, ": " and the entry. The old
      origin always survives as a prefix and the entry ends the new one. */
  function Extend(origin: string, entry: string): (r: string)
    ensures origin == "" ==> r == entry
    ensures origin <= r
    ensures |r| >= |origin| + |entry|
    ensures r[|r| - |entry|..] == entry
    ensures origin != "" ==> |r| == |origin| + 2 + |entry| && r[|origin|..|origin| + 2] == ": "
  {
    if origin == "" then entry else origin + ": " + entry
  }

  /** The loop of `trace`: Sprint every argument into `sargs`, join them into
      the call's entry and append it to `origin`. */
  method AppendCall(origin: string, name: string, args: seq<Arg>) returns (o: string)
    ensures o == Extend(origin, Call(name, args))
  {
    var sargs: seq<string> := [];
    for j := 0 to |args|
      invariant |sargs| == j
      invariant forall k :: 0 <= k < j ==> sargs[k] == Sprint(args[k])
    {
      sargs := sargs + [Sprint(args[j])];
    }
    assert sargs == Sprints(args);
    o := name + "(" + Join(sargs, ", ") + ")";
    if origin != "" {
      o := origin + ": " + o;
    }
  }

  /** Appending to the same origin gives the same trace exactly when the
      entries are the same: the entry can be read back off the end. */
  lemma ExtendCancel(origin: string, e1: string, e2: string)
    ensures Extend(origin, e1) == Extend(origin, e2) <==> e1 == e2
  {
    if origin != "" && Extend(origin, e1) == Extend(origin, e2) {
      var r1, r2 := Extend(origin, e1), Extend(origin, e2);
      assert e1 == r1[|origin| + 2..];
      assert e2 == r2[|origin| + 2..];
    }
  }

  /** Two naturals with the same decimal rendering are equal. */
  lemma {:induction false} NatToStringInjective(a: nat, b: nat)
    requires NatToString(a) == NatToString(b)
    ensures a == b
    decreases a
  {
    var s := NatToString(a);
    if a < 10 && b < 10 {
      assert s[0] == Digit(a) && s[0] == Digit(b);
    } else if 10 <= a && 10 <= b {
      var n := |s|;
      assert s[n - 1] == Digit(a % 10) && s[n - 1] == Digit(b % 10);
      assert NatToString(a / 10) == s[..n - 1] == NatToString(b / 10);
      NatToStringInjective(a / 10, b / 10);
    }
  }

  /** Two ints with the same Sprint are equal, so an `I(i)` entry names its
      index unambiguously. */
  lemma IntToStringInjective(i: int, j: int)
    requires IntToString(i) == IntToString(j)
    ensures i == j
  {
    if i < 0 && j < 0 {
      assert NatToString(-i) == IntToString(i)[1..] == NatToString(-j);
      NatToStringInjective(-i, -j);
    } else if 0 <= i && 0 <= j {
      NatToStringInjective(i, j);
    }
  }

  /** A call with one argument determines that argument's printed form. */
  lemma CallOneArgCancel(name: string, a1: Arg, a2: Arg)
    requires Call(name, [a1]) == Call(name, [a2])
    ensures Sprint(a1) == Sprint(a2)
  {
    var c1, c2 := Call(name, [a1]), Call(name, [a2]);
    assert Sprints([a1]) == [Sprint(a1)];
    assert Sprints([a2]) == [Sprint(a2)];
    assert Sprint(a1) == c1[|name| + 1..|c1| - 1];
    assert Sprint(a2) == c2[|name| + 1..|c2| - 1];
  }

  /** What precedes the argument of a one-argument entry `name(...)`
      appended to `origin`. */
  function CallHead(origin: string, name: string): string
  {
    (if origin == "" then "" else origin + ": ") + name + "("
  }

  /** A one-int-argument entry appended to `origin`, spelled out. */
  lemma ExtendIntCall(origin: string, name: string, i: int)
    ensures Extend(origin, Call(name, [IntArg(i)])) == CallHead(origin, name) + IntToString(i) + ")"
  {
  }

  /** Two strings free of ')' that both sit between `h` and a ')' at the
      start of `t` are equal: each ends at the first ')' after `h`. */
  lemma CloseParenCancel(h: string, s1: string, s2: string, t: string)
    requires forall k :: 0 <= k < |s1| ==> s1[k] != ')'
    requires forall k :: 0 <= k < |s2| ==> s2[k] != ')'
    requires h + s1 + ")" <= t && h + s2 + ")" <= t
    ensures s1 == s2
  {
    var a, b := h + s1 + ")", h + s2 + ")";
    assert t[|h| + |s1|] == a[|h| + |s1|] == ')';
    assert t[|h| + |s2|] == b[|h| + |s2|] == ')';
    assert forall p :: |h| <= p < |h| + |s1| ==> t[p] == a[p] == s1[p - |h|];
    assert forall p :: |h| <= p < |h| + |s2| ==> t[p] == b[p] == s2[p - |h|];
    assert |s1| == |s2|;
    assert forall p :: 0 <= p < |s1| ==> s1[p] == t[|h| + p] == s2[p];
  }

  /** A trace that starts with `name(i)` appended to `origin` and also with
      `name(j)` appended to it has i == j: the closing ')' of either entry
      cannot fall among the other int's digits, so neither entry can be a
      proper prefix of the other. */
  lemma IntCallPrefixFree(origin: string, name: string, i: int, j: int, t: string)
    requires Extend(origin, Call(name, [IntArg(i)])) <= t
    requires Extend(origin, Call(name, [IntArg(j)])) <= t
    ensures i == j
  {
    ExtendIntCall(origin, name, i);
    ExtendIntCall(origin, name, j);
    CloseParenCancel(CallHead(origin, name), IntToString(i), IntToString(j), t);
    IntToStringInjective(i, j);
  }

  /** Being a prefix is transitive. */
  lemma PrefixTransitive(a: string, b: string, c: string)
    requires a <= b && b <= c
    ensures a <= c
  {
  }
}
