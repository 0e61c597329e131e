# gq node model

gq runs a short Go script against a JSON document. The script receives the
decoded document wrapped in a `Node` and chains calls on it: `G(key)` and
`I(index)` to navigate, `Filter` and `Map` to rebuild a map or array child by
child, and `Int`, `Float`, `MapValue`, `Array` and `Str` to extract typed
values. The node is then printed. A node carries three fields:

- the current value;
- a latched error;
- an `origin` string that records the calls made so far, e.g. `G(a): I(0)`.

Navigation and transforms do nothing once an error is latched. A node in
error prints as `Error: <origin>: <message>`.

This project models `gq/gq.go` in Dafny:

- `json.dfy` (module `Json`): the decoded value. It has six shapes: null,
  bool, number (`real` stands for float64), string, array and string-keyed map.
- `origins.dfy` (module `Origins`): how `trace` renders a call and appends it
  to `origin`. Arguments are printed the way `fmt.Sprint` prints them and
  joined with `", "`. Entries are separated by `": "`.
- `nodes.dfy` (module `Nodes`): the value of the `Node` struct (`NodeState`).
  It also holds the error record (`Mismatch`: the shape the operation expected
  and the `%T` kind it found), the exact message text, and the
  value-receiver reads `IsMap` and `String`.
- `transforms.dfy` (module `Transforms`): the loops of `Filter` and `Map`.
  In Go they only touch the copy `cn`, the per-child copies `subN` and the
  container being built, and the result is committed at the end. So they are
  methods on struct values. A ghost predicate (`Filtered`, `Mapped`) describes
  what they produce, and lemmas state what that means.
- `gq.dfy` (module `Gq`): the `*Node` handle as a class with fields `val`,
  `err` and `origin`. Each pointer-receiver method updates those fields in
  place.

Callbacks are pure functions of the child node they are handed:

- a Filter callback returns its verdict and the child as it left it;
- a Map callback returns the child as it left it and the node whose value it
  returned.

The source checks the error of the child but takes the value of the returned
node, so the model keeps the two apart. Map iteration order is unspecified, so
the map loops pick the next key with `:|`. Their contracts do not depend on
the order: with no failing child the result is fully determined, and
otherwise some failing child is committed.

Three things about the code shape the model:

- `G` takes one key and `I` takes one index (gq/gq.go:95, 110).
- `I`'s doc comment (gq/gq.go:109) promises null for a missing index, but
  `a[i]` (gq/gq.go:120) panics out of range. `Gq.Node.I` therefore requires
  the index to be in range.
- The extractors `Int`, `Float`, `MapValue`, `Array` and `Str` never test
  `err` (gq/gq.go:44-92). On a matching shape they return the payload even
  from an errored node. On a mismatch they overwrite the error and extend the
  trace. Only `G`, `I`, `Filter` and `Map` return early on a latched error.

## Model

| member | source | states |
|---|---|---|
| Origins.NatToString | gq/gq.go:243-245 | The decimal form of a natural number is non-empty and made only of digits. |
| Origins.IntToString | gq/gq.go:243-245 | `fmt.Sprint` of an int is non-empty, made only of '-' and digits, and starts with '-' exactly when the int is negative. |
| Origins.Sprints | gq/gq.go:242-245 | There is one printed argument per argument. |
| Origins.Extend | gq/gq.go:246-250 | With an empty old origin the new origin is the entry alone. Otherwise it keeps the old origin as a prefix, then exactly ": ", then ends with the entry. |
| Origins.JoinShape | gq/gq.go:246 | `strings.Join` of nothing is empty and of one string is that string. Otherwise the result starts with the first string and is as long as all the strings plus one separator between each two. |
| Origins.CallShape | gq/gq.go:246 | Every entry `%v(%v)` starts with the method name and '(' and ends with ')'. |
| Origins.CallOneArg | gq/gq.go:246 | A one-argument entry is the name, '(', the printed argument and ')', with no separator. |
| Origins.AppendCall | gq/gq.go:241-251 | The loop that prints the arguments and joins them yields exactly `Extend(origin, name(args))`. |
| Origins.ExtendCancel | gq/gq.go:247-249 | Appending two entries to the same origin gives the same origin exactly when the entries are equal. |
| Origins.NatToStringInjective | gq/gq.go:244 | Different naturals have different decimal forms. |
| Origins.IntToStringInjective | gq/gq.go:244 | Different ints print differently, so an `I(i)` entry names its index. |
| Origins.CallOneArgCancel | gq/gq.go:246 | A one-argument entry `name(a)` gives back the printed argument. |
| Origins.IntCallPrefixFree | gq/gq.go:246-250 | If one trace starts with both `name(i)` and `name(j)` appended to the same origin, then i == j. A ')' never occurs inside a printed int, so neither entry can be a proper prefix of the other. |
| Nodes.KindOf | gq/gq.go:100-102 | Each of the six decoded shapes has its own dynamic type: a value is nil, bool, float64, string, slice or map exactly when its kind says so. |
| Nodes.TypeName | gq/gq.go:50-90 | The `%T` names: nil prints as `<nil>`, only the slice type starts with '[' and only the map type starts with 'm'. |
| Nodes.TypeNameInjective | gq/gq.go:50-90 | Different kinds print different `%T` names. |
| Nodes.MismatchMessageNamesKind | gq/gq.go:102 | Two mismatch messages from the same operation are equal only when they report the same found kind. |
| Nodes.Message | gq/gq.go:45-91 | Every mismatch message starts with "expected " and ends with the `%T` name of the kind that was found. |
| Nodes.IsMap | gq/gq.go:234-238 | A node is a map node exactly when its kind is the map kind. That is the kind no map-expecting error reports. |
| Nodes.String | gq/gq.go:21-25 | An errored node prints "Error: ", its whole origin, ": " and then ends with the error message. Any other node prints the encoder's text. |
| Nodes.StringIgnoresValue | gq/gq.go:22-25 | An errored node's printout depends only on its error and origin, never on its stale value. |
| Nodes.Trunc | gq/gq.go:46-47 | Converting a number to int truncates toward zero: the result is within 1 of the number and on the side of zero. |
| Nodes.TruncExamples | gq/gq.go:46-47 | 2.9 truncates to 2 and -2.9 truncates to -2. |
| Transforms.ArrayChildNamesIndex | gq/gq.go:157-159 | Two array children handed equal traces are the same index. |
| Transforms.ExtendedArrayTraceNamesIndex | gq/gq.go:157-159 | If one trace extends the traces handed to the children for indices i and j, then i == j. Whatever a callback appends, the trace of a committed failing array child still names its element. Read together with FilterTraceExtends and MapTraceExtends. |
| Transforms.ArrayChildOf | gq/gq.go:157-159 | `subN := cn`, tracing `I(i)` and setting the value, builds exactly the child `ArrayChild` describes: the element, the copy's error and the copy's trace extended with `I(i)`. |
| Transforms.ObjectChildOf | gq/gq.go:135-137 | The same for a map entry, with `G(k)`. |
| Transforms.ObjectChildNamesKey | gq/gq.go:135-137 | Two map children handed equal traces are the same key. |
| Transforms.KeptIndices | gq/gq.go:166-168 | The accepted positions: strictly increasing, each accepted, and containing every accepted position. |
| Transforms.KeepIfSelects | gq/gq.go:155-171 | The array Filter builds exactly the subsequence of accepted elements: its j-th element is the element at the j-th accepted position. |
| Transforms.KeepIfAll | gq/gq.go:166-168 | When every verdict is true, everything is kept. |
| Transforms.Verdicts | gq/gq.go:156-160 | There is one callback verdict per array element. |
| Transforms.FilterArray | gq/gq.go:153-173 | The array loop of Filter. With no failing child, the copy's value becomes the accepted elements in order. Otherwise the result is the first failing child as the callback left it, and every earlier child passed. |
| Transforms.FilterObject | gq/gq.go:131-151 | The map loop of Filter. With no failing child, the copy's value becomes the submap of accepted keys. Otherwise the result is some failing child as the callback left it. |
| Transforms.MapArray | gq/gq.go:208-226 | The array loop of Map. With no failing child, element i becomes the value of the node returned for child i. Otherwise the result is the first failing child. |
| Transforms.MapObject | gq/gq.go:188-206 | The map loop of Map. With no failing child, every key maps to the value returned for it. Otherwise the result is some failing child. |
| Transforms.FilterKeepsAcceptedElements | gq/gq.go:153-172 | A successful Filter over an array keeps exactly the accepted elements, in their original order. The trace gains only `Filter(func)`, not the per-child `I(i)` entries. |
| Transforms.FilterKeepsAcceptedEntries | gq/gq.go:131-150 | A successful Filter over a map keeps exactly the accepted keys with unchanged values. The trace gains only `Filter(func)`. |
| Transforms.MapKeepsShape | gq/gq.go:188-225 | A successful Map keeps an array's length (element i is the returned value for child i) and a map's exact key set. The trace gains only `Map(func)`. |
| Transforms.FilterAcceptingAllIsIdentity | gq/gq.go:124-173 | A callback that accepts every child and leaves it alone gives back the container unchanged. |
| Transforms.MapOfUnchangedChildIsIdentity | gq/gq.go:181-226 | A callback that returns its child untouched gives back the container unchanged. |
| Transforms.FilterTraceExtends | gq/gq.go:129-178 | Assume callbacks only extend traces. Whatever Filter commits then extends the old origin followed by `Filter(func)`. A committed failure also keeps the `G(k)` or `I(i)` step to the child that failed. |
| Transforms.MapTraceExtends | gq/gq.go:186-231 | The same for Map, with `Map(func)`. |
| Gq.Node.constructor | gq/gq.go:36-42 | A freshly decoded node holds the value, no error and an empty origin. |
| Gq.Node.Commit | gq/gq.go:148-149 | `*n = cn` replaces all three fields at once. |
| Gq.Node.Trace | gq/gq.go:240-251 | The origin becomes `Extend(old origin, name(args))`. Value and error are unchanged. |
| Gq.Node.Int | gq/gq.go:44-52 | A number is returned truncated and the node is untouched, even when an error is latched. Any other shape returns 0, keeps the value, overwrites the error with a numeric mismatch and appends `Int()`. |
| Gq.Node.Float | gq/gq.go:54-62 | The same as Int, for float: the number itself or 0, and `Float()` is appended. |
| Gq.Node.MapValue | gq/gq.go:64-72 | A map is returned exactly when IsMap holds, and the node is untouched. Otherwise it returns an empty map, overwrites the error and appends `MapValue()`. |
| Gq.Node.Array | gq/gq.go:74-82 | An array is returned and the node is untouched. Otherwise it returns an empty array, overwrites the error and appends `Array()`. |
| Gq.Node.Str | gq/gq.go:84-92 | A string is returned and the node is untouched. Otherwise it returns the literal "error", overwrites the error and appends `String()`. |
| Gq.Node.G | gq/gq.go:94-107 | With an error latched, nothing changes. Otherwise `G(path)` is appended. The node fails exactly when it is not a map; the failure keeps the value and records the found kind. A map becomes m[path], or null for a missing key. |
| Gq.Node.I | gq/gq.go:109-122 | With an error latched, nothing changes. Otherwise `I(i)` is appended. The node fails exactly when it is not an array; the failure keeps the value. An array becomes a[i] (the index must be in range). |
| Gq.Node.Filter | gq/gq.go:124-179 | With an error latched, nothing changes. Otherwise the node becomes what Filtered gives from the copy traced with `Filter(func)`: the filtered container, the failing child, or a map-or-array mismatch with the value kept. |
| Gq.Node.Map | gq/gq.go:181-232 | With an error latched, nothing changes. Otherwise the node becomes what Mapped gives from the copy traced with `Map(func)`. |
| Gq.StickyChain | gq/gq.go:96-98 | Once an error is latched, a chain of G, I, Filter, Map and G leaves value, error and origin exactly as they were. |

## Left out

- Decoding (`UnmarshalJSON`, gq/gq.go:36-42) is a call into `encoding/json`. The constructor takes the decoded value. A decode failure is not modelled.
- Nodes.String: the JSON encoder (gq/gq.go:26-33) is a parameter. Its failure branch, which prints the error and a raw dump of the value, is not modelled because the encoder is a foreign call.
- Nodes.Trunc: Go's `int(f)` is only defined for values within the 64-bit range. The model truncates any real without bound. NaN and infinities do not exist for `real`.
- Float64 arithmetic and rounding are not modelled; numbers are `real`.
- When several map children would fail, which one is blamed depends on Go's map iteration order. The model leaves it open rather than fixing an order.
- Callbacks are modelled as pure functions of the child they receive. Effects a script has elsewhere are not modelled: writes to captured variables, or mutation of maps and slices returned by `MapValue` or `Array` that alias a node's value.
- A Map callback that returns a nil pointer makes Go panic on `replace.val`. The model's callback always returns a node.
- Transforms.FilterTraceExtends, Transforms.MapTraceExtends: these assume every callback only extends the trace it is handed. gq's own operations only extend it, but a script compiled into the same package could assign `origin` directly.
- Unlike an array child's trace, a failing map child's extended trace need not name its key. Keys are printed unescaped, so a key containing `): G(` can make the traces of two failing children coincide once callbacks extend them. Only the traces handed to map children are proved distinct (`Transforms.ObjectChildNamesKey`).
- The pointer that every method returns for chaining is not modelled; it is always the receiver.
- `main.go` is not part of this model. It expands the script template, writes a temporary file, runs `go run` and maps exit codes, all of which is process and file I/O.
- `gq/gq_test.go` only prints results and asserts nothing.
