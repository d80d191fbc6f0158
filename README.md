# Interactive calculator: chain evaluator and node check

This project models the logic of the interactive calculator's utility module
(`src/utility/index.ts`). The canvas lets a user wire numeric blocks, operator
blocks and result blocks together. The module holds the two pieces of the
application that compute rather than render:

- `isNode`, the type guard that accepts a value as a canvas node exactly when it
  is defined and its `type` tag is `primitive`, `operator` or `result`;
- `evaluateExpression`, which reduces a flat token chain
  `operand, operator, operand, …` to a number or to `null`. It refuses an empty
  chain, a chain whose first token is not a number (for `Number`), and any chain
  that holds the sentinel `"NA"`. It then folds strictly left to right with no
  precedence, and stops with `null` at a division by zero or an unknown operator.

Files:

- `wrappers.dfy`: `Option`, where `None` stands for `undefined`/`null`.
- `types.dfy`: the block kinds and their tags, and the `Node` and `NodeData`
  records of `src/types/types.ts` (the `label` field is called `caption` because
  `label` is a Dafny keyword).
- `js_number.dfy`: the JavaScript number behaviour the evaluator depends on. A
  double is `Num(r)` or `NaN`. `ParseFloat` reads the longest decimal literal at
  the front of a string. `NumberOf` (`Number(s)`) needs the whole string to be one
  literal and reads `""` as 0. The four operators propagate NaN.
- `utility.dfy`: `IsNode` and `NarrowNode` (what the `node is Node` guard
  licenses). Also `Evaluate`, the reducer as a function specified by the fold
  `FoldFrom`, and `EvaluateExpression`, the source's loop as a method proved equal
  to `Evaluate`.
- `utility_properties.dfy`: the properties of both, and worked examples.

Behaviours of the code a reader might not expect, all kept in the model:

- The multiplication operator is the ASCII `*`. The sign `×` is an unknown
  operator, so `["2","+","2","×","3"]` evaluates to `null`, not 12
  (`TimesSignExample`).
- A refused evaluation is `null`. `"NA"` is a token the evaluator refuses
  (`src/utility/index.ts:17`); nothing in the code produces it. A chain that ends
  in an operator, or whose later operand `parseFloat` cannot read, yields NaN (the
  string `"NaN"`) unless another refusal applies (`MissingOperandGivesNaN`,
  `TrailingOperatorGivesNaN`).
- A first token `""` passes the `Number` check (`Number("")` is 0). `parseFloat("")`
  is NaN, so such a chain yields NaN unless another refusal applies
  (`EmptyFirstTokenGivesNaN`).
- The result is formatted with `toString`, with no fixed number of decimals.
- The code has no connection validation, chain extraction or propagation.
  `onConnect` adds every edge unchecked (`src/components/Canvas/Canvas.tsx:38-41`).
  None of these is modelled.

## Model

| member | source | states |
|---|---|---|
| `Types.KindOfTag` | src/types/types.ts:10 | a tag read back as a kind names that kind; a tag that is refused is no kind's tag |
| `Types.TagRoundTrip` | src/types/types.ts:10 | reading a kind's tag gives the kind back, and no two kinds share a tag |
| `Utility.IsNode` | src/utility/index.ts:3-9 | true exactly of a defined value whose `type` is a kind's tag |
| `Utility.NarrowNode` | src/utility/index.ts:3-9 | the guard's narrowing: a node results exactly when `IsNode` holds, with the same id and data and the kind its tag names |
| `UtilityProperties.IsNodeIff` | src/utility/index.ts:3-9 | `isNode` holds iff the value is defined and its `type` equals `Tag(k)` for some kind `k` |
| `UtilityProperties.IsNodeRejectsOtherTags` | src/utility/index.ts:4-8 | a defined value whose `type` is not `primitive`, `operator` or `result` is refused and narrows to nothing |
| `JsNumber.NumberOf` | src/utility/index.ts:13 | `Number("")` is 0; a non-empty string is accepted exactly when `parseFloat` reads a number from it and its literal spans the whole string, and then both read the same value |
| `JsNumber.ParseFloatNeedsDigit` | src/utility/index.ts:19 | `parseFloat` reads a number exactly when the literal at the front of the string holds a digit |
| `JsNumber.FloatValue` | src/utility/index.ts:19 | `parseFloat` as a double: a number exactly when `parseFloat` reads one, and then that value, otherwise NaN |
| `JsNumber.Add` | src/utility/index.ts:25-27 | `result += nextValue`: NaN exactly when either side is NaN, otherwise the sum |
| `JsNumber.Sub` | src/utility/index.ts:28-30 | `result -= nextValue`: NaN exactly when either side is NaN, otherwise the difference |
| `JsNumber.Mul` | src/utility/index.ts:31-33 | `result *= nextValue`: NaN exactly when either side is NaN, otherwise the product |
| `JsNumber.Div` | src/utility/index.ts:39 | `result /= nextValue` for a non-zero divisor: NaN exactly when either side is NaN, otherwise the quotient `q` with `q * nextValue == result` |
| `JsNumber.ScanIsLongest` | src/utility/index.ts:22 | `parseFloat`'s literal takes the leading sign exactly when there is one, then digits and at most one point, and it stops only where no digit (or first point) follows |
| `JsNumber.ParseDigits` | src/utility/index.ts:19-22 | a non-empty string of digits is, for `Number` and for `parseFloat`, the number it spells |
| `JsNumber.SentinelIsNaN` | src/utility/index.ts:13-17 | the sentinel `"NA"` is NaN for both `Number` and `parseFloat` |
| `Utility.OperandAfter` | src/utility/index.ts:22 | the operand after index `i` is NaN when there is none; otherwise it is a number exactly when `parseFloat` reads one, and then it is `parseFloat`'s value |
| `Utility.Apply` | src/utility/index.ts:24-44 | one turn of the switch is null exactly for an unknown operator or a zero divisor, and is NaN when either side is NaN |
| `UtilityProperties.StopsAtIff` | src/utility/index.ts:34-43 | the loop's two early returns, an unknown operator and `/` before a 0 operand, are exactly the turns of the switch that give null, whatever the accumulator |
| `Utility.FoldFrom` | src/utility/index.ts:20-45 | past the end of the chain the loop returns the accumulator; at an operator that stops it the result is null |
| `Utility.Evaluate` | src/utility/index.ts:12-17 | an empty chain, a first token `Number` refuses, and a chain holding `"NA"` all give null |
| `Utility.EvaluateExpression` | src/utility/index.ts:12-48 | the loop returns exactly `Evaluate(expression)`, early returns included |
| `UtilityProperties.FoldFromNullIff` | src/utility/index.ts:20-45 | from an operator index on, the loop yields null iff some later operator stops it, whatever the accumulator |
| `UtilityProperties.NullIff` | src/utility/index.ts:12-48 | the result is null iff one of the four refusals applies: empty chain, non-numeric first token, `"NA"` anywhere, an unknown operator or zero divisor |
| `UtilityProperties.DivisionByZeroIsNull` | src/utility/index.ts:34-38 | a `/` followed by a token that parses as 0 makes the result null, whatever precedes or follows it |
| `UtilityProperties.UnknownOperatorIsNull` | src/utility/index.ts:41-43 | an operator outside `+ - * /` makes the result null |
| `UtilityProperties.NaNAbsorbs` | src/utility/index.ts:24-40 | once the accumulator is NaN the loop ends in null or NaN |
| `UtilityProperties.FoldFromReachesNaN` | src/utility/index.ts:20-40 | if a later operator has a NaN operand, the loop ends in null or NaN |
| `UtilityProperties.MissingOperandGivesNaN` | src/utility/index.ts:22 | an operator without an operand, or with one `parseFloat` cannot read, makes every non-null result NaN |
| `UtilityProperties.TrailingOperatorGivesNaN` | src/utility/index.ts:20-22 | an even-length chain that is not refused evaluates to NaN |
| `UtilityProperties.EmptyFirstTokenGivesNaN` | src/utility/index.ts:13-19 | a chain starting with `""` that is not refused evaluates to NaN |
| `UtilityProperties.SingleToken` | src/utility/index.ts:13-20 | a one-token chain is null when `Number` refuses the token, NaN for `""`, and otherwise the token's number unchanged |
| `UtilityProperties.ApplyAgrees` | src/utility/index.ts:24-40 | on numbers, a turn of the switch is the real operation the operator names |
| `UtilityProperties.FoldFromLeftFold` | src/utility/index.ts:20-45 | over well-formed pairs the loop, from a numeric accumulator, never stops early and returns the real left fold of the pairs |
| `UtilityProperties.PairsHaveNoSentinel` | src/utility/index.ts:13-17 | well-formed pairs of an operator and a number never contain `"NA"` |
| `UtilityProperties.WellFormedHasNoSentinel` | src/utility/index.ts:13-17 | a well-formed chain passes the `"NA"` refusal |
| `UtilityProperties.LeftToRight` | src/utility/index.ts:19-45 | for a well-formed chain the result is `((t0 op1 t2) op3 t4) …`, with no precedence |
| `UtilityProperties.NoPrecedenceExample` | src/utility/index.ts:20-33 | `["2","+","2","*","3"]` evaluates to 12 |
| `UtilityProperties.SumExample` | src/utility/index.ts:25-27 | `["5","+","3"]` evaluates to 8 |
| `UtilityProperties.DivisionByZeroExample` | src/utility/index.ts:34-38 | `["10","/","0"]` evaluates to null |
| `UtilityProperties.SentinelOperandExample` | src/utility/index.ts:13-17 | `["NA","/","2"]` evaluates to null |
| `UtilityProperties.TimesSignExample` | src/utility/index.ts:41-43 | `["2","+","2","×","3"]` evaluates to null |
| `UtilityProperties.TrailingOperatorExample` | src/utility/index.ts:22 | `["4","+"]` evaluates to NaN |
| `UtilityProperties.TwoReadingsExample` | src/utility/index.ts:13-22 | a first token `"5px"` is refused by `Number`, while a later `"5px"` is read by `parseFloat` as 5 |

## Left out

- EvaluateExpression: returns the number (`Num(r)` or `NaN`), not the string `result.toString()` makes of it. Number formatting is not modelled, and neither `Evaluate` nor `EvaluateExpression` states a string result.
- Double-precision arithmetic: values are exact reals. Rounding, overflow to `Infinity` and signed zero are not modelled.
- `Number` and `parseFloat` are modelled only on plain decimal literals (sign, digits, one point). White-space trimming, exponents, `Infinity`, and hexadecimal, octal and binary literals are not modelled. Strings that use them parse differently in the model.
- IsNode: the guard reads only `type`, so an object without `id` or `data` (such as `{type: 'result'}`) passes it and is narrowed to `Node` by the type system. The model's candidates always carry an `id` and a `data`, so such objects are not represented, and `NarrowNode`'s "same id and data" relies on that.
- `isNode` on `null` or on a non-object: the model's input is a defined object or `undefined` (`None`). In the source `isNode(null)` throws when it reads `null.type`.
- The `console.error` calls before the two early returns are logging only.
- The `Node` fields `dragging`, `selected`, `width`, `height`, `position`, `positionAbsolute` and the `onChange` callback belong to the rendering layer. They are not part of the records.
- `src/components/Canvas/Canvas.tsx`: the React state, drag-and-drop, `screenToFlowPosition`, the unconditional `addEdge` and the `getId` counter are plumbing over a library that is not shown.
- The `Connection` record of `src/types/types.ts`: nothing in the utility module reads it.
- The sidebar, the three block components and the arrow marker only render. The operator block's hard-coded `+` and the result block's hard-coded `25` are display text.
- Connection validation, cycle detection, chain extraction and propagation of results into result blocks: no source for them exists in the code.
