/** src/utility/index.ts: the node-tag check `isNode` and the chain evaluator
    `evaluateExpression`. */
module Utility {
  import opened Wrappers
  import opened Types
  import opened JsNumber

  // ---------------------------------------------------------------- isNode

  /** An object handed to `isNode` that carries a block's `id` and `data`; its
      `type` property is `None` when absent or not a string. The guard reads only
      `type`. */
  datatype Candidate = Candidate(id: string, typeField: Option<string>, data: NodeData)

  /** `isNode(node)`: the value is defined and its `type` is one of the three block
      tags. `None` stands for `undefined`. */
  function IsNode(x: Option<Candidate>): (b: bool)
    ensures b <==> x.Some? && x.value.typeField.Some? && KindOfTag(x.value.typeField.value).Some?
  {
    x.Some? && (
      x.value.typeField == Some("primitive") ||
      x.value.typeField == Some("operator") ||
      x.value.typeField == Some("result"))
  }

  /** The narrowing `node is Node` that `isNode` licenses: exactly the candidates it
      accepts become nodes, with the kind their tag names and nothing else changed. */
  function NarrowNode(x: Option<Candidate>): (n: Option<Node>)
    ensures n.Some? <==> IsNode(x)
    ensures n.Some? ==>
      && n.value.id == x.value.id
      && n.value.data == x.value.data
      && x.value.typeField == Some(Tag(n.value.kind))
  {
    if x.Some? && x.value.typeField.Some? then
      match KindOfTag(x.value.typeField.value)
      case Some(k) => Some(Node(x.value.id, k, x.value.data))
      case None => None
    else None
  }

  // ---------------------------------------------------- evaluateExpression

  /** The operators the evaluator knows. */
  const Operators: set<string> := {"+", "-", "*", "/"}

  /** A token the evaluator refuses wherever it appears in the chain. */
  const Sentinel: string := "NA"

  /** `parseFloat(expression[i + 1])`: the operand after the operator at index `i`,
      NaN when there is none (`undefined`) or it does not parse. */
  function OperandAfter(tokens: seq<string>, i: nat): (v: Value)
    ensures i + 1 >= |tokens| ==> v == NaN
    ensures i + 1 < |tokens| ==> (v.Num? <==> ParseFloat(tokens[i + 1]).Some?)
    ensures i + 1 < |tokens| && v.Num? ==> ParseFloat(tokens[i + 1]) == Some(v.r)
  {
    if i + 1 < |tokens| then FloatValue(tokens[i + 1]) else NaN
  }

  /** One turn of the loop: the accumulator after `op` is applied to `operand`, or
      `None` (null) for a division by zero or an operator that is not known. */
  function Apply(acc: Value, op: string, operand: Value): (r: Option<Value>)
    ensures r.None? <==> op !in Operators || (op == "/" && operand == Num(0.0))
    ensures r.Some? && (acc.NaN? || operand.NaN?) ==> r.value.NaN?
  {
    if op == "+" then Some(Add(acc, operand))
    else if op == "-" then Some(Sub(acc, operand))
    else if op == "*" then Some(Mul(acc, operand))
    else if op == "/" then (if operand == Num(0.0) then None else Some(Div(acc, operand)))
    else None
  }

  /** The operator at index `i` ends the evaluation with null. */
  predicate StopsAt(tokens: seq<string>, i: nat)
    requires i < |tokens|
  {
    tokens[i] !in Operators || (tokens[i] == "/" && OperandAfter(tokens, i) == Num(0.0))
  }

  /** The loop from index `i` on, with accumulator `acc`: operators sit at `i`,
      `i + 2`, ..., each applied to the token after it. */
  function FoldFrom(tokens: seq<string>, i: nat, acc: Value): (r: Option<Value>)
    ensures i >= |tokens| ==> r == Some(acc)
    ensures i < |tokens| && StopsAt(tokens, i) ==> r == None
    decreases |tokens| - i
  {
    if i >= |tokens| then Some(acc)
    else
      match Apply(acc, tokens[i], OperandAfter(tokens, i))
      case None => None
      case Some(next) => FoldFrom(tokens, i + 2, next)
  }

  /** `evaluateExpression(expression)`: `None` is `null`, `Some(v)` the number the
      function turns into a string. */
  function Evaluate(expression: seq<string>): (r: Option<Value>)
    ensures |expression| == 0 ==> r == None
    ensures |expression| > 0 && NumberOf(expression[0]).None? ==> r == None
    ensures Sentinel in expression ==> r == None
  {
    if |expression| == 0 || NumberOf(expression[0]).None? then None
    else if Sentinel in expression then None
    else FoldFrom(expression, 1, FloatValue(expression[0]))
  }

  /** The loop of `evaluateExpression`, stepping over the operators two at a time and
      returning early on failure. */
  method EvaluateExpression(expression: seq<string>) returns (r: Option<Value>)
    ensures r == Evaluate(expression)
  {
    if |expression| == 0 || NumberOf(expression[0]).None? {
      return None;
    }
    if Sentinel in expression {
      return None;
    }
    var result := FloatValue(expression[0]);
    var i := 1;
    while i < |expression|
      invariant FoldFrom(expression, i, result) == Evaluate(expression)
      decreases |expression| - i
    {
      var operator := expression[i];
      var nextValue := if i + 1 < |expression| then FloatValue(expression[i + 1]) else NaN;
      if operator == "+" {
        result := Add(result, nextValue);
      } else if operator == "-" {
        result := Sub(result, nextValue);
      } else if operator == "*" {
        result := Mul(result, nextValue);
      } else if operator == "/" {
        if nextValue == Num(0.0) {
          return None;
        }
        result := Div(result, nextValue);
      } else {
        return None;
      }
      i := i + 2;
    }
    return Some(result);
  }
}
