/** What `isNode` and `evaluateExpression` promise, stated over the model in
    utility.dfy and proved. */
module UtilityProperties {
  import opened Wrappers
  import opened Types
  import opened JsNumber
  import opened Utility

  // ---------------------------------------------------------------- isNode

  /** `isNode` holds exactly of defined values whose `type` is some kind's tag. */
  lemma IsNodeIff(x: Option<Candidate>)
    ensures IsNode(x) <==> exists k: Kind :: x.Some? && x.value.typeField == Some(Tag(k))
  {
  }

  /** Any `type` other than the three tags is refused, whatever else the value holds. */
  lemma IsNodeRejectsOtherTags(x: Option<Candidate>)
    requires x.Some? && x.value.typeField.Some?
    requires x.value.typeField.value !in {"primitive", "operator", "result"}
    ensures !IsNode(x) && NarrowNode(x) == None
  {
  }

  // ------------------------------------------------- failure of the reducer

  /** `StopsAt` names exactly the turns of the switch that return null, whatever the
      accumulator: an unknown operator, or `/` before an operand that is 0. */
  lemma StopsAtIff(tokens: seq<string>, i: nat, acc: Value)
    requires i < |tokens|
    ensures StopsAt(tokens, i) <==> Apply(acc, tokens[i], OperandAfter(tokens, i)).None?
  {
  }

  /** The loop from an operator index on yields null exactly when some later operator
      (at the same parity) stops it; the accumulator plays no part. */
  lemma {:induction false} FoldFromNullIff(tokens: seq<string>, i: nat, acc: Value)
    requires i % 2 == 1
    ensures FoldFrom(tokens, i, acc).None? <==>
      exists j :: i <= j < |tokens| && j % 2 == 1 && StopsAt(tokens, j)
    decreases |tokens| - i
  {
    if i < |tokens| {
      var step := Apply(acc, tokens[i], OperandAfter(tokens, i));
      if step.None? {
        assert StopsAt(tokens, i);
      } else {
        var next := step.value;
        assert !StopsAt(tokens, i);
        assert FoldFrom(tokens, i, acc) == FoldFrom(tokens, i + 2, next);
        FoldFromNullIff(tokens, i + 2, next);
        assert (exists j :: i <= j < |tokens| && j % 2 == 1 && StopsAt(tokens, j)) ==>
               (exists j :: i + 2 <= j < |tokens| && j % 2 == 1 && StopsAt(tokens, j)) by {
          if exists j :: i <= j < |tokens| && j % 2 == 1 && StopsAt(tokens, j) {
            var j :| i <= j < |tokens| && j % 2 == 1 && StopsAt(tokens, j);
            assert j != i && j != i + 1;
          }
        }
      }
    }
  }

  /** The evaluator returns null exactly in the four refusal cases: an empty chain, a
      first token that is not a number, the sentinel anywhere, or an operator that is
      unknown or divides by zero. */
  lemma NullIff(tokens: seq<string>)
    ensures Evaluate(tokens) == None <==>
      || tokens == []
      || NumberOf(tokens[0]).None?
      || Sentinel in tokens
      || exists j :: 0 <= j < |tokens| && j % 2 == 1 && StopsAt(tokens, j)
  {
    if tokens != [] && NumberOf(tokens[0]).Some? && Sentinel !in tokens {
      FoldFromNullIff(tokens, 1, FloatValue(tokens[0]));
    }
  }

  /** A division whose divisor is zero makes the result null, whatever comes before
      or after it. */
  lemma DivisionByZeroIsNull(tokens: seq<string>, i: nat)
    requires i % 2 == 1 && i + 1 < |tokens|
    requires tokens[i] == "/" && ParseFloat(tokens[i + 1]) == Some(0.0)
    ensures Evaluate(tokens) == None
  {
    assert StopsAt(tokens, i);
    NullIff(tokens);
  }

  /** An operator outside `+ - * /` (such as "x" or "×") makes the result null. */
  lemma UnknownOperatorIsNull(tokens: seq<string>, i: nat)
    requires i % 2 == 1 && i < |tokens|
    requires tokens[i] !in Operators
    ensures Evaluate(tokens) == None
  {
    assert StopsAt(tokens, i);
    NullIff(tokens);
  }

  // -------------------------------------------------------- NaN results

  /** Once the accumulator is NaN the loop can only end in null or NaN. */
  lemma {:induction false} NaNAbsorbs(tokens: seq<string>, i: nat)
    ensures FoldFrom(tokens, i, NaN) == None || FoldFrom(tokens, i, NaN) == Some(NaN)
    decreases |tokens| - i
  {
    if i < |tokens| {
      match Apply(NaN, tokens[i], OperandAfter(tokens, i))
      case None =>
      case Some(next) =>
        NaNAbsorbs(tokens, i + 2);
    }
  }

  lemma {:induction false} FoldFromReachesNaN(tokens: seq<string>, i: nat, j: nat, acc: Value)
    requires i % 2 == 1 && j % 2 == 1 && i <= j < |tokens|
    requires OperandAfter(tokens, j) == NaN
    ensures FoldFrom(tokens, i, acc) == None || FoldFrom(tokens, i, acc) == Some(NaN)
    decreases j - i
  {
    match Apply(acc, tokens[i], OperandAfter(tokens, i))
    case None =>
    case Some(next) =>
      if i == j {
        NaNAbsorbs(tokens, i + 2);
      } else {
        FoldFromReachesNaN(tokens, i + 2, j, next);
      }
  }

  /** An operator with no operand after it, or with one `parseFloat` cannot read, makes
      any non-null result NaN (the string "NaN"), not null. */
  lemma MissingOperandGivesNaN(tokens: seq<string>, j: nat)
    requires j % 2 == 1 && j < |tokens|
    requires j + 1 == |tokens| || ParseFloat(tokens[j + 1]).None?
    requires Evaluate(tokens).Some?
    ensures Evaluate(tokens) == Some(NaN)
  {
    FoldFromReachesNaN(tokens, 1, j, FloatValue(tokens[0]));
  }

  /** A chain that ends in an operator evaluates to null or NaN. */
  lemma TrailingOperatorGivesNaN(tokens: seq<string>)
    requires |tokens| % 2 == 0 && Evaluate(tokens).Some?
    ensures Evaluate(tokens) == Some(NaN)
  {
    MissingOperandGivesNaN(tokens, |tokens| - 1);
  }

  /** An empty first token passes the `Number` check (it is 0) but `parseFloat` reads
      it as NaN, so the result is null or NaN. */
  lemma EmptyFirstTokenGivesNaN(tokens: seq<string>)
    requires |tokens| > 0 && tokens[0] == "" && Evaluate(tokens).Some?
    ensures Evaluate(tokens) == Some(NaN)
  {
    NaNAbsorbs(tokens, 1);
  }

  /** A chain of one token is that token's number; the loop body never runs. */
  lemma SingleToken(t: string)
    ensures NumberOf(t).None? ==> Evaluate([t]) == None
    ensures t != "" && NumberOf(t).Some? ==> Evaluate([t]) == Some(Num(NumberOf(t).value))
    ensures t == "" ==> Evaluate([t]) == Some(NaN)
  {
  }

  // ------------------------------------------ strict left-to-right reading

  /** The operator at index `j` is known, has an operand that `parseFloat` reads,
      and does not divide by zero. */
  predicate PairOk(tokens: seq<string>, j: nat)
  {
    && j + 1 < |tokens|
    && tokens[j] in Operators
    && ParseFloat(tokens[j + 1]).Some?
    && (tokens[j] == "/" ==> ParseFloat(tokens[j + 1]) != Some(0.0))
  }

  /** From index `i` on the chain is pairs of a known operator and a readable
      operand, with no zero divisor, and ends exactly after an operand. */
  predicate PairsOkFrom(tokens: seq<string>, i: nat)
    decreases |tokens| - i
  {
    if i >= |tokens| then i == |tokens|
    else PairOk(tokens, i) && PairsOkFrom(tokens, i + 2)
  }

  /** A chain with nothing to refuse and no NaN: a first number that `Number` and
      `parseFloat` both read, then pairs of a known operator and a number, with no
      zero divisor. */
  predicate WellFormed(tokens: seq<string>)
  {
    && |tokens| > 0
    && NumberOf(tokens[0]).Some?
    && ParseFloat(tokens[0]).Some?
    && PairsOkFrom(tokens, 1)
  }

  function RealApply(x: real, op: string, y: real): real
    requires op in Operators && (op == "/" ==> y != 0.0)
  {
    if op == "+" then x + y
    else if op == "-" then x - y
    else if op == "*" then x * y
    else x / y
  }

  /** On numbers, one turn of the loop is the real operation. */
  lemma ApplyAgrees(x: real, op: string, y: real)
    requires op in Operators && (op == "/" ==> y != 0.0)
    ensures Apply(Num(x), op, Num(y)) == Some(Num(RealApply(x, op, y)))
  {
    if op == "+" {
      assert Add(Num(x), Num(y)) == Num(x + y);
    } else if op == "-" {
      assert Sub(Num(x), Num(y)) == Num(x - y);
    } else if op == "*" {
      assert Mul(Num(x), Num(y)) == Num(x * y);
      assert RealApply(x, op, y) == x * y;
      assert Apply(Num(x), op, Num(y)) == Some(Mul(Num(x), Num(y)));
    } else {
      assert Div(Num(x), Num(y)) == Num(x / y);
    }
  }

  /** The reference reading `((acc op_i t_i+1) op_i+2 t_i+3) ...` of the pairs
      from index `i` on, on exact reals. */
  function RealFoldFrom(tokens: seq<string>, i: nat, acc: real): real
    requires PairsOkFrom(tokens, i)
    decreases |tokens| - i
  {
    if i >= |tokens| then acc
    else RealFoldFrom(tokens, i + 2, RealApply(acc, tokens[i], ParseFloat(tokens[i + 1]).value))
  }

  /** `((t0 op1 t2) op3 t4) ...` for a whole well-formed chain. */
  function LeftFold(tokens: seq<string>): real
    requires WellFormed(tokens)
  {
    RealFoldFrom(tokens, 1, ParseFloat(tokens[0]).value)
  }

  /** On well-formed pairs the loop never stops early and never meets NaN: it
      computes the real left fold. */
  lemma {:induction false} FoldFromLeftFold(tokens: seq<string>, i: nat, acc: real)
    requires PairsOkFrom(tokens, i)
    ensures FoldFrom(tokens, i, Num(acc)) == Some(Num(RealFoldFrom(tokens, i, acc)))
    decreases |tokens| - i
  {
    if i < |tokens| {
      var y := ParseFloat(tokens[i + 1]).value;
      assert OperandAfter(tokens, i) == Num(y);
      ApplyAgrees(acc, tokens[i], y);
      FoldFromLeftFold(tokens, i + 2, RealApply(acc, tokens[i], y));
    }
  }

  /** Well-formed pairs hold no sentinel: "NA" is neither an operator nor a number. */
  lemma {:induction false} PairsHaveNoSentinel(tokens: seq<string>, i: nat)
    requires PairsOkFrom(tokens, i)
    ensures forall j :: i <= j < |tokens| ==> tokens[j] != Sentinel
    decreases |tokens| - i
  {
    if i < |tokens| {
      SentinelIsNaN();
      PairsHaveNoSentinel(tokens, i + 2);
    }
  }

  /** A well-formed chain holds no sentinel. */
  lemma WellFormedHasNoSentinel(tokens: seq<string>)
    requires WellFormed(tokens)
    ensures Sentinel !in tokens
  {
    SentinelIsNaN();
    PairsHaveNoSentinel(tokens, 1);
  }

  /** For a well-formed chain the evaluator returns the strict left-to-right value,
      with no operator precedence. */
  lemma LeftToRight(tokens: seq<string>)
    requires WellFormed(tokens)
    ensures Evaluate(tokens) == Some(Num(LeftFold(tokens)))
  {
    WellFormedHasNoSentinel(tokens);
    assert Evaluate(tokens) == FoldFrom(tokens, 1, FloatValue(tokens[0]));
    FoldFromLeftFold(tokens, 1, ParseFloat(tokens[0]).value);
  }

  // ---------------------------------------------------------- examples

  /** `["2", "+", "2", "*", "3"]` is `(2 + 2) * 3`, not `2 + 2 * 3`. */
  lemma NoPrecedenceExample()
    ensures Evaluate(["2", "+", "2", "*", "3"]) == Some(Num(12.0))
  {
  }

  lemma SumExample()
    ensures Evaluate(["5", "+", "3"]) == Some(Num(8.0))
  {
  }

  lemma DivisionByZeroExample()
    ensures Evaluate(["10", "/", "0"]) == None
  {
  }

  /** `"NA"` as the first token refuses the chain before any operator is read. */
  lemma SentinelOperandExample()
    ensures Evaluate(["NA", "/", "2"]) == None
  {
  }

  /** The operator is the ASCII `*`; the sign "×" is an unknown operator. */
  lemma TimesSignExample()
    ensures Evaluate(["2", "+", "2", "×", "3"]) == None
  {
  }

  /** A chain that ends in an operator gives NaN rather than null. */
  lemma TrailingOperatorExample()
    ensures Evaluate(["4", "+"]) == Some(NaN)
  {
  }

  /** `Number` wants the whole token to be a number, `parseFloat` only its front: a
      first token "5px" is refused, a later one is read as 5. */
  lemma TwoReadingsExample()
    ensures Evaluate(["5px", "+", "1"]) == None
    ensures Evaluate(["1", "+", "5px"]) == Some(Num(6.0))
  {
  }
}
