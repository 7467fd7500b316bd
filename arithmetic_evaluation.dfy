// From tokens to a value: the expression `14 + 2 * 3 - 6 / 2`, parsed with
// the grouping `ArithmeticPrecedence` proves, evaluates to 17. Evaluating
// numbers and operators spends no fuel and changes no state, so the value
// is the same for every fuel, every state and every set of function bodies.
module ArithmeticEvaluation {
  import opened Wrappers
  import opened Tokens
  import opened Ast
  import opened Grammar
  import opened ArithmeticPrecedence
  import opened Values
  import opened Evaluation

  /** A number literal yields its value, as a return-shaped result. */
  lemma NumberEvaluates(code: Code, fuel: nat, m: Mem, t: Token, v: int)
    requires NumberOf(t) == Success(v)
    ensures Eval(code, fuel, m, Number(t)) == Success((Yield(Num(v)), m))
  {
  }

  /** An arithmetic operator over two operands that yield numbers and leave
      the state alone yields the operator's result, with no signal. */
  lemma OperatorEvaluates(code: Code, fuel: nat, m: Mem, left: Node, op: Token, right: Node, a: VisitResult, b: VisitResult, v: Value)
    requires op.kind != And && op.kind != Or
    requires Eval(code, fuel, m, left) == Success((Some(a), m))
    requires Eval(code, fuel, m, right) == Success((Some(b), m))
    requires ApplyBinary(op.kind, a.value, b.value) == Success(v)
    ensures Eval(code, fuel, m, BinOp(left, op, right)) == Success((Some(VisitResult(NoControl, v)), m))
  {
  }

  /** The literals of the example read as their decimal values. */
  lemma ExampleLiterals(t: Token)
    ensures t.lexeme == Some("14") ==> NumberOf(t) == Success(14)
    ensures t.lexeme == Some("2") ==> NumberOf(t) == Success(2)
    ensures t.lexeme == Some("3") ==> NumberOf(t) == Success(3)
    ensures t.lexeme == Some("6") ==> NumberOf(t) == Success(6)
  {
    assert "14"[..1] == "1" && "1"[..0] == "" && "2"[..0] == "" && "3"[..0] == "" && "6"[..0] == "";
    assert DigitsValue("1") == 1;
    assert DigitsValue("14") == 14;
  }

  /** `14 + 2 * 3 - 6 / 2` as tokens, followed by anything that ends an
      expression. */
  predicate ExampleAt(ts: seq<Token>) {
    |ts| > 9 &&
    ts[0].kind == ConstNumber && ts[0].lexeme == Some("14") &&
    ts[1].kind == Plus &&
    ts[2].kind == ConstNumber && ts[2].lexeme == Some("2") &&
    ts[3].kind == Multiplication &&
    ts[4].kind == ConstNumber && ts[4].lexeme == Some("3") &&
    ts[5].kind == Minus &&
    ts[6].kind == ConstNumber && ts[6].lexeme == Some("6") &&
    ts[7].kind == Divide &&
    ts[8].kind == ConstNumber && ts[8].lexeme == Some("2") &&
    EndsExpression(ts[9].kind)
  }

  /** The tree `(a + b * c) - d / e` over number literals worth 14, 2, 3,
      6 and 2 evaluates to 17. */
  lemma TreeEvaluatesTo17(code: Code, fuel: nat, m: Mem, a: Token, plus: Token, b: Token, times: Token, c: Token,
                          minus: Token, d: Token, divide: Token, e: Token)
    requires NumberOf(a) == Success(14) && NumberOf(b) == Success(2) && NumberOf(c) == Success(3)
    requires NumberOf(d) == Success(6) && NumberOf(e) == Success(2)
    requires plus.kind == Plus && times.kind == Multiplication && minus.kind == Minus && divide.kind == Divide
    ensures Eval(code, fuel, m, BinOp(BinOp(Number(a), plus, BinOp(Number(b), times, Number(c))), minus, BinOp(Number(d), divide, Number(e))))
            == Success((Some(VisitResult(NoControl, Num(17))), m))
  {
    var product := BinOp(Number(b), times, Number(c));
    var quotient := BinOp(Number(d), divide, Number(e));
    NumberEvaluates(code, fuel, m, a, 14);
    NumberEvaluates(code, fuel, m, b, 2);
    NumberEvaluates(code, fuel, m, c, 3);
    NumberEvaluates(code, fuel, m, d, 6);
    NumberEvaluates(code, fuel, m, e, 2);
    OperatorEvaluates(code, fuel, m, Number(b), times, Number(c), VisitResult(ReturnControl, Num(2)), VisitResult(ReturnControl, Num(3)), Num(6));
    OperatorEvaluates(code, fuel, m, Number(d), divide, Number(e), VisitResult(ReturnControl, Num(6)), VisitResult(ReturnControl, Num(2)), Num(3));
    OperatorEvaluates(code, fuel, m, Number(a), plus, product, VisitResult(ReturnControl, Num(14)), VisitResult(NoControl, Num(6)), Num(20));
    OperatorEvaluates(code, fuel, m, BinOp(Number(a), plus, product), minus, quotient, VisitResult(NoControl, Num(20)), VisitResult(NoControl, Num(3)), Num(17));
  }

  /** The expression parses, takes its nine tokens, and its tree evaluates
      to 17: `2 * 3` and `6 / 2` are worked out before the sum. */
  lemma ExampleEvaluatesTo17(ts: Stream, code: Code, fuel: nat, m: Mem)
    requires ExampleAt(ts)
    ensures ArithmeticExpression(ts, 0).Success? && ArithmeticExpression(ts, 0).value.pos == 9
    ensures Eval(code, fuel, m, ArithmeticExpression(ts, 0).value.value) == Success((Some(VisitResult(NoControl, Num(17))), m))
  {
    SumOfProducts(ts, 0);
    ExampleLiterals(ts[0]);
    ExampleLiterals(ts[2]);
    ExampleLiterals(ts[4]);
    ExampleLiterals(ts[6]);
    ExampleLiterals(ts[8]);
    TreeEvaluatesTo17(code, fuel, m, ts[0], ts[1], ts[2], ts[3], ts[4], ts[5], ts[6], ts[7], ts[8]);
  }
}
