// Precedence and associativity of the arithmetic rules. The one-step lemmas
// hold for every token stream: the expression loop and the term loop fold
// what they read into the node built so far, from the left; a sign applies
// to the factor after it; parentheses make a factor of a whole expression.
// The instances below put the steps together for the shapes that show the
// grouping, among them the expression `14 + 2 * 3 - 6 / 2`.
module ArithmeticPrecedence {
  import opened Wrappers
  import opened Tokens
  import opened Ast
  import opened Grammar

  /** A token stream as the lexer hands it to the parser. */
  type Stream = ts: seq<Token> | WellFormed(ts) witness [Token(EOF, None, 0, 0)]

  predicate IsAddOperator(k: TokenKind) {
    k == Plus || k == Minus
  }

  // One step of each rule.

  /** A number token is a factor on its own. */
  lemma FactorOfNumber(ts: Stream, pos: nat)
    requires pos < |ts| && ts[pos].kind == ConstNumber
    ensures Factor(ts, pos) == Success(Parsed(Number(ts[pos]), pos + 1))
  {
  }

  /** `+` or `-` in factor position applies to the factor after it. */
  lemma FactorOfSign(ts: Stream, pos: nat, f: Node, end: nat)
    requires pos + 1 < |ts| && IsAddOperator(ts[pos].kind)
    requires Factor(ts, pos + 1) == Success(Parsed(f, end))
    ensures Factor(ts, pos) == Success(Parsed(UnOp(ts[pos], f), end))
  {
  }

  /** `(` in factor position reads a whole expression, up to the `)` the
      expression loop stops at. */
  lemma FactorOfParentheses(ts: Stream, pos: nat, e: Node, end: nat)
    requires end < |ts| && pos < end && ts[pos].kind == LeftParen && ts[end].kind == RightParen
    requires ArithmeticExpression(ts, pos + 1) == ArithmeticTail(ts, e, end)
    ensures Factor(ts, pos) == Success(Parsed(e, end + 1))
  {
    TailsStop(ts, e, end);
  }

  /** A term starts with a factor and goes on with the term loop. */
  lemma TermOfFactor(ts: Stream, pos: nat, n: Node, end: nat)
    requires end < |ts| && pos < |ts|
    requires Factor(ts, pos) == Success(Parsed(n, end))
    ensures Term(ts, pos) == TermTail(ts, n, end)
  {
  }

  /** The term loop at `*`, `/` or `%` makes the node so far the left operand
      of the next factor: products associate to the left. */
  lemma TermTailStep(ts: Stream, node: Node, q: nat, right: Node, end: nat)
    requires q + 1 < |ts| && end < |ts| && IsFactorOperator(ts[q].kind)
    requires Factor(ts, q + 1) == Success(Parsed(right, end))
    ensures TermTail(ts, node, q) == TermTail(ts, BinOp(node, ts[q], right), end)
  {
  }

  /** An expression starts with a term, and the expression loop takes over
      only once the term loop has met no `*`, `/` or `%`. */
  lemma ExpressionOfTerm(ts: Stream, pos: nat, n: Node, end: nat)
    requires end < |ts| && pos < |ts|
    requires Term(ts, pos) == TermTail(ts, n, end) && !IsFactorOperator(ts[end].kind)
    ensures ArithmeticExpression(ts, pos) == ArithmeticTail(ts, n, end)
  {
    TailsStop(ts, n, end);
  }

  /** The expression loop at `+` or `-` makes the node so far the left
      operand of the whole next term: sums associate to the left, and a
      product inside the term is built first. */
  lemma ArithmeticTailStep(ts: Stream, node: Node, q: nat, right: Node, end: nat)
    requires q + 1 < |ts| && end < |ts| && IsAddOperator(ts[q].kind)
    requires Term(ts, q + 1) == TermTail(ts, right, end) && !IsFactorOperator(ts[end].kind)
    ensures ArithmeticTail(ts, node, q) == ArithmeticTail(ts, BinOp(node, ts[q], right), end)
  {
    TailsStop(ts, right, end);
  }

  /** Both loops stop, consuming nothing, at a token that is not theirs. */
  lemma TailsStop(ts: Stream, node: Node, q: nat)
    requires q < |ts|
    ensures !IsFactorOperator(ts[q].kind) ==> TermTail(ts, node, q) == Success(Parsed(node, q))
    ensures !IsAddOperator(ts[q].kind) ==> ArithmeticTail(ts, node, q) == Success(Parsed(node, q))
  {
  }

  // Shapes of a few tokens, and the nodes they stand for.

  /** `m + n` or `m - n` over two number tokens starts at `i`. */
  predicate SumAt(ts: seq<Token>, i: nat) {
    i + 2 < |ts| && ts[i].kind == ConstNumber && IsAddOperator(ts[i + 1].kind) && ts[i + 2].kind == ConstNumber
  }

  /** `m * n`, `m / n` or `m % n` over two number tokens starts at `i`. */
  predicate ProductAt(ts: seq<Token>, i: nat) {
    i + 2 < |ts| && ts[i].kind == ConstNumber && IsFactorOperator(ts[i + 1].kind) && ts[i + 2].kind == ConstNumber
  }

  /** The node of the operator at `i + 1` over the numbers at `i` and
      `i + 2`. */
  function OperatorNode(ts: seq<Token>, i: nat): Node
    requires i + 2 < |ts|
  {
    BinOp(Number(ts[i]), ts[i + 1], Number(ts[i + 2]))
  }

  /** A token kind that continues neither loop, so ends an arithmetic
      expression. */
  predicate EndsExpression(k: TokenKind) {
    !IsAddOperator(k) && !IsFactorOperator(k)
  }

  // Steps over number tokens.

  /** A number starts a term. */
  lemma TermOfNumber(ts: Stream, pos: nat)
    requires pos + 1 < |ts| && ts[pos].kind == ConstNumber
    ensures Term(ts, pos) == TermTail(ts, Number(ts[pos]), pos + 1)
  {
    FactorOfNumber(ts, pos);
    TermOfFactor(ts, pos, Number(ts[pos]), pos + 1);
  }

  /** A number followed by anything but `*`, `/` or `%` starts an
      expression. */
  lemma ExpressionOfNumber(ts: Stream, pos: nat)
    requires pos + 1 < |ts| && ts[pos].kind == ConstNumber && !IsFactorOperator(ts[pos + 1].kind)
    ensures ArithmeticExpression(ts, pos) == ArithmeticTail(ts, Number(ts[pos]), pos + 1)
  {
    TermOfNumber(ts, pos);
    ExpressionOfTerm(ts, pos, Number(ts[pos]), pos + 1);
  }

  /** The term loop takes in `* n`, `/ n` or `% n`. */
  lemma TermTakesNumber(ts: Stream, node: Node, q: nat)
    requires q + 2 < |ts| && IsFactorOperator(ts[q].kind) && ts[q + 1].kind == ConstNumber
    ensures TermTail(ts, node, q) == TermTail(ts, BinOp(node, ts[q], Number(ts[q + 1])), q + 2)
  {
    FactorOfNumber(ts, q + 1);
    TermTailStep(ts, node, q, Number(ts[q + 1]), q + 2);
  }

  /** The expression loop takes in `+ n` or `- n` when no `*`, `/` or `%`
      follows. */
  lemma SumTakesNumber(ts: Stream, node: Node, q: nat)
    requires q + 2 < |ts| && IsAddOperator(ts[q].kind) && ts[q + 1].kind == ConstNumber
    requires !IsFactorOperator(ts[q + 2].kind)
    ensures ArithmeticTail(ts, node, q) == ArithmeticTail(ts, BinOp(node, ts[q], Number(ts[q + 1])), q + 2)
  {
    TermOfNumber(ts, q + 1);
    ArithmeticTailStep(ts, node, q, Number(ts[q + 1]), q + 2);
  }

  /** `m * n` (or `/`, `%`) is a term of its own. */
  lemma TermOfProduct(ts: Stream, pos: nat)
    requires pos + 3 < |ts| && ProductAt(ts, pos)
    ensures Term(ts, pos) == TermTail(ts, OperatorNode(ts, pos), pos + 3)
  {
    TermOfNumber(ts, pos);
    TermTakesNumber(ts, Number(ts[pos]), pos + 1);
  }

  /** The expression loop takes in `+ m * n` as one operand when no further
      `*`, `/` or `%` follows. */
  lemma SumTakesProduct(ts: Stream, node: Node, q: nat)
    requires q + 4 < |ts| && IsAddOperator(ts[q].kind) && ProductAt(ts, q + 1)
    requires !IsFactorOperator(ts[q + 4].kind)
    ensures ArithmeticTail(ts, node, q) == ArithmeticTail(ts, BinOp(node, ts[q], OperatorNode(ts, q + 1)), q + 4)
  {
    TermOfProduct(ts, q + 1);
    ArithmeticTailStep(ts, node, q, OperatorNode(ts, q + 1), q + 4);
  }

  // The groupings.

  /** `a - b + c` is `(a - b) + c`: additive operators associate to the
      left. */
  lemma AdditionAssociatesLeft(ts: Stream, pos: nat)
    requires pos + 5 < |ts| && SumAt(ts, pos)
    requires IsAddOperator(ts[pos + 3].kind) && ts[pos + 4].kind == ConstNumber && EndsExpression(ts[pos + 5].kind)
    ensures ArithmeticExpression(ts, pos) ==
      Success(Parsed(BinOp(OperatorNode(ts, pos), ts[pos + 3], Number(ts[pos + 4])), pos + 5))
  {
    ExpressionOfNumber(ts, pos);
    SumTakesNumber(ts, Number(ts[pos]), pos + 1);
    SumTakesNumber(ts, OperatorNode(ts, pos), pos + 3);
    TailsStop(ts, BinOp(OperatorNode(ts, pos), ts[pos + 3], Number(ts[pos + 4])), pos + 5);
  }

  /** `a / b * c` is `(a / b) * c`: multiplicative operators associate to
      the left. */
  lemma MultiplicationAssociatesLeft(ts: Stream, pos: nat)
    requires pos + 5 < |ts| && ProductAt(ts, pos)
    requires IsFactorOperator(ts[pos + 3].kind) && ts[pos + 4].kind == ConstNumber && EndsExpression(ts[pos + 5].kind)
    ensures ArithmeticExpression(ts, pos) ==
      Success(Parsed(BinOp(OperatorNode(ts, pos), ts[pos + 3], Number(ts[pos + 4])), pos + 5))
  {
    var n := BinOp(OperatorNode(ts, pos), ts[pos + 3], Number(ts[pos + 4]));
    TermOfProduct(ts, pos);
    TermTakesNumber(ts, OperatorNode(ts, pos), pos + 3);
    TailsStop(ts, n, pos + 5);
    ExpressionOfTerm(ts, pos, n, pos + 5);
  }

  /** `a + b * c` is `a + (b * c)`: multiplicative operators bind tighter. */
  lemma MultiplicationBindsTighter(ts: Stream, pos: nat)
    requires pos + 5 < |ts| && ts[pos].kind == ConstNumber && IsAddOperator(ts[pos + 1].kind)
    requires ProductAt(ts, pos + 2) && EndsExpression(ts[pos + 5].kind)
    ensures ArithmeticExpression(ts, pos) ==
      Success(Parsed(BinOp(Number(ts[pos]), ts[pos + 1], OperatorNode(ts, pos + 2)), pos + 5))
  {
    ExpressionOfNumber(ts, pos);
    SumTakesProduct(ts, Number(ts[pos]), pos + 1);
    TailsStop(ts, BinOp(Number(ts[pos]), ts[pos + 1], OperatorNode(ts, pos + 2)), pos + 5);
  }

  /** `(a + b)` is a factor holding the sum. */
  lemma ParenthesisedSum(ts: Stream, pos: nat)
    requires pos + 5 < |ts| && ts[pos].kind == LeftParen && SumAt(ts, pos + 1) && ts[pos + 4].kind == RightParen
    ensures Factor(ts, pos) == Success(Parsed(OperatorNode(ts, pos + 1), pos + 5))
  {
    ExpressionOfNumber(ts, pos + 1);
    SumTakesNumber(ts, Number(ts[pos + 1]), pos + 2);
    FactorOfParentheses(ts, pos, OperatorNode(ts, pos + 1), pos + 4);
  }

  /** `(a + b) * c` multiplies the sum: parentheses regroup. */
  lemma ParenthesesRegroup(ts: Stream, pos: nat)
    requires pos + 7 < |ts| && ts[pos].kind == LeftParen && SumAt(ts, pos + 1) && ts[pos + 4].kind == RightParen
    requires IsFactorOperator(ts[pos + 5].kind) && ts[pos + 6].kind == ConstNumber && EndsExpression(ts[pos + 7].kind)
    ensures ArithmeticExpression(ts, pos) ==
      Success(Parsed(BinOp(OperatorNode(ts, pos + 1), ts[pos + 5], Number(ts[pos + 6])), pos + 7))
  {
    var sum := OperatorNode(ts, pos + 1);
    var n := BinOp(sum, ts[pos + 5], Number(ts[pos + 6]));
    ParenthesisedSum(ts, pos);
    TermOfFactor(ts, pos, sum, pos + 5);
    TermTakesNumber(ts, sum, pos + 5);
    TailsStop(ts, n, pos + 7);
    ExpressionOfTerm(ts, pos, n, pos + 7);
  }

  /** `- a * b` is `(- a) * b`: a sign belongs to the factor right after
      it. */
  lemma SignBindsToFactor(ts: Stream, pos: nat)
    requires pos + 4 < |ts| && IsAddOperator(ts[pos].kind) && ProductAt(ts, pos + 1)
    ensures Term(ts, pos) == TermTail(ts, BinOp(UnOp(ts[pos], Number(ts[pos + 1])), ts[pos + 2], Number(ts[pos + 3])), pos + 4)
  {
    var signed := UnOp(ts[pos], Number(ts[pos + 1]));
    FactorOfNumber(ts, pos + 1);
    FactorOfSign(ts, pos, Number(ts[pos + 1]), pos + 2);
    TermOfFactor(ts, pos, signed, pos + 2);
    TermTakesNumber(ts, signed, pos + 2);
  }

  /** The shape of `14 + 2 * 3 - 6 / 2`: `a + b * c - d / e` is
      `(a + (b * c)) - (d / e)`. */
  lemma SumOfProducts(ts: Stream, pos: nat)
    requires pos + 9 < |ts| && ts[pos].kind == ConstNumber
    requires IsAddOperator(ts[pos + 1].kind) && ProductAt(ts, pos + 2)
    requires IsAddOperator(ts[pos + 5].kind) && ProductAt(ts, pos + 6)
    requires EndsExpression(ts[pos + 9].kind)
    ensures ArithmeticExpression(ts, pos) ==
      Success(Parsed(BinOp(BinOp(Number(ts[pos]), ts[pos + 1], OperatorNode(ts, pos + 2)), ts[pos + 5], OperatorNode(ts, pos + 6)), pos + 9))
  {
    var left := BinOp(Number(ts[pos]), ts[pos + 1], OperatorNode(ts, pos + 2));
    ExpressionOfNumber(ts, pos);
    SumTakesProduct(ts, Number(ts[pos]), pos + 1);
    SumTakesProduct(ts, left, pos + 5);
    TailsStop(ts, BinOp(left, ts[pos + 5], OperatorNode(ts, pos + 6)), pos + 9);
  }
}
