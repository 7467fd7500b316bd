// Properties of the grammar: how statements are told apart by lookahead,
// what the parser makes up for omitted parts, and a round trip showing that
// arithmetic expressions are parsed with the intended precedence and
// associativity.
module GrammarProperties {
  import opened Wrappers
  import opened Tokens
  import opened Ast
  import opened Grammar

  // -------------------------------------------------------------------------
  // The token window and the end of input

  /** Eating shifts the five-token window by one: the i-th token of the new
      window is the (i+1)-th of the old, the last one the lexer's next token. */
  lemma EatShiftsWindow(ts: seq<Token>, pos: nat, kind: TokenKind, i: nat)
    requires WellFormed(ts) && pos < |ts| && ts[pos].kind == kind && i < 5
    ensures Eat(ts, pos, kind).Success?
    ensures TokenAt(ts, Eat(ts, pos, kind).value + i) == TokenAt(ts, pos + 1 + i)
  {
    var p := Eat(ts, pos, kind).value;
    if pos + 1 < |ts| {
      assert p == pos + 1;
    } else {
      assert p == pos && p + i >= |ts| - 1;
    }
  }

  /** A successful parse has used up every token: the program ends at the
      EOF, the last token of the stream. */
  lemma ParseConsumesAllTokens(ts: seq<Token>)
    requires WellFormed(ts)
    ensures Parse(ts).Success? <==> Program(ts, 0).Success? && Program(ts, 0).value.pos == |ts| - 1
    ensures Parse(ts).Success? ==> Parse(ts).value == Program(ts, 0).value.value
  {
  }

  /** Otherwise the token after the top-level statement is reported as
      unexpected, with EOF as the kind expected. */
  lemma ParseRejectsTrailingTokens(ts: seq<Token>)
    requires WellFormed(ts) && Program(ts, 0).Success?
    requires Program(ts, 0).value.pos < |ts| - 1
    ensures Parse(ts) == Failure(ParseError(UnexpectedToken, ts[Program(ts, 0).value.pos], Some(EOF)))
  {
  }

  // -------------------------------------------------------------------------
  // Statements

  /** An identifier-led statement is a call exactly when `(` follows the
      name, and an assignment otherwise; either way it ends with `;`. */
  lemma IdentifierStatementForms(ts: seq<Token>, pos: nat)
    requires WellFormed(ts) && pos < |ts| && ts[pos].kind == Identifier
    requires Statement(ts, pos).Success?
    ensures var r := Statement(ts, pos).value;
      (r.value.Call? <==> TokenAt(ts, pos + 1).kind == LeftParen) &&
      (!r.value.Call? ==> r.value.Assign?) &&
      pos + 1 < r.pos && ts[r.pos - 1].kind == Semicolon
  {
    assert Statement(ts, pos) == IdentifierStatement(ts, pos);
    IdentifierStatementEndsWithSemicolon(ts, pos);
    CallOrAssignmentShape(ts, pos);
  }

  lemma IdentifierStatementEndsWithSemicolon(ts: seq<Token>, pos: nat)
    requires WellFormed(ts) && pos < |ts|
    requires IdentifierStatement(ts, pos).Success?
    ensures CallOrAssignment(ts, pos).Success?
    ensures var s := CallOrAssignment(ts, pos).value;
      ts[s.pos].kind == Semicolon && IdentifierStatement(ts, pos).value == Parsed(s.value, s.pos + 1)
  {
  }

  lemma CallOrAssignmentShape(ts: seq<Token>, pos: nat)
    requires WellFormed(ts) && pos < |ts|
    requires CallOrAssignment(ts, pos).Success?
    ensures var r := CallOrAssignment(ts, pos).value.value;
      (r.Call? <==> TokenAt(ts, pos + 1).kind == LeftParen) && (!r.Call? ==> r.Assign?)
  {
    if TokenAt(ts, pos + 1).kind != LeftParen {
      var v := Variable(ts, pos).value;
      assert CallOrAssignment(ts, pos) == AssignmentStatement(ts, Var(v.value), v.pos);
    }
  }

  /** A type-led statement is a function definition exactly when the third
      token is `(`, or the second is `[` and the fifth is `(`. */
  lemma TypeLedStatementForms(ts: seq<Token>, pos: nat)
    requires WellFormed(ts) && pos < |ts| && IsTypeKeyword(ts[pos].kind)
    requires Statement(ts, pos).Success?
    ensures var r := Statement(ts, pos).value;
      r.value.FunctionDef? <==>
        (TokenAt(ts, pos + 2).kind == LeftParen ||
         (TokenAt(ts, pos + 1).kind == LeftBracket && TokenAt(ts, pos + 4).kind == LeftParen))
  {
    assert Statement(ts, pos) == TypeLedStatement(ts, pos);
    if TokenAt(ts, pos + 2).kind == LeftParen ||
       (TokenAt(ts, pos + 1).kind == LeftBracket && TokenAt(ts, pos + 4).kind == LeftParen) {
      assert TypeLedStatement(ts, pos) == FunctionDefinition(ts, pos);
      FunctionDefinitionShape(ts, pos);
    } else {
      assert TypeLedStatement(ts, pos) == DeclarationStatement(ts, pos);
      DeclarationStatementShape(ts, pos);
    }
  }

  lemma FunctionDefinitionShape(ts: seq<Token>, pos: nat)
    requires WellFormed(ts) && pos < |ts|
    requires FunctionDefinition(ts, pos).Success?
    ensures FunctionDefinition(ts, pos).value.value.FunctionDef?
  {
  }

  lemma DeclarationStatementShape(ts: seq<Token>, pos: nat)
    requires WellFormed(ts) && pos < |ts|
    requires DeclarationStatement(ts, pos).Success?
    ensures var r := DeclarationStatement(ts, pos).value.value;
      r.Declarations? || (r.Assign? && r.left.Declarations?)
  {
    var d := VariablesDeclarations(ts, pos).value;
    if ts[d.pos].kind == TokenKind.Assign {
      var a := AssignmentStatement(ts, d.value, d.pos).value;
      assert DeclarationStatement(ts, pos).value.value == a.value;
    } else {
      assert DeclarationStatement(ts, pos).value.value == d.value;
    }
  }

  /** Declaring a `void` variable is an `IncorrectType` error on the type's
      token. */
  lemma VoidVariableRejected(ts: seq<Token>, pos: nat)
    requires WellFormed(ts) && pos < |ts| && ts[pos].kind == TypeVoid
    requires Type(ts, pos).Success?
    ensures VariablesDeclarations(ts, pos) == Failure(ParseError(IncorrectType, ts[pos], None))
  {
  }

  /** `T a, b, c`: one declaration per name, the first for the name after
      the type, all sharing the one type node. */
  lemma DeclarationsShareType(ts: seq<Token>, pos: nat)
    requires WellFormed(ts) && pos < |ts|
    requires VariablesDeclarations(ts, pos).Success?
    ensures var t := Type(ts, pos);
      var ds := VariablesDeclarations(ts, pos).value.value.decls;
      t.Success? && |ds| > 0 &&
      ds[0].variable == Variable(ts, t.value.pos).value.value &&
      forall i :: 0 <= i < |ds| ==> ds[i].vtype == t.value.value
  {
    var t := Type(ts, pos).value;
    var v := Variable(ts, t.pos).value;
    var vs := VariablesTail(ts, [v.value], v.pos).value;
    VariablesTailExtends(ts, [v.value], v.pos);
  }

  lemma {:induction false} VariablesTailExtends(ts: seq<Token>, acc: seq<VarRef>, pos: nat)
    requires WellFormed(ts) && pos < |ts|
    requires VariablesTail(ts, acc, pos).Success?
    ensures var vs := VariablesTail(ts, acc, pos).value.value;
      |acc| <= |vs| && vs[..|acc|] == acc
    decreases |ts| - pos
  {
    if ts[pos].kind == Comma {
      var p1 := Eat(ts, pos, Comma).value;
      var v := Variable(ts, p1).value;
      VariablesTailExtends(ts, acc + [v.value], v.pos);
      var vs := VariablesTail(ts, acc, pos).value.value;
      assert vs[..|acc|] == (acc + [v.value])[..|acc|];
    }
  }

  /** In `name[:...]` the omitted start is the number `0`, placed at the
      `:`. */
  lemma OmittedSliceStart(ts: seq<Token>, pos: nat)
    requires WellFormed(ts) && pos + 2 < |ts|
    requires ts[pos].kind == Identifier && ts[pos + 1].kind == LeftBracket && ts[pos + 2].kind == Colon
    requires Variable(ts, pos).Success?
    ensures Variable(ts, pos).value.value.from == Some(NumberAt(ts[pos + 2], ZeroLexeme))
  {
    assert Variable(ts, pos) == Slice(ts, ts[pos], pos + 2);
  }

  /** After `:`, an omitted end (`:` or `]` at once) is the largest 32-bit
      integer, placed at that token. */
  lemma OmittedSliceEnd(ts: seq<Token>, pos: nat)
    requires WellFormed(ts) && pos + 1 < |ts| && ts[pos].kind == Colon
    requires ts[pos + 1].kind == Colon || ts[pos + 1].kind == RightBracket
    ensures SliceTo(ts, pos) == Success(Parsed(Some(NumberAt(ts[pos + 1], IntMaxLexeme)), pos + 1))
  {
  }

  /** Without `[`, a variable has no slice bounds at all. */
  lemma PlainVariable(ts: seq<Token>, pos: nat)
    requires WellFormed(ts) && pos + 1 < |ts|
    requires ts[pos].kind == Identifier && ts[pos + 1].kind != LeftBracket
    ensures Variable(ts, pos) == Success(Parsed(VarRef(ts[pos], None, None, None), pos + 1))
  {
  }

  /** Parameters are parsed only when the first token is `number`. */
  lemma ParametersNeedNumberType(ts: seq<Token>, pos: nat)
    requires WellFormed(ts) && pos < |ts|
    ensures ts[pos].kind != TypeNumber ==> ParameterList(ts, pos) == Success(Parsed([], pos))
    ensures ts[pos].kind == TypeNumber && ParameterList(ts, pos).Success? ==>
      |ParameterList(ts, pos).value.value| > 0
  {
  }

  // -------------------------------------------------------------------------
  // Control statements

  /** `return;` carries no expression, `return e;` carries `e`; both end
      with `;`. */
  lemma ReturnForms(ts: seq<Token>, pos: nat)
    requires WellFormed(ts) && pos + 1 < |ts| && ts[pos].kind == TokenKind.Return
    requires ReturnStatement(ts, pos).Success?
    ensures var r := ReturnStatement(ts, pos).value;
      r.value.Return? &&
      (ts[pos + 1].kind == Semicolon <==> r.value.expr.None?) &&
      (r.value.expr.Some? ==> r.value.expr == Some(Expression(ts, pos + 1).value.value)) &&
      ts[r.pos - 1].kind == Semicolon
  {
  }

  /** `break` and `continue` are two tokens, the second `;`. */
  lemma BreakAndContinueNeedSemicolon(ts: seq<Token>, pos: nat)
    requires WellFormed(ts) && pos < |ts|
    ensures BreakStatement(ts, pos).Success? <==>
      ts[pos].kind == TokenKind.Break && TokenAt(ts, pos + 1).kind == Semicolon
    ensures ContinueStatement(ts, pos).Success? <==>
      ts[pos].kind == TokenKind.Continue && TokenAt(ts, pos + 1).kind == Semicolon
  {
  }

  /** `while` needs its condition in parentheses. */
  lemma WhileNeedsParentheses(ts: seq<Token>, pos: nat)
    requires WellFormed(ts) && pos < |ts|
    requires WhileStatement(ts, pos).Success?
    ensures ts[pos].kind == TokenKind.While && TokenAt(ts, pos + 1).kind == LeftParen
    ensures var c := Expression(ts, pos + 2).value;
      ts[c.pos].kind == RightParen &&
      WhileStatement(ts, pos).value.value == Node.While(ts[pos], c.value, Statement(ts, c.pos + 1).value.value)
  {
    assert ts[pos].kind == TokenKind.While && ts[pos + 1].kind == LeftParen;
    var c := Expression(ts, pos + 2);
    assert c.Success?;
    assert ts[c.value.pos].kind == RightParen;
    var b := Statement(ts, c.value.pos + 1);
    assert b.Success?;
  }

  /** `if` builds no `elif` branches; the else branch is there exactly when
      `else` follows the then branch. */
  lemma IfElseHasNoElif(ts: seq<Token>, pos: nat)
    requires WellFormed(ts) && pos + 2 < |ts|
    requires IfElseStatement(ts, pos).Success?
    ensures var n := IfElseStatement(ts, pos).value.value;
      n.IfElse? && n.elifs == [] && n.token == ts[pos]
    ensures Expression(ts, pos + 2).Success? && Expression(ts, pos + 2).value.pos + 1 < |ts|
    ensures var c := Expression(ts, pos + 2).value;
      var t := Statement(ts, c.pos + 1);
      t.Success? &&
      (IfElseStatement(ts, pos).value.value.elseBranch.Some? <==> ts[t.value.pos].kind == Else)
  {
    assert ts[pos].kind == If && ts[pos + 1].kind == LeftParen;
    var c := Expression(ts, pos + 2);
    assert c.Success? && ts[c.value.pos].kind == RightParen;
    var t := Statement(ts, c.value.pos + 1);
    assert t.Success?;
    if ts[t.value.pos].kind == Else {
      var f := Statement(ts, t.value.pos + 1).value;
      assert IfElseStatement(ts, pos).value.value == IfElse(ts[pos], c.value.value, t.value.value, [], Some(f.value));
    } else {
      assert IfElseStatement(ts, pos).value.value == IfElse(ts[pos], c.value.value, t.value.value, [], None);
    }
  }

  /** Each `for` section may be empty: no initialisers, no condition (null),
      no steps. */
  lemma ForSectionsMayBeEmpty(ts: seq<Token>, pos: nat)
    requires WellFormed(ts) && pos + 5 < |ts|
    requires ts[pos].kind == TokenKind.For && ts[pos + 1].kind == LeftParen
    requires ts[pos + 2].kind == Semicolon && ts[pos + 3].kind == Semicolon && ts[pos + 4].kind == RightParen
    requires Statement(ts, pos + 5).Success?
    ensures ForStatement(ts, pos) ==
      Success(Parsed(Node.For(ts[pos], [], None, [], Statement(ts, pos + 5).value.value), Statement(ts, pos + 5).value.pos))
  {
    assert ForInitSection(ts, pos + 2) == Success(Parsed([], pos + 3));
    assert ForConditionSection(ts, pos + 3) == Success(Parsed(None, pos + 4));
    assert ForStepSection(ts, pos + 4) == Success(Parsed([], pos + 5));
  }

  /** A `for` initialiser led by a builtin variable type is an assignment to
      declarations; any other is an assignment to a variable. */
  lemma ForInitializationForms(ts: seq<Token>, pos: nat)
    requires WellFormed(ts) && pos < |ts|
    requires ForInitialization(ts, pos).Success?
    ensures var n := ForInitialization(ts, pos).value.value;
      n.Assign? &&
      (IsBuiltinVarType(ts[pos].kind) ==> n.left.Declarations?) &&
      (!IsBuiltinVarType(ts[pos].kind) ==> n.left.Var?)
  {
  }

  // -------------------------------------------------------------------------
  // Types

  /** A type's token is the element type's token; a plain type is one token,
      whatever its kind, and an array type three. */
  lemma TypeShapes(ts: seq<Token>, pos: nat)
    requires WellFormed(ts) && pos + 1 < |ts|
    ensures var r := Type(ts, pos);
      (ts[pos + 1].kind != LeftBracket ==>
        r == Success(Parsed(TypeNode(ts[pos], NonArrayTypeSpec(ts[pos])), pos + 1))) &&
      (ts[pos + 1].kind == LeftBracket && TokenAt(ts, pos + 2).kind == RightBracket ==>
        r == Success(Parsed(TypeNode(ts[pos], ArrayTypeSpec(ts[pos], ts[pos + 1])), pos + 3))) &&
      (ts[pos + 1].kind == LeftBracket && TokenAt(ts, pos + 2).kind != RightBracket ==>
        r == Failure(ParseError(UnexpectedToken, TokenAt(ts, pos + 2), Some(RightBracket))))
  {
  }

  // -------------------------------------------------------------------------
  // Expressions

  /** A factor must start with a sign, a literal, `(` or a name. */
  lemma FactorRejectsOtherTokens(ts: seq<Token>, pos: nat)
    requires WellFormed(ts) && pos < |ts|
    requires ts[pos].kind !in {Plus, Minus, ConstNumber, ConstBool, ConstString, LeftParen, Identifier}
    ensures Factor(ts, pos) == Failure(ParseError(UnexpectedToken, ts[pos], None))
  {
  }

  /** A name in factor position is a call exactly when `(` follows it. */
  lemma IdentifierFactorForms(ts: seq<Token>, pos: nat)
    requires WellFormed(ts) && pos < |ts| && ts[pos].kind == Identifier
    requires Factor(ts, pos).Success?
    ensures Factor(ts, pos).value.value.Call? <==> TokenAt(ts, pos + 1).kind == LeftParen
    ensures !Factor(ts, pos).value.value.Call? ==> Factor(ts, pos).value.value.Var?
  {
  }

  /** A `true`/`false` literal in comparison position is taken alone, even
      when a comparison operator follows. */
  lemma BooleanLiteralComparison(ts: seq<Token>, pos: nat)
    requires WellFormed(ts) && pos < |ts| && ts[pos].kind == ConstBool
    ensures Comparision(ts, pos) == Success(Parsed(BoolLit(ts[pos]), pos + 1))
  {
  }

  /** `!` applies to the following not-condition, and `(` opens a full
      condition that must be closed by `)`. */
  lemma NotConditionForms(ts: seq<Token>, pos: nat)
    requires WellFormed(ts) && pos + 1 < |ts|
    ensures ts[pos].kind == Not && NotCondition(ts, pos + 1).Success? ==>
      NotCondition(ts, pos) == Success(Parsed(UnOp(ts[pos], NotCondition(ts, pos + 1).value.value), NotCondition(ts, pos + 1).value.pos))
    ensures ts[pos].kind == LeftParen && Expression(ts, pos + 1).Success? ==>
      var e := Expression(ts, pos + 1).value;
      NotCondition(ts, pos) ==
        (if ts[e.pos].kind == RightParen then Success(Parsed(e.value, e.pos + 1))
         else Failure(ParseError(UnexpectedToken, ts[e.pos], Some(RightParen))))
  {
  }
}
