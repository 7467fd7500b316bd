// The recursive-descent parser over a five-token lookahead window.
//
// The lexer is represented by the token sequence it produces, handed out one
// token at a time; `Eat` shifts the window and pulls the next token. Every
// parsing method is proved to return what the rule of the same name in
// grammar.dfy yields from the position the window stood at, and to leave the
// window at the position after it.
module ParserService {
  import opened Wrappers
  import opened Tokens
  import opened Ast
  import Grammar

  type ParseError = Grammar.ParseError

  class Parser {
    /** The tokens the lexer produces, ending in EOF. */
    const tokens: seq<Token>
    /** How many tokens have been pulled from the lexer. */
    var pulled: nat
    var currentToken: Token
    var secondToken: Token
    var thirdToken: Token
    var fourthToken: Token
    var fifthToken: Token
    /** The position of the current token in the stream. */
    ghost var pos: nat

    /** The window holds the five tokens from the current position on; the
        lexer is five tokens ahead, or further once only EOF is left. */
    ghost predicate Valid()
      reads this
    {
      Grammar.WellFormed(tokens) && pos < |tokens| &&
      pulled >= pos + 5 && (pulled > pos + 5 ==> pos == |tokens| - 1) &&
      currentToken == tokens[pos] &&
      secondToken == Grammar.TokenAt(tokens, pos + 1) &&
      thirdToken == Grammar.TokenAt(tokens, pos + 2) &&
      fourthToken == Grammar.TokenAt(tokens, pos + 3) &&
      fifthToken == Grammar.TokenAt(tokens, pos + 4)
    }

    /** Tokens left: what every parsing step uses up. */
    ghost function Remaining(): nat
      reads this
      requires Valid()
    {
      |tokens| - pos
    }

    /** The method returned what the grammar rule yields, and on success the
        window stands after it. */
    ghost predicate Agrees<T>(r: Result<T, ParseError>, spec: Grammar.PResult<T>)
      reads this
    {
      match spec
      case Success(p) => r == Success(p.value) && Valid() && pos == p.pos
      case Failure(e) => r == Failure(e)
    }

    constructor(tokens: seq<Token>)
      requires Grammar.WellFormed(tokens)
      ensures Valid() && this.tokens == tokens && pos == 0
    {
      this.tokens := tokens;
      pulled := 5;
      pos := 0;
      currentToken := Grammar.TokenAt(tokens, 0);
      secondToken := Grammar.TokenAt(tokens, 1);
      thirdToken := Grammar.TokenAt(tokens, 2);
      fourthToken := Grammar.TokenAt(tokens, 3);
      fifthToken := Grammar.TokenAt(tokens, 4);
    }

    /** Shifts the window when the current token is of the expected kind. */
    method Eat(kind: TokenKind) returns (r: Outcome<ParseError>)
      requires Valid()
      modifies this
      ensures Valid()
      ensures old(currentToken).kind == kind ==>
        r.Pass? && currentToken == old(secondToken) && secondToken == old(thirdToken) &&
        thirdToken == old(fourthToken) && fourthToken == old(fifthToken) &&
        fifthToken == Grammar.TokenAt(tokens, old(pulled))
      ensures old(currentToken).kind != kind ==>
        r == Fail(Grammar.ParseError(UnexpectedToken, old(currentToken), Some(kind))) && unchanged(this)
      ensures var spec := Grammar.Eat(tokens, old(pos), kind);
        (r.Pass? <==> spec.Success?) && (r.Pass? ==> pos == spec.value) &&
        (r.Fail? ==> r.error == spec.error)
    {
      if currentToken.kind == kind {
        currentToken := secondToken;
        secondToken := thirdToken;
        thirdToken := fourthToken;
        fourthToken := fifthToken;
        // the lexer hands out its next token
        fifthToken := Grammar.TokenAt(tokens, pulled);
        pulled := pulled + 1;
        pos := Grammar.Next(tokens, pos);
        r := Pass;
      } else {
        r := Fail(Grammar.ParseError(UnexpectedToken, currentToken, Some(kind)));
      }
    }

    method Parse() returns (r: Result<ProgramNode, ParseError>)
      requires Valid()
      modifies this
      ensures Valid()
      ensures r == Grammar.ParseFrom(tokens, old(pos))
    {
      var node :- Program();
      if currentToken.kind != EOF {
        return Failure(Grammar.ParseError(UnexpectedToken, currentToken, Some(EOF)));
      }
      return Success(node);
    }

    method Program() returns (r: Result<ProgramNode, ParseError>)
      requires Valid()
      modifies this
      ensures Valid()
      ensures Agrees(r, Grammar.Program(tokens, old(pos)))
    {
      var token := currentToken;
      var statement :- Statement();
      return Success(ProgramNode(token, statement, None));
    }

    method Block() returns (r: Result<Node, ParseError>)
      requires Valid()
      modifies this
      ensures Valid()
      ensures Agrees(r, Grammar.Block(tokens, old(pos)))
      decreases Remaining(), 29
    {
      var token := currentToken;
      :- Eat(ScopeBegin);
      var nodes :- StatementList();
      :- Eat(ScopeEnd);
      return Success(Compound(token, nodes));
    }

    method StatementList() returns (r: Result<seq<Node>, ParseError>)
      requires Valid()
      modifies this
      ensures Valid()
      ensures Agrees(r, Grammar.StatementList(tokens, old(pos)))
      decreases Remaining(), 34
    {
      var first :- Statement();
      var results := [first];
      while currentToken.kind != ScopeEnd
        invariant Valid() && old(pos) <= pos
        invariant Grammar.StatementsTail(tokens, results, pos) == Grammar.StatementList(tokens, old(pos))
        decreases Remaining()
      {
        var statement :- Statement();
        if statement.Empty? {
          // nothing was consumed: the same statement would be parsed forever
          return Failure(Grammar.ParseError(UnexpectedToken, currentToken, None));
        }
        results := results + [statement];
      }
      return Success(results);
    }

    method Statement() returns (r: Result<Node, ParseError>)
      requires Valid()
      modifies this
      ensures Valid()
      ensures Agrees(r, Grammar.Statement(tokens, old(pos)))
      decreases Remaining(), 32
    {
      var kind := currentToken.kind;
      if kind == ScopeBegin {
        r := Block();
      } else if kind == Identifier {
        r := IdentifierStatement();
      } else if Grammar.IsTypeKeyword(kind) {
        r := TypeLedStatement();
      } else if kind == TokenKind.Return {
        r := ReturnStatement();
      } else if kind == TokenKind.Break {
        r := BreakStatement();
      } else if kind == TokenKind.Continue {
        r := ContinueStatement();
      } else if kind == If {
        r := IfElseStatement();
      } else if kind == TokenKind.While {
        r := WhileStatement();
      } else if kind == TokenKind.For {
        r := ForStatement();
      } else {
        r := Success(Empty);
      }
    }

    /** The identifier-led branch of `Statement`, with its `;`. */
    method IdentifierStatement() returns (r: Result<Node, ParseError>)
      requires Valid()
      modifies this
      ensures Valid()
      ensures Agrees(r, Grammar.IdentifierStatement(tokens, old(pos)))
      decreases Remaining(), 31
    {
      var node :- CallOrAssignment();
      :- Eat(Semicolon);
      return Success(node);
    }

    /** A call or an assignment, before the `;`. */
    method CallOrAssignment() returns (r: Result<Node, ParseError>)
      requires Valid()
      modifies this
      ensures Valid()
      ensures Agrees(r, Grammar.CallOrAssignment(tokens, old(pos)))
      decreases Remaining(), 30
    {
      if secondToken.kind == LeftParen {
        r := FunctionCall();
      } else {
        var variable :- Variable();
        r := AssignmentStatement(Var(variable));
      }
    }

    /** The type-led branch of `Statement`. */
    method TypeLedStatement() returns (r: Result<Node, ParseError>)
      requires Valid()
      modifies this
      ensures Valid()
      ensures Agrees(r, Grammar.TypeLedStatement(tokens, old(pos)))
      decreases Remaining(), 31
    {
      if thirdToken.kind == LeftParen || (secondToken.kind == LeftBracket && fifthToken.kind == LeftParen) {
        r := FunctionDefinition();
      } else {
        r := DeclarationStatement();
      }
    }

    /** The declaration branch of `Statement`: declarations, an optional
        assignment to them, and the `;`. */
    method DeclarationStatement() returns (r: Result<Node, ParseError>)
      requires Valid()
      modifies this
      ensures Valid()
      ensures Agrees(r, Grammar.DeclarationStatement(tokens, old(pos)))
      decreases Remaining(), 30
    {
      var node :- VariablesDeclarations();
      if currentToken.kind == TokenKind.Assign {
        node :- AssignmentStatement(node);
      }
      :- Eat(Semicolon);
      return Success(node);
    }

    method AssignmentStatement(leftNode: Node) returns (r: Result<Node, ParseError>)
      requires Valid()
      modifies this
      ensures Valid()
      ensures Agrees(r, Grammar.AssignmentStatement(tokens, leftNode, old(pos)))
      decreases Remaining(), 15
    {
      var token := currentToken;
      :- Eat(TokenKind.Assign);
      var right;
      if currentToken.kind == LeftBracket {
        right :- ArrayInitialization();
      } else {
        right :- ArithmeticExpression();
      }
      return Success(Node.Assign(leftNode, token, right));
    }

    method ArrayInitialization() returns (r: Result<Node, ParseError>)
      requires Valid()
      modifies this
      ensures Valid()
      ensures Agrees(r, Grammar.ArrayInitialization(tokens, old(pos)))
      decreases Remaining(), 14
    {
      var token := currentToken;
      :- Eat(LeftBracket);
      ghost var start := pos;
      var items: seq<Node> := [];
      while currentToken.kind != RightBracket
        invariant Valid() && start <= pos
        invariant Grammar.ArrayItems(tokens, items, pos) == Grammar.ArrayItems(tokens, [], start)
        decreases Remaining()
      {
        var item :- ArithmeticExpression();
        items := items + [item];
        if currentToken.kind == Comma {
          var _ := Eat(Comma);
        }
      }
      var _ := Eat(RightBracket);
      return Success(ArrayInit(token, items));
    }

    method FunctionDefinition() returns (r: Result<Node, ParseError>)
      requires Valid()
      modifies this
      ensures Valid()
      ensures Agrees(r, Grammar.FunctionDefinition(tokens, old(pos)))
      decreases Remaining(), 29
    {
      var returnType :- Type();
      var name := currentToken;
      :- Eat(Identifier);
      :- Eat(LeftParen);
      var argumentList :- ParameterList();
      :- Eat(RightParen);
      var body :- Block();
      return Success(FunctionDef(name, returnType, argumentList, body));
    }

    method ParameterList() returns (r: Result<seq<Param>, ParseError>)
      requires Valid()
      modifies this
      ensures Valid()
      ensures Agrees(r, Grammar.ParameterList(tokens, old(pos)))
      decreases Remaining(), 21
    {
      var parameters: seq<Param> := [];
      if currentToken.kind == TypeNumber {
        var paramType :- Type();
        var variable :- Variable();
        parameters := [Param(paramType, variable)];
        while currentToken.kind == Comma
          invariant Valid() && old(pos) < pos
          invariant Grammar.ParametersTail(tokens, parameters, pos) == Grammar.ParameterList(tokens, old(pos))
          decreases Remaining()
        {
          var _ := Eat(Comma);
          var anotherType :- Type();
          var another :- Variable();
          parameters := parameters + [Param(anotherType, another)];
        }
      }
      return Success(parameters);
    }

    method FunctionCall() returns (r: Result<Node, ParseError>)
      requires Valid()
      modifies this
      ensures Valid()
      ensures Agrees(r, Grammar.FunctionCall(tokens, old(pos)))
      decreases Remaining(), 3
    {
      var idToken := currentToken;
      :- Eat(Identifier);
      var functionName := Name(idToken);
      :- Eat(LeftParen);
      var actualParameters :- CallArguments();
      :- Eat(RightParen);
      return Success(Call(idToken, functionName, actualParameters, None));
    }

    /** The argument loop of `FunctionCall`. */
    method CallArguments() returns (r: Result<seq<Node>, ParseError>)
      requires Valid()
      modifies this
      ensures Valid()
      ensures Agrees(r, Grammar.CallArguments(tokens, old(pos)))
      decreases Remaining(), 9
    {
      var actualParameters: seq<Node> := [];
      if currentToken.kind != RightParen {
        var node :- ArithmeticExpression();
        actualParameters := [node];
        while currentToken.kind == Comma
          invariant Valid() && old(pos) < pos
          invariant Grammar.ArgumentsTail(tokens, actualParameters, pos) == Grammar.CallArguments(tokens, old(pos))
          decreases Remaining()
        {
          var _ := Eat(Comma);
          var another :- ArithmeticExpression();
          actualParameters := actualParameters + [another];
        }
      }
      return Success(actualParameters);
    }

    method VariablesDeclarations() returns (r: Result<Node, ParseError>)
      requires Valid()
      modifies this
      ensures Valid()
      ensures Agrees(r, Grammar.VariablesDeclarations(tokens, old(pos)))
      decreases Remaining(), 20
    {
      var variableType :- Type();
      if variableType.token.kind == TypeVoid {
        return Failure(Grammar.ParseError(IncorrectType, variableType.token, None));
      }
      var first :- Variable();
      ghost var tailStart := pos;
      var variables := [first];
      while currentToken.kind == Comma
        invariant Valid() && tailStart <= pos
        invariant Grammar.VariablesTail(tokens, variables, pos) == Grammar.VariablesTail(tokens, [first], tailStart)
        decreases Remaining()
      {
        var _ := Eat(Comma);
        var another :- Variable();
        variables := variables + [another];
      }
      var result := DeclarationsOf(variableType, variables);
      return Success(Declarations(result));
    }

    /** The loop of `VariablesDeclarations` that pairs each variable with the
        shared type. */
    static method DeclarationsOf(variableType: TypeNode, variables: seq<VarRef>) returns (result: seq<Decl>)
      ensures result == Grammar.MakeDecls(variableType, variables)
    {
      result := [];
      for i := 0 to |variables|
        invariant |result| == i
        invariant forall j :: 0 <= j < i ==> result[j] == Decl(variableType, variables[j])
      {
        result := result + [Decl(variableType, variables[i])];
      }
    }

    method Variable() returns (r: Result<VarRef, ParseError>)
      requires Valid()
      modifies this
      ensures Valid()
      ensures Agrees(r, Grammar.Variable(tokens, old(pos)))
      decreases Remaining(), 2
    {
      var token := currentToken;
      :- Eat(Identifier);
      if currentToken.kind == LeftBracket {
        var _ := Eat(LeftBracket);
        r := Slice(token);
        return;
      }
      return Success(VarRef(token, None, None, None));
    }

    /** The bounds after `name[`, and the `]`. */
    method Slice(token: Token) returns (r: Result<VarRef, ParseError>)
      requires Valid()
      modifies this
      ensures Valid()
      ensures Agrees(r, Grammar.Slice(tokens, token, old(pos)))
      decreases Remaining(), 10
    {
      var indexFrom :- SliceFrom();
      var indexTo :- SliceTo();
      var indexStep :- SliceStep();
      :- Eat(RightBracket);
      return Success(VarRef(token, Some(indexFrom), indexTo, indexStep));
    }

    /** The start bound of `Variable`'s slice. */
    method SliceFrom() returns (r: Result<Node, ParseError>)
      requires Valid()
      modifies this
      ensures Valid()
      ensures Agrees(r, Grammar.SliceFrom(tokens, old(pos)))
      decreases Remaining(), 9
    {
      if currentToken.kind == Colon {
        return Success(Grammar.NumberAt(currentToken, Grammar.ZeroLexeme));
      }
      r := ArithmeticExpression();
    }

    /** The end bound of `Variable`'s slice. */
    method SliceTo() returns (r: Result<Option<Node>, ParseError>)
      requires Valid()
      modifies this
      ensures Valid()
      ensures Agrees(r, Grammar.SliceTo(tokens, old(pos)))
      decreases Remaining(), 9
    {
      if currentToken.kind == Colon {
        var _ := Eat(Colon);
        if currentToken.kind == Colon || currentToken.kind == RightBracket {
          return Success(Some(Grammar.NumberAt(currentToken, Grammar.IntMaxLexeme)));
        }
        var to :- ArithmeticExpression();
        return Success(Some(to));
      }
      return Success(None);
    }

    /** The step of `Variable`'s slice. */
    method SliceStep() returns (r: Result<Option<Node>, ParseError>)
      requires Valid()
      modifies this
      ensures Valid()
      ensures Agrees(r, Grammar.SliceStep(tokens, old(pos)))
      decreases Remaining(), 9
    {
      if currentToken.kind == Colon {
        var _ := Eat(Colon);
        var step :- ArithmeticExpression();
        return Success(Some(step));
      }
      return Success(None);
    }

    // -----------------------------------------------------------------------
    // Control statements

    method ReturnStatement() returns (r: Result<Node, ParseError>)
      requires Valid()
      modifies this
      ensures Valid()
      ensures Agrees(r, Grammar.ReturnStatement(tokens, old(pos)))
      decreases Remaining(), 29
    {
      var returnToken := currentToken;
      :- Eat(TokenKind.Return);
      var expr: Option<Node> := None;
      if currentToken.kind != Semicolon {
        var e :- Expression();
        expr := Some(e);
      }
      :- Eat(Semicolon);
      return Success(Node.Return(returnToken, expr));
    }

    method BreakStatement() returns (r: Result<Node, ParseError>)
      requires Valid()
      modifies this
      ensures Valid()
      ensures Agrees(r, Grammar.BreakStatement(tokens, old(pos)))
    {
      var token := currentToken;
      :- Eat(TokenKind.Break);
      :- Eat(Semicolon);
      return Success(Node.Break(token));
    }

    method ContinueStatement() returns (r: Result<Node, ParseError>)
      requires Valid()
      modifies this
      ensures Valid()
      ensures Agrees(r, Grammar.ContinueStatement(tokens, old(pos)))
    {
      var token := currentToken;
      :- Eat(TokenKind.Continue);
      :- Eat(Semicolon);
      return Success(Node.Continue(token));
    }

    method WhileStatement() returns (r: Result<Node, ParseError>)
      requires Valid()
      modifies this
      ensures Valid()
      ensures Agrees(r, Grammar.WhileStatement(tokens, old(pos)))
      decreases Remaining(), 29
    {
      var token := currentToken;
      :- Eat(TokenKind.While);
      :- Eat(LeftParen);
      var condition :- Expression();
      :- Eat(RightParen);
      var body :- Statement();
      return Success(Node.While(token, condition, body));
    }

    method IfElseStatement() returns (r: Result<Node, ParseError>)
      requires Valid()
      modifies this
      ensures Valid()
      ensures Agrees(r, Grammar.IfElseStatement(tokens, old(pos)))
      decreases Remaining(), 29
    {
      var token := currentToken;
      :- Eat(If);
      :- Eat(LeftParen);
      var condition :- Expression();
      :- Eat(RightParen);
      var ifTrue :- Statement();
      if currentToken.kind == Else {
        var _ := Eat(Else);
        var ifFalse :- Statement();
        return Success(IfElse(token, condition, ifTrue, [], Some(ifFalse)));
      }
      return Success(IfElse(token, condition, ifTrue, [], None));
    }

    method ForStatement() returns (r: Result<Node, ParseError>)
      requires Valid()
      modifies this
      ensures Valid()
      ensures Agrees(r, Grammar.ForStatement(tokens, old(pos)))
      decreases Remaining(), 29
    {
      var token := currentToken;
      :- Eat(TokenKind.For);
      :- Eat(LeftParen);
      var assignments :- ForInitSection();
      var condition :- ForConditionSection();
      var continueStatements :- ForStepSection();
      var statement :- Statement();
      return Success(Node.For(token, assignments, condition, continueStatements, statement));
    }

    /** The initialiser section of `ForStatement`, with its `;`. */
    method ForInitSection() returns (r: Result<seq<Node>, ParseError>)
      requires Valid()
      modifies this
      ensures Valid()
      ensures Agrees(r, Grammar.ForInitSection(tokens, old(pos)))
      decreases Remaining(), 29
    {
      var assignments: seq<Node> := [];
      if currentToken.kind != Semicolon {
        assignments :- ForInitializationAssignments();
      }
      :- Eat(Semicolon);
      return Success(assignments);
    }

    /** The condition section of `ForStatement`, with its `;`. */
    method ForConditionSection() returns (r: Result<Option<Node>, ParseError>)
      requires Valid()
      modifies this
      ensures Valid()
      ensures Agrees(r, Grammar.ForConditionSection(tokens, old(pos)))
      decreases Remaining(), 29
    {
      var condition: Option<Node> := None;
      if currentToken.kind != Semicolon {
        var c :- Expression();
        condition := Some(c);
      }
      :- Eat(Semicolon);
      return Success(condition);
    }

    /** The step section of `ForStatement`, with its `)`. */
    method ForStepSection() returns (r: Result<seq<Node>, ParseError>)
      requires Valid()
      modifies this
      ensures Valid()
      ensures Agrees(r, Grammar.ForStepSection(tokens, old(pos)))
      decreases Remaining(), 29
    {
      var continueStatements: seq<Node> := [];
      if currentToken.kind != RightParen {
        continueStatements :- ForContinueStatement();
      }
      :- Eat(RightParen);
      return Success(continueStatements);
    }

    method ForInitializationAssignments() returns (r: Result<seq<Node>, ParseError>)
      requires Valid()
      modifies this
      ensures Valid()
      ensures Agrees(r, Grammar.ForInitializationAssignments(tokens, [], old(pos)))
      decreases Remaining(), 28
    {
      var assignments: seq<Node> := [];
      while currentToken.kind != Semicolon
        invariant Valid() && old(pos) <= pos
        invariant Grammar.ForInitializationAssignments(tokens, assignments, pos) ==
          Grammar.ForInitializationAssignments(tokens, [], old(pos))
        decreases Remaining()
      {
        var assignment;
        if Grammar.IsBuiltinVarType(currentToken.kind) {
          var variablesDeclarations :- VariablesDeclarations();
          assignment :- AssignmentStatement(variablesDeclarations);
        } else {
          var firstVariable :- Variable();
          assignment :- AssignmentStatement(Var(firstVariable));
        }
        assignments := assignments + [assignment];
        if currentToken.kind == Comma {
          var _ := Eat(Comma);
        }
      }
      return Success(assignments);
    }

    method ForContinueStatement() returns (r: Result<seq<Node>, ParseError>)
      requires Valid()
      modifies this
      ensures Valid()
      ensures Agrees(r, Grammar.ForContinueStatement(tokens, [], old(pos)))
      decreases Remaining(), 28
    {
      var continueStatements: seq<Node> := [];
      while currentToken.kind != RightParen
        invariant Valid() && old(pos) <= pos
        invariant Grammar.ForContinueStatement(tokens, continueStatements, pos) ==
          Grammar.ForContinueStatement(tokens, [], old(pos))
        decreases Remaining()
      {
        var firstVariable :- Variable();
        var assignment :- AssignmentStatement(Var(firstVariable));
        continueStatements := continueStatements + [assignment];
        if currentToken.kind == Comma {
          var _ := Eat(Comma);
        }
      }
      return Success(continueStatements);
    }

    // -----------------------------------------------------------------------
    // Expressions

    method Expression() returns (r: Result<Node, ParseError>)
      requires Valid()
      modifies this
      ensures Valid()
      ensures Agrees(r, Grammar.Expression(tokens, old(pos)))
      decreases Remaining(), 13
    {
      r := OrCondition();
    }

    method OrCondition() returns (r: Result<Node, ParseError>)
      requires Valid()
      modifies this
      ensures Valid()
      ensures Agrees(r, Grammar.OrCondition(tokens, old(pos)))
      decreases Remaining(), 12
    {
      var node :- AndCondition();
      while currentToken.kind == Or
        invariant Valid() && old(pos) < pos
        invariant Grammar.OrTail(tokens, node, pos) == Grammar.OrCondition(tokens, old(pos))
        decreases Remaining()
      {
        var token := currentToken;
        var _ := Eat(Or);
        var right :- AndCondition();
        node := BinOp(node, token, right);
      }
      return Success(node);
    }

    method AndCondition() returns (r: Result<Node, ParseError>)
      requires Valid()
      modifies this
      ensures Valid()
      ensures Agrees(r, Grammar.AndCondition(tokens, old(pos)))
      decreases Remaining(), 11
    {
      var node :- NotCondition();
      while currentToken.kind == And
        invariant Valid() && old(pos) < pos
        invariant Grammar.AndTail(tokens, node, pos) == Grammar.AndCondition(tokens, old(pos))
        decreases Remaining()
      {
        var token := currentToken;
        var _ := Eat(And);
        var right :- NotCondition();
        node := BinOp(node, token, right);
      }
      return Success(node);
    }

    method NotCondition() returns (r: Result<Node, ParseError>)
      requires Valid()
      modifies this
      ensures Valid()
      ensures Agrees(r, Grammar.NotCondition(tokens, old(pos)))
      decreases Remaining(), 10
    {
      if currentToken.kind == Not {
        var token := currentToken;
        var _ := Eat(Not);
        var operand :- NotCondition();
        return Success(UnOp(token, operand));
      } else if currentToken.kind == LeftParen {
        var _ := Eat(LeftParen);
        var condition :- Expression();
        :- Eat(RightParen);
        return Success(condition);
      }
      r := Comparision();
    }

    method Comparision() returns (r: Result<Node, ParseError>)
      requires Valid()
      modifies this
      ensures Valid()
      ensures Agrees(r, Grammar.Comparision(tokens, old(pos)))
      decreases Remaining(), 9
    {
      if currentToken.kind == ConstBool {
        var token := currentToken;
        var _ := Eat(ConstBool);
        return Success(BoolLit(token));
      }
      var node :- ArithmeticExpression();
      while Grammar.IsCompareOperator(currentToken.kind)
        invariant Valid() && old(pos) < pos
        invariant Grammar.CompareTail(tokens, node, pos) == Grammar.Comparision(tokens, old(pos))
        decreases Remaining()
      {
        var token := currentToken;
        var _ := Eat(token.kind);
        var right :- ArithmeticExpression();
        node := BinOp(node, token, right);
      }
      return Success(node);
    }

    method ArithmeticExpression() returns (r: Result<Node, ParseError>)
      requires Valid()
      modifies this
      ensures Valid()
      ensures Agrees(r, Grammar.ArithmeticExpression(tokens, old(pos)))
      decreases Remaining(), 8
    {
      var node :- Term();
      while currentToken.kind == Plus || currentToken.kind == Minus
        invariant Valid() && old(pos) < pos
        invariant Grammar.ArithmeticTail(tokens, node, pos) == Grammar.ArithmeticExpression(tokens, old(pos))
        decreases Remaining()
      {
        var token := currentToken;
        var _ := Eat(token.kind);
        var right :- Term();
        node := BinOp(node, token, right);
      }
      return Success(node);
    }

    method Term() returns (r: Result<Node, ParseError>)
      requires Valid()
      modifies this
      ensures Valid()
      ensures Agrees(r, Grammar.Term(tokens, old(pos)))
      decreases Remaining(), 7
    {
      var node :- Factor();
      while Grammar.IsFactorOperator(currentToken.kind)
        invariant Valid() && old(pos) < pos
        invariant Grammar.TermTail(tokens, node, pos) == Grammar.Term(tokens, old(pos))
        decreases Remaining()
      {
        var token := currentToken;
        var _ := Eat(token.kind);
        var right :- Factor();
        node := BinOp(node, token, right);
      }
      return Success(node);
    }

    method Factor() returns (r: Result<Node, ParseError>)
      requires Valid()
      modifies this
      ensures Valid()
      ensures Agrees(r, Grammar.Factor(tokens, old(pos)))
      decreases Remaining(), 6
    {
      var token := currentToken;
      var kind := token.kind;
      if kind == Plus || kind == Minus {
        var _ := Eat(kind);
        var operand :- Factor();
        return Success(UnOp(token, operand));
      } else if kind == ConstNumber {
        var _ := Eat(ConstNumber);
        return Success(Number(token));
      } else if kind == ConstBool {
        var _ := Eat(ConstBool);
        return Success(BoolLit(token));
      } else if kind == ConstString {
        var _ := Eat(ConstString);
        return Success(StringLit(token));
      } else if kind == LeftParen {
        var _ := Eat(LeftParen);
        var node :- ArithmeticExpression();
        :- Eat(RightParen);
        return Success(node);
      } else if kind == Identifier {
        if secondToken.kind == LeftParen {
          r := FunctionCall();
        } else {
          var variable :- Variable();
          return Success(Var(variable));
        }
      } else {
        return Failure(Grammar.ParseError(UnexpectedToken, currentToken, None));
      }
    }

    // -----------------------------------------------------------------------
    // Types

    method Type() returns (r: Result<TypeNode, ParseError>)
      requires Valid()
      modifies this
      ensures Valid()
      ensures Agrees(r, Grammar.Type(tokens, old(pos)))
    {
      var element := NonArrayType();
      if currentToken.kind == LeftBracket {
        var spec :- ArrayType(element);
        return Success(TypeNode(element, spec));
      }
      return Success(TypeNode(element, NonArrayTypeSpec(element)));
    }

    method NonArrayType() returns (t: Token)
      requires Valid()
      modifies this
      ensures Valid()
      ensures var spec := Grammar.NonArrayType(tokens, old(pos));
        t == spec.value && pos == spec.pos
    {
      t := currentToken;
      var _ := Eat(t.kind);
    }

    method ArrayType(element: Token) returns (r: Result<TypeSpec, ParseError>)
      requires Valid()
      modifies this
      ensures Valid()
      ensures Agrees(r, Grammar.ArrayType(tokens, element, old(pos)))
    {
      var rank := currentToken;
      :- Eat(LeftBracket);
      :- Eat(RightBracket);
      return Success(ArrayTypeSpec(element, rank));
    }
  }
}
