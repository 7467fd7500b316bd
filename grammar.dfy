// The grammar the recursive-descent parser recognises, as pure functions over
// the lexer's token stream.
//
// Every rule takes the stream and the position of the current token and
// yields the node it built with the position after it, or the parse error the
// parser raises. Eating a token moves one position on; past the final EOF the
// lexer keeps handing out that EOF, so the position stays on it. The class in
// parser.dfy holds the five-token window and is proved to follow these rules.
module Grammar {
  import opened Wrappers
  import opened Tokens
  import opened Ast

  /** What the lexer produces: tokens ending in the one EOF. */
  predicate WellFormed(ts: seq<Token>) {
    |ts| > 0 && ts[|ts| - 1].kind == EOF &&
    forall i :: 0 <= i < |ts| - 1 ==> ts[i].kind != EOF
  }

  /** The i-th token the lexer hands out; past the end, the final EOF again. */
  function TokenAt(ts: seq<Token>, i: nat): Token
    requires |ts| > 0
  {
    if i < |ts| then ts[i] else ts[|ts| - 1]
  }

  /** A parse error: the code, the offending token and, for a failed `Eat`,
      the kind that was expected. */
  datatype ParseError = ParseError(code: ErrorCode, token: Token, expected: Option<TokenKind>)

  /** A rule's result: what it built and the position after it. */
  datatype Parsed<T> = Parsed(value: T, pos: nat)

  type PResult<T> = Result<Parsed<T>, ParseError>

  /** The position after eating the current token. */
  function Next(ts: seq<Token>, pos: nat): (p: nat)
    requires WellFormed(ts) && pos < |ts|
    ensures p < |ts|
    ensures ts[pos].kind != EOF ==> p == pos + 1
    ensures ts[pos].kind == EOF ==> p == pos
  {
    if pos + 1 < |ts| then pos + 1 else pos
  }

  /** `Eat`: the current token must be of the expected kind. */
  function Eat(ts: seq<Token>, pos: nat, kind: TokenKind): (r: Result<nat, ParseError>)
    requires WellFormed(ts) && pos < |ts|
    ensures r.Success? <==> ts[pos].kind == kind
    ensures r.Success? ==> r.value == Next(ts, pos)
    ensures r.Failure? ==> r.error == ParseError(UnexpectedToken, ts[pos], Some(kind))
  {
    if ts[pos].kind == kind then Success(Next(ts, pos))
    else Failure(ParseError(UnexpectedToken, ts[pos], Some(kind)))
  }

  /** Eats a `,` when one is current, as the list loops do. */
  function SkipComma(ts: seq<Token>, pos: nat): (p: nat)
    requires WellFormed(ts) && pos < |ts|
    ensures p < |ts| && pos <= p
  {
    if ts[pos].kind == Comma then Next(ts, pos) else pos
  }

  predicate IsBuiltinVarType(k: TokenKind) {
    k == TypeNumber || k == TypeBool || k == TypeString
  }

  predicate IsTypeKeyword(k: TokenKind) {
    k == TypeVoid || IsBuiltinVarType(k)
  }

  predicate IsCompareOperator(k: TokenKind) {
    k == Equal || k == NotEqual || k == Greater || k == GreaterEqual || k == Less || k == LessEqual
  }

  predicate IsFactorOperator(k: TokenKind) {
    k == Multiplication || k == Divide || k == Modulo
  }

  /** The lexemes the parser puts in the slice bounds it makes up. */
  const ZeroLexeme: string := "0"
  const IntMaxLexeme: string := "2147483647"

  function NumberAt(t: Token, lexeme: string): Node {
    Number(Token(ConstNumber, Some(lexeme), t.line, t.column))
  }

  /** Builds the declarations of `T a, b, c`: one per variable, all of type T. */
  function MakeDecls(t: TypeNode, vs: seq<VarRef>): (ds: seq<Decl>)
    ensures |ds| == |vs|
    ensures forall i :: 0 <= i < |ds| ==> ds[i] == Decl(t, vs[i])
  {
    if vs == [] then [] else [Decl(t, vs[0])] + MakeDecls(t, vs[1..])
  }

  // -------------------------------------------------------------------------
  // Types (no recursion)

  /** Takes whatever token is current, of any kind. */
  function NonArrayType(ts: seq<Token>, pos: nat): (r: Parsed<Token>)
    requires WellFormed(ts) && pos < |ts|
    ensures r.value == ts[pos] && r.pos < |ts|
    ensures ts[pos].kind != EOF ==> r.pos == pos + 1
  {
    Parsed(ts[pos], Next(ts, pos))
  }

  function ArrayType(ts: seq<Token>, element: Token, pos: nat): (r: PResult<TypeSpec>)
    requires WellFormed(ts) && pos < |ts|
    ensures r.Success? ==> r.value.pos == pos + 2 && r.value.pos < |ts|
  {
    var rank := ts[pos];
    var p1 :- Eat(ts, pos, LeftBracket);
    var p2 :- Eat(ts, p1, RightBracket);
    Success(Parsed(ArrayTypeSpec(element, rank), p2))
  }

  function Type(ts: seq<Token>, pos: nat): (r: PResult<TypeNode>)
    requires WellFormed(ts) && pos < |ts|
    ensures r.Success? ==> pos <= r.value.pos < |ts|
    ensures r.Success? && ts[pos].kind != EOF ==> pos < r.value.pos
  {
    var t := NonArrayType(ts, pos);
    if ts[t.pos].kind == LeftBracket then
      var a :- ArrayType(ts, t.value, t.pos);
      Success(Parsed(TypeNode(t.value, a.value), a.pos))
    else
      Success(Parsed(TypeNode(t.value, NonArrayTypeSpec(t.value)), t.pos))
  }

  // -------------------------------------------------------------------------
  // Statements. Each rule decreases the number of tokens left and, at the
  // same position, a rank that orders the rules that call each other there.

  function Program(ts: seq<Token>, pos: nat): (r: PResult<ProgramNode>)
    requires WellFormed(ts) && pos < |ts|
    ensures r.Success? ==> pos <= r.value.pos < |ts|
  {
    var s :- Statement(ts, pos);
    Success(Parsed(ProgramNode(ts[pos], s.value, None), s.pos))
  }

  /** `Parse`: one program, then the EOF. */
  function ParseFrom(ts: seq<Token>, pos: nat): (r: Result<ProgramNode, ParseError>)
    requires WellFormed(ts) && pos < |ts|
  {
    var p :- Program(ts, pos);
    if ts[p.pos].kind != EOF then Failure(ParseError(UnexpectedToken, ts[p.pos], Some(EOF)))
    else Success(p.value)
  }

  /** Parsing a whole token stream. */
  function Parse(ts: seq<Token>): (r: Result<ProgramNode, ParseError>)
    requires WellFormed(ts)
  {
    ParseFrom(ts, 0)
  }

  function Statement(ts: seq<Token>, pos: nat): (r: PResult<Node>)
    requires WellFormed(ts) && pos < |ts|
    ensures r.Success? ==> pos <= r.value.pos < |ts|
    ensures r.Success? && r.value.pos == pos ==> r.value.value.Empty?
    decreases |ts| - pos, 32
  {
    var k := ts[pos].kind;
    if k == ScopeBegin then Block(ts, pos)
    else if k == Identifier then IdentifierStatement(ts, pos)
    else if IsTypeKeyword(k) then TypeLedStatement(ts, pos)
    else if k == TokenKind.Return then ReturnStatement(ts, pos)
    else if k == TokenKind.Break then BreakStatement(ts, pos)
    else if k == TokenKind.Continue then ContinueStatement(ts, pos)
    else if k == If then IfElseStatement(ts, pos)
    else if k == TokenKind.While then WhileStatement(ts, pos)
    else if k == TokenKind.For then ForStatement(ts, pos)
    else Success(Parsed(Empty, pos))
  }

  /** A statement led by a type keyword: a function definition when `(`
      follows `T name` or `T[] name`, otherwise declarations with an optional
      assignment, then `;`. */
  function TypeLedStatement(ts: seq<Token>, pos: nat): (r: PResult<Node>)
    requires WellFormed(ts) && pos < |ts|
    ensures r.Success? ==> pos < r.value.pos < |ts|
    decreases |ts| - pos, 31
  {
    if TokenAt(ts, pos + 2).kind == LeftParen ||
       (TokenAt(ts, pos + 1).kind == LeftBracket && TokenAt(ts, pos + 4).kind == LeftParen)
    then FunctionDefinition(ts, pos)
    else DeclarationStatement(ts, pos)
  }

  /** Declarations, an optional assignment to them, and the `;`. */
  function DeclarationStatement(ts: seq<Token>, pos: nat): (r: PResult<Node>)
    requires WellFormed(ts) && pos < |ts|
    ensures r.Success? ==> pos < r.value.pos < |ts|
    decreases |ts| - pos, 30
  {
    var d :- VariablesDeclarations(ts, pos);
    var s :- if ts[d.pos].kind == TokenKind.Assign then AssignmentStatement(ts, d.value, d.pos) else Success(d);
    var p :- Eat(ts, s.pos, Semicolon);
    Success(Parsed(s.value, p))
  }

  /** An identifier-led statement and its `;`. */
  function IdentifierStatement(ts: seq<Token>, pos: nat): (r: PResult<Node>)
    requires WellFormed(ts) && pos < |ts|
    ensures r.Success? ==> pos < r.value.pos < |ts|
    decreases |ts| - pos, 31
  {
    var s :- CallOrAssignment(ts, pos);
    var p :- Eat(ts, s.pos, Semicolon);
    Success(Parsed(s.value, p))
  }

  /** An identifier-led statement before its `;`: a call when `(` follows the
      name, otherwise an assignment to a variable. */
  function CallOrAssignment(ts: seq<Token>, pos: nat): (r: PResult<Node>)
    requires WellFormed(ts) && pos < |ts|
    ensures r.Success? ==> pos < r.value.pos < |ts|
    decreases |ts| - pos, 30
  {
    if TokenAt(ts, pos + 1).kind == LeftParen then FunctionCall(ts, pos)
    else
      var v :- Variable(ts, pos);
      AssignmentStatement(ts, Var(v.value), v.pos)
  }

  function Block(ts: seq<Token>, pos: nat): (r: PResult<Node>)
    requires WellFormed(ts) && pos < |ts|
    ensures r.Success? ==> pos < r.value.pos < |ts|
    decreases |ts| - pos, 29
  {
    var token := ts[pos];
    var p1 :- Eat(ts, pos, ScopeBegin);
    var l :- StatementList(ts, p1);
    var p2 :- Eat(ts, l.pos, ScopeEnd);
    Success(Parsed(Compound(token, l.value), p2))
  }

  /** At least one statement, then more until `}`. An empty statement (one
      that consumes nothing) where `}` is not current would be parsed again
      forever; the model reports the token instead. */
  function StatementList(ts: seq<Token>, pos: nat): (r: PResult<seq<Node>>)
    requires WellFormed(ts) && pos < |ts|
    ensures r.Success? ==> pos <= r.value.pos < |ts| && |r.value.value| > 0
    decreases |ts| - pos, 34
  {
    var s :- Statement(ts, pos);
    StatementsTail(ts, [s.value], s.pos)
  }

  function StatementsTail(ts: seq<Token>, acc: seq<Node>, pos: nat): (r: PResult<seq<Node>>)
    requires WellFormed(ts) && pos < |ts|
    ensures r.Success? ==> pos <= r.value.pos < |ts| && |r.value.value| >= |acc|
    ensures r.Success? ==> ts[r.value.pos].kind == ScopeEnd
    decreases |ts| - pos, 33
  {
    if ts[pos].kind == ScopeEnd then Success(Parsed(acc, pos))
    else
      var s :- Statement(ts, pos);
      if s.value.Empty? then Failure(ParseError(UnexpectedToken, ts[s.pos], None))
      else StatementsTail(ts, acc + [s.value], s.pos)
  }

  function AssignmentStatement(ts: seq<Token>, left: Node, pos: nat): (r: PResult<Node>)
    requires WellFormed(ts) && pos < |ts|
    ensures r.Success? ==> pos < r.value.pos < |ts|
    decreases |ts| - pos, 15
  {
    var token := ts[pos];
    var p1 :- Eat(ts, pos, TokenKind.Assign);
    var right :- if ts[p1].kind == LeftBracket then ArrayInitialization(ts, p1) else ArithmeticExpression(ts, p1);
    Success(Parsed(Node.Assign(left, token, right.value), right.pos))
  }

  function ArrayInitialization(ts: seq<Token>, pos: nat): (r: PResult<Node>)
    requires WellFormed(ts) && pos < |ts|
    ensures r.Success? ==> pos < r.value.pos < |ts|
    decreases |ts| - pos, 14
  {
    var token := ts[pos];
    var p1 :- Eat(ts, pos, LeftBracket);
    var items :- ArrayItems(ts, [], p1);
    var p2 :- Eat(ts, items.pos, RightBracket);
    Success(Parsed(ArrayInit(token, items.value), p2))
  }

  /** Items up to `]`, each optionally followed by `,`. */
  function ArrayItems(ts: seq<Token>, acc: seq<Node>, pos: nat): (r: PResult<seq<Node>>)
    requires WellFormed(ts) && pos < |ts|
    ensures r.Success? ==> pos <= r.value.pos < |ts|
    decreases |ts| - pos, 14
  {
    if ts[pos].kind == RightBracket then Success(Parsed(acc, pos))
    else
      var e :- ArithmeticExpression(ts, pos);
      ArrayItems(ts, acc + [e.value], SkipComma(ts, e.pos))
  }

  function FunctionDefinition(ts: seq<Token>, pos: nat): (r: PResult<Node>)
    requires WellFormed(ts) && pos < |ts|
    ensures r.Success? ==> pos < r.value.pos < |ts|
    decreases |ts| - pos, 29
  {
    var returnType :- Type(ts, pos);
    var name := ts[returnType.pos];
    var p1 :- Eat(ts, returnType.pos, Identifier);
    var p2 :- Eat(ts, p1, LeftParen);
    var params :- ParameterList(ts, p2);
    var p3 :- Eat(ts, params.pos, RightParen);
    var body :- Block(ts, p3);
    Success(Parsed(FunctionDef(name, returnType.value, params.value, body.value), body.pos))
  }

  /** Parameters, only when the first is of type `number`. */
  function ParameterList(ts: seq<Token>, pos: nat): (r: PResult<seq<Param>>)
    requires WellFormed(ts) && pos < |ts|
    ensures r.Success? ==> pos <= r.value.pos < |ts|
    decreases |ts| - pos, 21
  {
    if ts[pos].kind == TypeNumber then
      var t :- Type(ts, pos);
      var v :- Variable(ts, t.pos);
      ParametersTail(ts, [Param(t.value, v.value)], v.pos)
    else Success(Parsed([], pos))
  }

  function ParametersTail(ts: seq<Token>, acc: seq<Param>, pos: nat): (r: PResult<seq<Param>>)
    requires WellFormed(ts) && pos < |ts|
    ensures r.Success? ==> pos <= r.value.pos < |ts| && |r.value.value| >= |acc|
    decreases |ts| - pos, 21
  {
    if ts[pos].kind == Comma then
      var p1 := Next(ts, pos);
      var t :- Type(ts, p1);
      var v :- Variable(ts, t.pos);
      ParametersTail(ts, acc + [Param(t.value, v.value)], v.pos)
    else Success(Parsed(acc, pos))
  }

  function FunctionCall(ts: seq<Token>, pos: nat): (r: PResult<Node>)
    requires WellFormed(ts) && pos < |ts|
    ensures r.Success? ==> pos < r.value.pos < |ts|
    decreases |ts| - pos, 3
  {
    var idToken := ts[pos];
    var p1 :- Eat(ts, pos, Identifier);
    var p2 :- Eat(ts, p1, LeftParen);
    var args :- CallArguments(ts, p2);
    var p3 :- Eat(ts, args.pos, RightParen);
    Success(Parsed(Call(idToken, Name(idToken), args.value, None), p3))
  }

  /** The arguments after `(`: none when `)` is current. */
  function CallArguments(ts: seq<Token>, pos: nat): (r: PResult<seq<Node>>)
    requires WellFormed(ts) && pos < |ts|
    ensures r.Success? ==> pos <= r.value.pos < |ts|
    decreases |ts| - pos, 9
  {
    if ts[pos].kind != RightParen then
      var e :- ArithmeticExpression(ts, pos);
      ArgumentsTail(ts, [e.value], e.pos)
    else Success(Parsed([], pos))
  }

  function ArgumentsTail(ts: seq<Token>, acc: seq<Node>, pos: nat): (r: PResult<seq<Node>>)
    requires WellFormed(ts) && pos < |ts|
    ensures r.Success? ==> pos <= r.value.pos < |ts|
    decreases |ts| - pos, 9
  {
    if ts[pos].kind == Comma then
      var p1 := Next(ts, pos);
      var e :- ArithmeticExpression(ts, p1);
      ArgumentsTail(ts, acc + [e.value], e.pos)
    else Success(Parsed(acc, pos))
  }

  function VariablesDeclarations(ts: seq<Token>, pos: nat): (r: PResult<Node>)
    requires WellFormed(ts) && pos < |ts|
    ensures r.Success? ==> pos < r.value.pos < |ts| && r.value.value.Declarations?
    decreases |ts| - pos, 20
  {
    var t :- Type(ts, pos);
    if t.value.token.kind == TypeVoid then Failure(ParseError(IncorrectType, t.value.token, None))
    else
      var v :- Variable(ts, t.pos);
      var vs :- VariablesTail(ts, [v.value], v.pos);
      Success(Parsed(Declarations(MakeDecls(t.value, vs.value)), vs.pos))
  }

  function VariablesTail(ts: seq<Token>, acc: seq<VarRef>, pos: nat): (r: PResult<seq<VarRef>>)
    requires WellFormed(ts) && pos < |ts|
    ensures r.Success? ==> pos <= r.value.pos < |ts|
    decreases |ts| - pos, 20
  {
    if ts[pos].kind == Comma then
      var p1 := Next(ts, pos);
      var v :- Variable(ts, p1);
      VariablesTail(ts, acc + [v.value], v.pos)
    else Success(Parsed(acc, pos))
  }

  /** A name, optionally followed by `[from:to:step]`. */
  function Variable(ts: seq<Token>, pos: nat): (r: PResult<VarRef>)
    requires WellFormed(ts) && pos < |ts|
    ensures r.Success? ==> pos < r.value.pos < |ts|
    decreases |ts| - pos, 2
  {
    var token := ts[pos];
    var p1 :- Eat(ts, pos, Identifier);
    if ts[p1].kind == LeftBracket then Slice(ts, token, Next(ts, p1))
    else Success(Parsed(VarRef(token, None, None, None), p1))
  }

  /** The bounds after `name[`, and the `]`. */
  function Slice(ts: seq<Token>, token: Token, pos: nat): (r: PResult<VarRef>)
    requires WellFormed(ts) && pos < |ts|
    ensures r.Success? ==> pos < r.value.pos < |ts|
    decreases |ts| - pos, 10
  {
    var from :- SliceFrom(ts, pos);
    var to :- SliceTo(ts, from.pos);
    var step :- SliceStep(ts, to.pos);
    var p :- Eat(ts, step.pos, RightBracket);
    Success(Parsed(VarRef(token, Some(from.value), to.value, step.value), p))
  }

  /** The start bound: `0` when `:` comes first. */
  function SliceFrom(ts: seq<Token>, pos: nat): (r: PResult<Node>)
    requires WellFormed(ts) && pos < |ts|
    ensures r.Success? ==> pos <= r.value.pos < |ts|
    decreases |ts| - pos, 9
  {
    if ts[pos].kind == Colon then Success(Parsed(NumberAt(ts[pos], ZeroLexeme), pos))
    else ArithmeticExpression(ts, pos)
  }

  /** After `:`, the end bound: the largest 32-bit integer when omitted. */
  function SliceTo(ts: seq<Token>, pos: nat): (r: PResult<Option<Node>>)
    requires WellFormed(ts) && pos < |ts|
    ensures r.Success? ==> pos <= r.value.pos < |ts|
    decreases |ts| - pos, 9
  {
    if ts[pos].kind == Colon then
      var p1 := Next(ts, pos);
      if ts[p1].kind == Colon || ts[p1].kind == RightBracket then
        Success(Parsed(Some(NumberAt(ts[p1], IntMaxLexeme)), p1))
      else
        var e :- ArithmeticExpression(ts, p1);
        Success(Parsed(Some(e.value), e.pos))
    else Success(Parsed(None, pos))
  }

  /** After a second `:`, the step. */
  function SliceStep(ts: seq<Token>, pos: nat): (r: PResult<Option<Node>>)
    requires WellFormed(ts) && pos < |ts|
    ensures r.Success? ==> pos <= r.value.pos < |ts|
    decreases |ts| - pos, 9
  {
    if ts[pos].kind == Colon then
      var p1 := Next(ts, pos);
      var e :- ArithmeticExpression(ts, p1);
      Success(Parsed(Some(e.value), e.pos))
    else Success(Parsed(None, pos))
  }

  // -------------------------------------------------------------------------
  // Control statements

  function ReturnStatement(ts: seq<Token>, pos: nat): (r: PResult<Node>)
    requires WellFormed(ts) && pos < |ts|
    ensures r.Success? ==> pos < r.value.pos < |ts|
    decreases |ts| - pos, 29
  {
    var token := ts[pos];
    var p1 :- Eat(ts, pos, TokenKind.Return);
    var e :- if ts[p1].kind == Semicolon then Success(Parsed(None, p1)) else SomeExpression(ts, p1);
    var p2 :- Eat(ts, e.pos, Semicolon);
    Success(Parsed(Node.Return(token, e.value), p2))
  }

  function SomeExpression(ts: seq<Token>, pos: nat): (r: PResult<Option<Node>>)
    requires WellFormed(ts) && pos < |ts|
    ensures r.Success? ==> pos < r.value.pos < |ts|
    decreases |ts| - pos, 28
  {
    var e :- Expression(ts, pos);
    Success(Parsed(Some(e.value), e.pos))
  }

  function BreakStatement(ts: seq<Token>, pos: nat): (r: PResult<Node>)
    requires WellFormed(ts) && pos < |ts|
    ensures r.Success? ==> r.value.pos == pos + 2 && r.value.pos < |ts|
  {
    var token := ts[pos];
    var p1 :- Eat(ts, pos, TokenKind.Break);
    var p2 :- Eat(ts, p1, Semicolon);
    Success(Parsed(Node.Break(token), p2))
  }

  function ContinueStatement(ts: seq<Token>, pos: nat): (r: PResult<Node>)
    requires WellFormed(ts) && pos < |ts|
    ensures r.Success? ==> r.value.pos == pos + 2 && r.value.pos < |ts|
  {
    var token := ts[pos];
    var p1 :- Eat(ts, pos, TokenKind.Continue);
    var p2 :- Eat(ts, p1, Semicolon);
    Success(Parsed(Node.Continue(token), p2))
  }

  function WhileStatement(ts: seq<Token>, pos: nat): (r: PResult<Node>)
    requires WellFormed(ts) && pos < |ts|
    ensures r.Success? ==> pos < r.value.pos < |ts|
    decreases |ts| - pos, 29
  {
    var token := ts[pos];
    var p1 :- Eat(ts, pos, TokenKind.While);
    var p2 :- Eat(ts, p1, LeftParen);
    var cond :- Expression(ts, p2);
    var p3 :- Eat(ts, cond.pos, RightParen);
    var body :- Statement(ts, p3);
    Success(Parsed(Node.While(token, cond.value, body.value), body.pos))
  }

  function IfElseStatement(ts: seq<Token>, pos: nat): (r: PResult<Node>)
    requires WellFormed(ts) && pos < |ts|
    ensures r.Success? ==> pos < r.value.pos < |ts|
    decreases |ts| - pos, 29
  {
    var token := ts[pos];
    var p1 :- Eat(ts, pos, If);
    var p2 :- Eat(ts, p1, LeftParen);
    var cond :- Expression(ts, p2);
    var p3 :- Eat(ts, cond.pos, RightParen);
    var ifTrue :- Statement(ts, p3);
    if ts[ifTrue.pos].kind == Else then
      var p4 :- Eat(ts, ifTrue.pos, Else);
      var ifFalse :- Statement(ts, p4);
      Success(Parsed(IfElse(token, cond.value, ifTrue.value, [], Some(ifFalse.value)), ifFalse.pos))
    else
      Success(Parsed(IfElse(token, cond.value, ifTrue.value, [], None), ifTrue.pos))
  }

  function ForStatement(ts: seq<Token>, pos: nat): (r: PResult<Node>)
    requires WellFormed(ts) && pos < |ts|
    ensures r.Success? ==> pos < r.value.pos < |ts|
    decreases |ts| - pos, 29
  {
    var token := ts[pos];
    var p1 :- Eat(ts, pos, TokenKind.For);
    var p2 :- Eat(ts, p1, LeftParen);
    var inits :- ForInitSection(ts, p2);
    var cond :- ForConditionSection(ts, inits.pos);
    var steps :- ForStepSection(ts, cond.pos);
    var body :- Statement(ts, steps.pos);
    Success(Parsed(Node.For(token, inits.value, cond.value, steps.value, body.value), body.pos))
  }

  /** The initialisers, none when `;` comes at once, and the `;`. */
  function ForInitSection(ts: seq<Token>, pos: nat): (r: PResult<seq<Node>>)
    requires WellFormed(ts) && pos < |ts|
    ensures r.Success? ==> pos < r.value.pos < |ts|
    decreases |ts| - pos, 29
  {
    var inits :- if ts[pos].kind != Semicolon then ForInitializationAssignments(ts, [], pos) else Success(Parsed([], pos));
    var p :- Eat(ts, inits.pos, Semicolon);
    Success(Parsed(inits.value, p))
  }

  /** The condition, absent when `;` comes at once, and the `;`. */
  function ForConditionSection(ts: seq<Token>, pos: nat): (r: PResult<Option<Node>>)
    requires WellFormed(ts) && pos < |ts|
    ensures r.Success? ==> pos < r.value.pos < |ts|
    decreases |ts| - pos, 29
  {
    var cond :- if ts[pos].kind != Semicolon then SomeExpression(ts, pos) else Success(Parsed(None, pos));
    var p :- Eat(ts, cond.pos, Semicolon);
    Success(Parsed(cond.value, p))
  }

  /** The steps, none when `)` comes at once, and the `)`. */
  function ForStepSection(ts: seq<Token>, pos: nat): (r: PResult<seq<Node>>)
    requires WellFormed(ts) && pos < |ts|
    ensures r.Success? ==> pos < r.value.pos < |ts|
    decreases |ts| - pos, 29
  {
    var steps :- if ts[pos].kind != RightParen then ForContinueStatement(ts, [], pos) else Success(Parsed([], pos));
    var p :- Eat(ts, steps.pos, RightParen);
    Success(Parsed(steps.value, p))
  }

  /** Initialisers up to `;`, commas between them optional. */
  function ForInitializationAssignments(ts: seq<Token>, acc: seq<Node>, pos: nat): (r: PResult<seq<Node>>)
    requires WellFormed(ts) && pos < |ts|
    ensures r.Success? ==> pos <= r.value.pos < |ts|
    decreases |ts| - pos, 28
  {
    if ts[pos].kind == Semicolon then Success(Parsed(acc, pos))
    else
      var a :- ForInitialization(ts, pos);
      ForInitializationAssignments(ts, acc + [a.value], SkipComma(ts, a.pos))
  }

  /** One initialiser: a declaration-assignment when a builtin variable type
      leads, otherwise an assignment to a variable. */
  function ForInitialization(ts: seq<Token>, pos: nat): (r: PResult<Node>)
    requires WellFormed(ts) && pos < |ts|
    ensures r.Success? ==> pos < r.value.pos < |ts|
    decreases |ts| - pos, 27
  {
    if IsBuiltinVarType(ts[pos].kind) then
      var d :- VariablesDeclarations(ts, pos);
      AssignmentStatement(ts, d.value, d.pos)
    else
      var v :- Variable(ts, pos);
      AssignmentStatement(ts, Var(v.value), v.pos)
  }

  /** Step assignments up to `)`, commas between them optional. */
  function ForContinueStatement(ts: seq<Token>, acc: seq<Node>, pos: nat): (r: PResult<seq<Node>>)
    requires WellFormed(ts) && pos < |ts|
    ensures r.Success? ==> pos <= r.value.pos < |ts|
    decreases |ts| - pos, 28
  {
    if ts[pos].kind == RightParen then Success(Parsed(acc, pos))
    else
      var v :- Variable(ts, pos);
      var a :- AssignmentStatement(ts, Var(v.value), v.pos);
      ForContinueStatement(ts, acc + [a.value], SkipComma(ts, a.pos))
  }

  // -------------------------------------------------------------------------
  // Expressions, from the loosest binding level to the tightest

  function Expression(ts: seq<Token>, pos: nat): (r: PResult<Node>)
    requires WellFormed(ts) && pos < |ts|
    ensures r.Success? ==> pos < r.value.pos < |ts|
    decreases |ts| - pos, 13
  {
    OrCondition(ts, pos)
  }

  function OrCondition(ts: seq<Token>, pos: nat): (r: PResult<Node>)
    requires WellFormed(ts) && pos < |ts|
    ensures r.Success? ==> pos < r.value.pos < |ts|
    decreases |ts| - pos, 12
  {
    var n :- AndCondition(ts, pos);
    OrTail(ts, n.value, n.pos)
  }

  function OrTail(ts: seq<Token>, node: Node, pos: nat): (r: PResult<Node>)
    requires WellFormed(ts) && pos < |ts|
    ensures r.Success? ==> pos <= r.value.pos < |ts|
    decreases |ts| - pos, 12
  {
    if ts[pos].kind == Or then
      var token := ts[pos];
      var p1 := Next(ts, pos);
      var right :- AndCondition(ts, p1);
      OrTail(ts, BinOp(node, token, right.value), right.pos)
    else Success(Parsed(node, pos))
  }

  function AndCondition(ts: seq<Token>, pos: nat): (r: PResult<Node>)
    requires WellFormed(ts) && pos < |ts|
    ensures r.Success? ==> pos < r.value.pos < |ts|
    decreases |ts| - pos, 11
  {
    var n :- NotCondition(ts, pos);
    AndTail(ts, n.value, n.pos)
  }

  function AndTail(ts: seq<Token>, node: Node, pos: nat): (r: PResult<Node>)
    requires WellFormed(ts) && pos < |ts|
    ensures r.Success? ==> pos <= r.value.pos < |ts|
    decreases |ts| - pos, 11
  {
    if ts[pos].kind == And then
      var token := ts[pos];
      var p1 := Next(ts, pos);
      var right :- NotCondition(ts, p1);
      AndTail(ts, BinOp(node, token, right.value), right.pos)
    else Success(Parsed(node, pos))
  }

  function NotCondition(ts: seq<Token>, pos: nat): (r: PResult<Node>)
    requires WellFormed(ts) && pos < |ts|
    ensures r.Success? ==> pos < r.value.pos < |ts|
    decreases |ts| - pos, 10
  {
    var token := ts[pos];
    if token.kind == Not then
      var p1 := Next(ts, pos);
      var operand :- NotCondition(ts, p1);
      Success(Parsed(UnOp(token, operand.value), operand.pos))
    else if token.kind == LeftParen then
      var p1 := Next(ts, pos);
      var cond :- Expression(ts, p1);
      var p2 :- Eat(ts, cond.pos, RightParen);
      Success(Parsed(cond.value, p2))
    else Comparision(ts, pos)
  }

  function Comparision(ts: seq<Token>, pos: nat): (r: PResult<Node>)
    requires WellFormed(ts) && pos < |ts|
    ensures r.Success? ==> pos < r.value.pos < |ts|
    decreases |ts| - pos, 9
  {
    var token := ts[pos];
    if token.kind == ConstBool then
      var p1 := Next(ts, pos);
      Success(Parsed(BoolLit(token), p1))
    else
      var n :- ArithmeticExpression(ts, pos);
      CompareTail(ts, n.value, n.pos)
  }

  function CompareTail(ts: seq<Token>, node: Node, pos: nat): (r: PResult<Node>)
    requires WellFormed(ts) && pos < |ts|
    ensures r.Success? ==> pos <= r.value.pos < |ts|
    decreases |ts| - pos, 9
  {
    if IsCompareOperator(ts[pos].kind) then
      var token := ts[pos];
      var p1 := Next(ts, pos);
      var right :- ArithmeticExpression(ts, p1);
      CompareTail(ts, BinOp(node, token, right.value), right.pos)
    else Success(Parsed(node, pos))
  }

  function ArithmeticExpression(ts: seq<Token>, pos: nat): (r: PResult<Node>)
    requires WellFormed(ts) && pos < |ts|
    ensures r.Success? ==> pos < r.value.pos < |ts|
    decreases |ts| - pos, 8
  {
    var n :- Term(ts, pos);
    ArithmeticTail(ts, n.value, n.pos)
  }

  function ArithmeticTail(ts: seq<Token>, node: Node, pos: nat): (r: PResult<Node>)
    requires WellFormed(ts) && pos < |ts|
    ensures r.Success? ==> pos <= r.value.pos < |ts|
    decreases |ts| - pos, 8
  {
    var token := ts[pos];
    if token.kind == Plus || token.kind == Minus then
      var p1 := Next(ts, pos);
      var right :- Term(ts, p1);
      ArithmeticTail(ts, BinOp(node, token, right.value), right.pos)
    else Success(Parsed(node, pos))
  }

  function Term(ts: seq<Token>, pos: nat): (r: PResult<Node>)
    requires WellFormed(ts) && pos < |ts|
    ensures r.Success? ==> pos < r.value.pos < |ts|
    decreases |ts| - pos, 7
  {
    var n :- Factor(ts, pos);
    TermTail(ts, n.value, n.pos)
  }

  function TermTail(ts: seq<Token>, node: Node, pos: nat): (r: PResult<Node>)
    requires WellFormed(ts) && pos < |ts|
    ensures r.Success? ==> pos <= r.value.pos < |ts|
    decreases |ts| - pos, 7
  {
    var token := ts[pos];
    if IsFactorOperator(token.kind) then
      var p1 := Next(ts, pos);
      var right :- Factor(ts, p1);
      TermTail(ts, BinOp(node, token, right.value), right.pos)
    else Success(Parsed(node, pos))
  }

  function Factor(ts: seq<Token>, pos: nat): (r: PResult<Node>)
    requires WellFormed(ts) && pos < |ts|
    ensures r.Success? ==> pos < r.value.pos < |ts|
    decreases |ts| - pos, 6
  {
    var token := ts[pos];
    var k := token.kind;
    if k == Plus || k == Minus then
      var p1 := Next(ts, pos);
      var operand :- Factor(ts, p1);
      Success(Parsed(UnOp(token, operand.value), operand.pos))
    else if k == ConstNumber then Success(Parsed(Number(token), Next(ts, pos)))
    else if k == ConstBool then Success(Parsed(BoolLit(token), Next(ts, pos)))
    else if k == ConstString then Success(Parsed(StringLit(token), Next(ts, pos)))
    else if k == LeftParen then
      var p1 := Next(ts, pos);
      var e :- ArithmeticExpression(ts, p1);
      var p2 :- Eat(ts, e.pos, RightParen);
      Success(Parsed(e.value, p2))
    else if k == Identifier then
      if TokenAt(ts, pos + 1).kind == LeftParen then FunctionCall(ts, pos)
      else
        var v :- Variable(ts, pos);
        Success(Parsed(Var(v.value), v.pos))
    else Failure(ParseError(UnexpectedToken, token, None))
  }
}
