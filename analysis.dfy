// The semantic analyser's rules, stated as functions over values.
//
// The analyser walks the tree with a current scope; each visit yields the
// node's type (a symbol, or null) and may define symbols in the current
// scope, open nested scopes, annotate calls with the function they resolve
// to and attach bodies to function symbols. Here the scope chain is a
// sequence of `Scope` values, innermost first, and every thrown exception is
// an explicit `Failure`: the analyser's own `SemanticError`s, and the host
// runtime's null dereferences, out-of-range indexes and invalid-node
// exceptions, which the source raises by accident rather than by design.
module Analysis {
  import opened Wrappers
  import opened Tokens
  import opened Symbols
  import opened Ast
  import opened SymbolTables

  datatype HostException = NullReference | IndexOutOfRange | InvalidNodeType

  datatype AnalysisError =
    | SemanticError(code: ErrorCode, token: Option<Token>)
    | HostFault(kind: HostException)

  /** The analyser's state: the scope chain, innermost first; the identity
      the next function symbol gets; and the body attached to each function
      symbol so far, by identity. */
  datatype St = St(env: seq<Scope>, nextId: nat, bodies: map<nat, Node>)

  /** What a visit yields: the type, the annotated node and the new state. */
  datatype Typed<T> = Typed(ty: Option<Symbol>, node: T, st: St)

  type Res<T> = Result<Typed<T>, AnalysisError>

  /** The operators whose result is `bool` whatever their operands. */
  predicate IsBoolOperator(k: TokenKind) {
    k in {Equal, NotEqual, Greater, GreaterEqual, Less, LessEqual, Not, And, Or}
  }

  function Incompatible(token: Option<Token>): AnalysisError {
    SemanticError(IncompatibleTypes, token)
  }

  // -------------------------------------------------------------------------
  // The scope operations a visit uses

  function Lookup(st: St, name: string, onlyCurrent: bool): Option<Symbol>
    requires |st.env| > 0
  {
    ChainLookupSingle(st.env, name, onlyCurrent)
  }

  /** `Define` on the current scope. */
  function Define(st: St, s: Symbol): (r: St)
    requires |st.env| > 0
    ensures Extends(st, r) && r.env[0].symbols == st.env[0].symbols + [s.(scopeLevel := st.env[0].level)]
  {
    var top := st.env[0];
    st.(env := [top.(symbols := top.symbols + [s.(scopeLevel := top.level)])] + st.env[1..])
  }

  /** A new table one level deeper, enclosing the current one, made current. */
  function Enter(st: St, name: string): (r: St)
    requires |st.env| > 0
    ensures |r.env| == |st.env| + 1 && r.env[1..] == st.env
  {
    st.(env := [Scope(name, st.env[0].level + 1, Seeded(st.env[0].level + 1))] + st.env)
  }

  /** The enclosing table made current again. */
  function Leave(st: St): St
    requires |st.env| > 1
  {
    st.(env := st.env[1..])
  }

  /** A visit changes the chain only by adding symbols to the current scope,
      and hands out fresh function identities only. */
  predicate Extends(a: St, b: St) {
    |a.env| > 0 && |b.env| == |a.env| && b.env[1..] == a.env[1..] &&
    b.env[0].name == a.env[0].name && b.env[0].level == a.env[0].level &&
    a.env[0].symbols <= b.env[0].symbols && a.nextId <= b.nextId
  }

  lemma ExtendsTransitive(a: St, b: St, c: St)
    requires Extends(a, b) && Extends(b, c)
    ensures Extends(a, c)
  {
    assert b.env[0].symbols[..|a.env[0].symbols|] == c.env[0].symbols[..|b.env[0].symbols|][..|a.env[0].symbols|];
  }

  // -------------------------------------------------------------------------
  // Type merges of the loops that accumulate a type

  /** A block's type is its first child's; every later child must have a
      type of the same name (dereferencing a null one). */
  function CompoundMerge(returnType: Option<Symbol>, current: Option<Symbol>, child: Node): Result<Option<Symbol>, AnalysisError> {
    if returnType.None? then Success(current)
    else if current.None? then Failure(HostFault(NullReference))
    else if current.value.name != returnType.value.name then Failure(Incompatible(NodeToken(child)))
    else Success(returnType)
  }

  /** Array items must be `==` to the first item's type. */
  function ItemMerge(itemType: Option<Symbol>, current: Option<Symbol>, token: Token): Result<Option<Symbol>, AnalysisError> {
    if itemType.None? then Success(current)
    else if NotEq(current, itemType) then
      if current.None? then Failure(HostFault(NullReference)) else Failure(Incompatible(Some(token)))
    else Success(itemType)
  }

  /** An elif or else type must be `==` to the if's type, which is the
      first non-null branch type. */
  function BranchMerge(returnType: Option<Symbol>, branchType: Option<Symbol>, token: Token): Result<Option<Symbol>, AnalysisError> {
    var rt := if returnType.None? then branchType else returnType;
    if NotEq(rt, branchType) then
      if branchType.None? then Failure(HostFault(NullReference)) else Failure(Incompatible(Some(token)))
    else Success(rt)
  }

  /** A condition must be typed `bool` by name (dereferencing a null type). */
  function ConditionCheck(conditionType: Option<Symbol>, token: Token): Result<(), AnalysisError> {
    if conditionType.None? then Failure(HostFault(NullReference))
    else if conditionType.value.name != "bool" then Failure(Incompatible(Some(token)))
    else Success(())
  }

  /** `String.Replace(pattern, "")`: every occurrence, left to right. */
  function RemoveAll(s: string, pattern: string): (r: string)
    requires |pattern| > 0
    ensures |r| <= |s|
  {
    if |s| < |pattern| then s
    else if s[..|pattern|] == pattern then RemoveAll(s[|pattern|..], pattern)
    else [s[0]] + RemoveAll(s[1..], pattern)
  }

  // -------------------------------------------------------------------------
  // The visits

  function Visit(st: St, n: Node): (r: Res<Node>)
    requires |st.env| > 0
    ensures r.Success? ==> |r.value.st.env| == |st.env|
    decreases Size(n), 2
  {
    match n
    case Empty => Success(Typed(None, n, st))
    case Number(_) => Success(Typed(Lookup(st, "number", false), n, st))
    case BoolLit(_) => Success(Typed(Lookup(st, "bool", false), n, st))
    case StringLit(_) => Success(Typed(Lookup(st, "string", false), n, st))
    case Compound(_, _) => VisitCompound(st, n)
    case BinOp(_, _, _) => VisitBinaryOperator(st, n)
    case UnOp(t, e) =>
      var x :- Visit(st, e);
      Success(Typed(x.ty, UnOp(t, x.node), x.st))
    case Var(v) => VisitVariable(st, v)
    case Declarations(_) => VisitVariablesDeclarations(st, n)
    case ArrayInit(_, _) => VisitArrayInitialization(st, n)
    case Index(_, _, _) => VisitIndexExpression(st, n)
    case Assign(_, _, _) => VisitAssign(st, n)
    case FunctionDef(_, _, _, _) => VisitFunctionDefinition(st, n)
    case Call(_, _, _, _) => VisitFunctionCall(st, n)
    case Return(t, e) =>
      if e.Some? then
        assert SizeOpt(e) == Size(e.value);
        var x :- Visit(st, e.value);
        Success(Typed(x.ty, Node.Return(t, Some(x.node)), x.st))
      else Success(Typed(Lookup(st, "void", false), n, st))
    case Break(_) => Success(Typed(None, n, st))
    case Continue(_) => Success(Typed(None, n, st))
    case IfElse(_, _, _, _, _) => VisitIfElse(st, n)
    case While(_, _, _) => VisitWhile(st, n)
    case For(_, _, _, _, _) => VisitFor(st, n)
  }

  function VisitVariable(st: St, v: VarRef): (r: Res<Node>)
    requires |st.env| > 0
    ensures r.Success? ==> r.value.st == st && r.value.node == Var(v)
  {
    var s := Lookup(st, VariableName(v), false);
    if s.None? then Failure(SemanticError(IdentifierNotFound, Some(v.token)))
    else Success(Typed(s.value.ty, Var(v), st))
  }

  function VisitCompound(st: St, n: Node): (r: Res<Node>)
    requires |st.env| > 0 && n.Compound?
    ensures r.Success? ==> |r.value.st.env| == |st.env|
    decreases Size(n), 1
  {
    var c :- VisitChildren(st, n.children, None);
    Success(Typed(c.ty, Compound(n.token, c.node), c.st))
  }

  /** The loop over a block's children from the given accumulated type on. */
  function VisitChildren(st: St, children: seq<Node>, returnType: Option<Symbol>): (r: Res<seq<Node>>)
    requires |st.env| > 0
    ensures r.Success? ==> |r.value.st.env| == |st.env|
    decreases SizeSeq(children), 3
  {
    if children == [] then Success(Typed(returnType, [], st))
    else
      var first :- Visit(st, children[0]);
      var rt :- CompoundMerge(returnType, first.ty, children[0]);
      var rest :- VisitChildren(first.st, children[1..], rt);
      Success(Typed(rest.ty, [first.node] + rest.node, rest.st))
  }

  function VisitBinaryOperator(st: St, n: Node): (r: Res<Node>)
    requires |st.env| > 0 && n.BinOp?
    ensures r.Success? ==> |r.value.st.env| == |st.env|
    decreases Size(n), 1
  {
    var left :- Visit(st, n.left);
    var right :- Visit(left.st, n.right);
    if NotEq(left.ty, right.ty) then
      if left.ty.None? || right.ty.None? then Failure(HostFault(NullReference))
      else Failure(Incompatible(Some(n.token)))
    else
      var ty := if IsBoolOperator(n.token.kind) then Some(PlainSym("bool")) else left.ty;
      Success(Typed(ty, BinOp(left.node, n.token, right.node), right.st))
  }

  /** The variable's type: the array type by name alone (a plain symbol)
      for an array declaration, else the looked-up type. */
  function DeclaredType(st: St, d: Decl): Option<Symbol>
    requires |st.env| > 0
  {
    var typeName := TypeName(d.vtype);
    if d.vtype.spec.ArrayTypeSpec? then Some(PlainSym(typeName + ArrayTypeSuffix))
    else Lookup(st, typeName, false)
  }

  function VisitVariableDeclaration(st: St, d: Decl): (r: Res<Decl>)
    requires |st.env| > 0
    ensures r.Success? ==> |r.value.st.env| == |st.env|
  {
    var typeSymbol := DeclaredType(st, d);
    var variableName := VariableName(d.variable);
    if Lookup(st, variableName, true).Some? then Failure(SemanticError(DuplicateIdentifier, Some(d.variable.token)))
    else Success(Typed(typeSymbol, d, Define(st, VariableSym(variableName, typeSymbol))))
  }

  function VisitVariablesDeclarations(st: St, n: Node): (r: Res<Node>)
    requires |st.env| > 0 && n.Declarations?
    ensures r.Success? ==> |r.value.st.env| == |st.env|
  {
    var d :- VisitDeclarations(st, n.decls, None);
    Success(Typed(d.ty, n, d.st))
  }

  /** The loop over `T a, b, c`: the type is the first declaration's. */
  function VisitDeclarations(st: St, decls: seq<Decl>, variableType: Option<Symbol>): (r: Res<()>)
    requires |st.env| > 0
    ensures r.Success? ==> |r.value.st.env| == |st.env|
    decreases |decls|
  {
    if decls == [] then Success(Typed(variableType, (), st))
    else
      var first :- VisitVariableDeclaration(st, decls[0]);
      var rest :- VisitDeclarations(first.st, decls[1..], if variableType.None? then first.ty else variableType);
      Success(rest)
  }

  function VisitArrayInitialization(st: St, n: Node): (r: Res<Node>)
    requires |st.env| > 0 && n.ArrayInit?
    ensures r.Success? ==> |r.value.st.env| == |st.env|
    decreases Size(n), 1
  {
    var items :- VisitItems(st, n.token, n.items, None);
    if items.ty.None? then Failure(HostFault(NullReference))
    else Success(Typed(Some(PlainSym(items.ty.value.name + ArrayTypeSuffix)), ArrayInit(n.token, items.node), items.st))
  }

  function VisitItems(st: St, token: Token, items: seq<Node>, itemType: Option<Symbol>): (r: Res<seq<Node>>)
    requires |st.env| > 0
    ensures r.Success? ==> |r.value.st.env| == |st.env|
    decreases SizeSeq(items), 3
  {
    if items == [] then Success(Typed(itemType, [], st))
    else
      var first :- Visit(st, items[0]);
      var it :- ItemMerge(itemType, first.ty, token);
      var rest :- VisitItems(first.st, token, items[1..], it);
      Success(Typed(rest.ty, [first.node] + rest.node, rest.st))
  }

  function VisitIndexExpression(st: St, n: Node): (r: Res<Node>)
    requires |st.env| > 0 && n.Index?
    ensures r.Success? ==> |r.value.st.env| == |st.env|
    decreases Size(n), 1
  {
    var indexed :- Visit(st, n.indexed);
    var index :- Visit(indexed.st, n.index);
    if index.ty.None? then Failure(HostFault(NullReference))
    else if index.ty.value.name != "number" then Failure(Incompatible(Some(n.token)))
    else if indexed.ty.None? then Failure(HostFault(NullReference))
    else
      var element := Lookup(index.st, RemoveAll(indexed.ty.value.name, ArrayTypeSuffix), false);
      Success(Typed(element, Index(n.token, indexed.node, index.node), index.st))
  }

  function VisitAssign(st: St, n: Node): (r: Res<Node>)
    requires |st.env| > 0 && n.Assign?
    ensures r.Success? ==> |r.value.st.env| == |st.env|
    decreases Size(n), 1
  {
    var left :- if n.left.Var? || n.left.Declarations? then Visit(st, n.left) else Failure(HostFault(InvalidNodeType));
    var right :- Visit(left.st, n.right);
    if left.ty.None? || right.ty.None? then Failure(HostFault(NullReference))
    else if left.ty.value.name != right.ty.value.name then Failure(Incompatible(Some(n.token)))
    else Success(Typed(None, Node.Assign(left.node, n.token, right.node), right.st))
  }

  /** One parameter, defined in the function's own scope; its type is
      looked up by the type's name alone. Yields the symbol as defined. */
  function VisitParameter(st: St, p: Param): (r: Result<(Symbol, St), AnalysisError>)
    requires |st.env| > 0
    ensures r.Success? ==> |r.value.1.env| == |st.env| && r.value.1.env[1..] == st.env[1..]
  {
    var paramName := VariableName(p.variable);
    var paramSymbol := VariableSym(paramName, Lookup(st, TypeName(p.ptype), false));
    if Lookup(st, paramName, true).Some? then Failure(SemanticError(DuplicateIdentifier, Some(p.variable.token)))
    else Success((paramSymbol.(scopeLevel := st.env[0].level), Define(st, paramSymbol)))
  }

  /** The parameters, defined one by one in the function's own scope. The
      symbols come back in order, as the function symbol lists them. */
  function VisitParameters(st: St, params: seq<Param>): (r: Result<(seq<Symbol>, St), AnalysisError>)
    requires |st.env| > 0
    ensures r.Success? ==> |r.value.1.env| == |st.env| && r.value.1.env[1..] == st.env[1..]
    decreases |params|
  {
    if params == [] then Success(([], st))
    else
      var first :- VisitParameter(st, params[0]);
      var rest :- VisitParameters(first.1, params[1..]);
      Success(([first.0] + rest.0, rest.1))
  }

  /** Replaces the symbol at `index` of the scope `k` levels out: the
      parameters the source adds to a function symbol it has already
      defined reach the table through that shared object. */
  function UpdateSymbol(st: St, k: nat, index: nat, s: Symbol): (r: St)
    requires k < |st.env| && index < |st.env[k].symbols|
    ensures |r.env| == |st.env| && r.nextId == st.nextId
  {
    var scope := st.env[k];
    st.(env := st.env[k := scope.(symbols := scope.symbols[index := s])])
  }

  /** Whether a return statement is the node, in a block's children, or in
      the then- or else-branch of an if. */
  predicate HasReturnStatement(n: Node)
    decreases Size(n), 1
  {
    match n
    case Return(_, _) => true
    case Compound(_, children) => AnyHasReturnStatement(children)
    case IfElse(_, _, t, _, e) =>
      HasReturnStatement(t) || (e.Some? && assert SizeOpt(e) == Size(e.value); HasReturnStatement(e.value))
    case _ => false
  }

  /** The `|=` loop over a block's children. */
  predicate AnyHasReturnStatement(children: seq<Node>)
    decreases SizeSeq(children), 2
  {
    children != [] && (HasReturnStatement(children[0]) || AnyHasReturnStatement(children[1..]))
  }

  /** The function's return type must match what its body yields, by name,
      and a body must hold a return statement, unless it is `void`. */
  function ReturnCheck(typeName: string, typeSymbol: Option<Symbol>, returnedType: Option<Symbol>, body: Node, token: Token): Result<(), AnalysisError> {
    if typeName == "void" then Success(())
    else if returnedType.None? || typeSymbol.None? then Failure(HostFault(NullReference))
    else if returnedType.value.name != typeSymbol.value.name then Failure(Incompatible(Some(token)))
    else if !HasReturnStatement(body) then Failure(SemanticError(MissingReturnStatement, Some(token)))
    else Success(())
  }

  /** The function symbol as the source builds it: the return type looked
      up by name, no parameters yet, and the next identity. */
  function NewFunctionSymbol(st: St, n: Node): Symbol
    requires |st.env| > 0 && n.FunctionDef?
  {
    FunctionSym(Name(n.token), Lookup(st, TypeName(n.returnType), false), st.nextId)
  }

  /** The function symbol defined in the current scope, with the next
      identity, which is then used up. */
  function DefineFunction(st: St, n: Node): St
    requires |st.env| > 0 && n.FunctionDef?
  {
    Define(st, NewFunctionSymbol(st, n)).(nextId := st.nextId + 1)
  }

  /** Up to the body: the function symbol is defined in the current scope,
      the function's own scope is opened, the parameters are defined in it
      and listed on the function symbol. Yields the state the body is
      visited in and the completed function symbol. */
  function OpenFunctionScope(st: St, n: Node): (r: Result<(St, Symbol), AnalysisError>)
    requires |st.env| > 0 && n.FunctionDef?
    ensures r.Success? ==> |r.value.0.env| == |st.env| + 1
  {
    var functionName := Name(n.token);
    if Lookup(st, functionName, true).Some? then Failure(SemanticError(DuplicateIdentifier, Some(n.token)))
    else
      var defined := DefineFunction(st, n);
      var ps :- VisitParameters(Enter(defined, functionName), n.params);
      var index := |st.env[0].symbols|;
      var f := defined.env[0].symbols[index].(params := ps.0);
      Success((UpdateSymbol(ps.1, 1, index, f), f))
  }

  function VisitFunctionDefinition(st: St, n: Node): (r: Res<Node>)
    requires |st.env| > 0 && n.FunctionDef?
    ensures r.Success? ==> |r.value.st.env| == |st.env|
    decreases Size(n), 1
  {
    var (inner, f) :- OpenFunctionScope(st, n);
    var body :- Visit(inner, n.body);
    var _ :- ReturnCheck(TypeName(n.returnType), f.returnType, body.ty, n.body, n.token);
    var after := Leave(body.st);
    Success(Typed(None, FunctionDef(n.token, n.returnType, n.params, body.node), after.(bodies := after.bodies[f.id := body.node])))
  }

  function VisitFunctionCall(st: St, n: Node): (r: Res<Node>)
    requires |st.env| > 0 && n.Call?
    ensures r.Success? ==> |r.value.st.env| == |st.env|
    decreases Size(n), 1
  {
    var fs := Lookup(st, n.name, false);
    if fs.None? then Failure(SemanticError(IdentifierNotFound, Some(n.token)))
    else if !IsFunction(fs.value) then Failure(HostFault(NullReference))
    else if |fs.value.params| != |n.args| && fs.value.name != "print" then Failure(SemanticError(WrongParamNumber, Some(n.token)))
    else
      var a :- VisitArguments(st, n.args, fs.value.params);
      Success(Typed(fs.value.returnType, Call(n.token, n.name, a.node, fs), a.st))
  }

  /** The loop over the formal parameters: the actual argument at each
      position must exist and have a type of the formal's type name. The
      arguments past the formals are left as they are. */
  function VisitArguments(st: St, args: seq<Node>, formals: seq<Symbol>): (r: Res<seq<Node>>)
    requires |st.env| > 0
    ensures r.Success? ==> |r.value.st.env| == |st.env|
    decreases SizeSeq(args), 3
  {
    if formals == [] then Success(Typed(None, args, st))
    else if args == [] then Failure(HostFault(IndexOutOfRange))
    else
      var actual :- Visit(st, args[0]);
      var formalType := formals[0].ty;
      if actual.ty.None? || formalType.None? then Failure(HostFault(NullReference))
      else if actual.ty.value.name != formalType.value.name then Failure(Incompatible(NodeToken(args[0])))
      else
        var rest :- VisitArguments(actual.st, args[1..], formals[1..]);
        Success(Typed(None, [actual.node] + rest.node, rest.st))
  }

  /** A node visited in a new nested scope, which is dropped afterwards. */
  function VisitScoped(st: St, scopeName: string, n: Node): (r: Res<Node>)
    requires |st.env| > 0
    ensures r.Success? ==> |r.value.st.env| == |st.env|
    decreases Size(n), 3
  {
    var x :- Visit(Enter(st, scopeName), n);
    Success(Typed(x.ty, x.node, Leave(x.st)))
  }

  function VisitIfElse(st: St, n: Node): (r: Res<Node>)
    requires |st.env| > 0 && n.IfElse?
    ensures r.Success? ==> |r.value.st.env| == |st.env|
    decreases Size(n), 1
  {
    var condition :- Visit(st, n.cond);
    var _ :- ConditionCheck(condition.ty, n.token);
    var ifTrue :- VisitScoped(condition.st, "if", n.ifTrue);
    var elifs :- VisitElifs(ifTrue.st, n.token, n.elifs, ifTrue.ty);
    if n.elseBranch.None? then
      Success(Typed(elifs.ty, IfElse(n.token, condition.node, ifTrue.node, elifs.node, None), elifs.st))
    else
      assert SizeOpt(n.elseBranch) == Size(n.elseBranch.value);
      var elseBranch :- VisitScoped(elifs.st, "else", n.elseBranch.value);
      var ty :- BranchMerge(elifs.ty, elseBranch.ty, n.token);
      Success(Typed(ty, IfElse(n.token, condition.node, ifTrue.node, elifs.node, Some(elseBranch.node)), elseBranch.st))
  }

  function VisitElif(st: St, e: Elif): (r: Res<Elif>)
    requires |st.env| > 0
    ensures r.Success? ==> |r.value.st.env| == |st.env|
    decreases SizeElif(e), 3
  {
    var condition :- Visit(st, e.cond);
    var _ :- ConditionCheck(condition.ty, e.token);
    var ifTrue :- VisitScoped(condition.st, "if", e.ifTrue);
    Success(Typed(ifTrue.ty, Elif.Elif(e.token, condition.node, ifTrue.node), ifTrue.st))
  }

  /** The loop over the elifs, merging each one's type into the if's. */
  function VisitElifs(st: St, token: Token, elifs: seq<Elif>, returnType: Option<Symbol>): (r: Res<seq<Elif>>)
    requires |st.env| > 0
    ensures r.Success? ==> |r.value.st.env| == |st.env|
    decreases SizeElifs(elifs), 4
  {
    if elifs == [] then Success(Typed(returnType, [], st))
    else
      var first :- VisitElif(st, elifs[0]);
      var rt :- BranchMerge(returnType, first.ty, token);
      var rest :- VisitElifs(first.st, token, elifs[1..], rt);
      Success(Typed(rest.ty, [first.node] + rest.node, rest.st))
  }

  function VisitWhile(st: St, n: Node): (r: Res<Node>)
    requires |st.env| > 0 && n.While?
    ensures r.Success? ==> |r.value.st.env| == |st.env|
    decreases Size(n), 1
  {
    var condition :- Visit(st, n.cond);
    var _ :- ConditionCheck(condition.ty, n.token);
    var body :- VisitScoped(condition.st, "while", n.body);
    Success(Typed(body.ty, Node.While(n.token, condition.node, body.node), body.st))
  }

  /** A for loop: the assignments, the condition (whatever its type), the
      step statements and the body, all in one new scope. */
  function VisitFor(st: St, n: Node): (r: Res<Node>)
    requires |st.env| > 0 && n.For?
    ensures r.Success? ==> |r.value.st.env| == |st.env|
    decreases Size(n), 1
  {
    var scope := Enter(st, "for");
    var inits :- VisitAll(scope, n.inits);
    var condition :- VisitOptional(inits.st, n.forCond);
    var steps :- VisitAll(condition.st, n.steps);
    var body :- Visit(steps.st, n.body);
    Success(Typed(body.ty, Node.For(n.token, inits.node, condition.node, steps.node, body.node), Leave(body.st)))
  }

  function VisitOptional(st: St, n: Option<Node>): (r: Res<Option<Node>>)
    requires |st.env| > 0
    ensures r.Success? ==> |r.value.st.env| == |st.env|
    decreases SizeOpt(n), 3
  {
    if n.None? then Success(Typed(None, None, st))
    else
      var x :- Visit(st, n.value);
      Success(Typed(x.ty, Some(x.node), x.st))
  }

  /** Visits each node in order, ignoring their types. */
  function VisitAll(st: St, ns: seq<Node>): (r: Res<seq<Node>>)
    requires |st.env| > 0
    ensures r.Success? ==> |r.value.st.env| == |st.env|
    decreases SizeSeq(ns), 3
  {
    if ns == [] then Success(Typed(None, [], st))
    else
      var first :- Visit(st, ns[0]);
      var rest :- VisitAll(first.st, ns[1..]);
      Success(Typed(None, [first.node] + rest.node, rest.st))
  }

  // -------------------------------------------------------------------------
  // The program

  /** The annotated program and the bodies attached to function symbols. */
  datatype Analyzed = Analyzed(program: ProgramNode, bodies: map<nat, Node>)

  function InitialState(): St {
    St([Scope("global", 1, Seeded(1))], 1, map[])
  }

  /** Visits the root in the global scope, then requires `Main` in the
      global scope itself and attaches it (as a function, else null). */
  function AnalyzeProgram(global: St, p: ProgramNode): Result<Analyzed, AnalysisError>
    requires |global.env| == 1
  {
    var root :- Visit(global, p.root);
    var main := Lookup(root.st, "Main", true);
    if main.None? then Failure(SemanticError(MissingMain, Some(p.token)))
    else
      var annotated := if IsFunction(main.value) then main else None;
      Success(Analyzed(ProgramNode(p.token, root.node, annotated), root.st.bodies))
  }
}
