// The semantic analyser as the source runs it: an object holding the
// current scope table, which its visits extend, replace by a fresh nested
// table and restore. Every visit is proved to agree with the matching rule
// of `Analysis`, on the result and on the scope chain it leaves behind.
module Analyzer {
  import opened Wrappers
  import opened Tokens
  import opened Symbols
  import opened Ast
  import opened SymbolTables
  import opened Analysis

  /** What a visit method returns: the type and the annotated node. */
  type Visited<T> = Result<(Option<Symbol>, T), AnalysisError>

  /** A visit method's result and final state are the rule's. */
  ghost predicate Agrees<T>(r: Visited<T>, spec: Res<T>, post: St) {
    match spec
    case Success(t) => r == Success((t.ty, t.node)) && post == t.st
    case Failure(e) => r == Failure(e)
  }

  /** A loop's annotated nodes so far, before those of the rest of it. */
  ghost function Prepend<T>(done: seq<T>, r: Res<seq<T>>): Res<seq<T>> {
    if r.Success? then Success(Typed(r.value.ty, done + r.value.node, r.value.st)) else r
  }

  /** The same for the parameter loop. */
  ghost function PrependParams(done: seq<Symbol>, r: Result<(seq<Symbol>, St), AnalysisError>): Result<(seq<Symbol>, St), AnalysisError> {
    if r.Success? then Success((done + r.value.0, r.value.1)) else r
  }

  lemma PrependNothing<T>(r: Res<seq<T>>)
    ensures Prepend([], r) == r
  {
    if r.Success? {
      assert [] + r.value.node == r.value.node;
    }
  }

  lemma PrependConcat<T>(a: seq<T>, b: seq<T>, r: Res<seq<T>>)
    ensures Prepend(a, Prepend(b, r)) == Prepend(a + b, r)
  {
    if r.Success? {
      assert a + (b + r.value.node) == (a + b) + r.value.node;
    }
  }

  lemma PrependParamsNothing(r: Result<(seq<Symbol>, St), AnalysisError>)
    ensures PrependParams([], r) == r
  {
    if r.Success? {
      assert [] + r.value.0 == r.value.0;
    }
  }

  lemma PrependParamsConcat(a: seq<Symbol>, b: seq<Symbol>, r: Result<(seq<Symbol>, St), AnalysisError>)
    ensures PrependParams(a, PrependParams(b, r)) == PrependParams(a + b, r)
  {
    if r.Success? {
      assert a + (b + r.value.0) == (a + b) + r.value.0;
    }
  }

  /** Whether a node is a block, a declaration, an assignment or a function
      definition. */
  predicate IsStatement(n: Node)
  {
    n.Compound? || n.Declarations? || n.Assign? || n.FunctionDef?
  }

  /** Whether a node is a control statement: return, break, continue, if,
      while or for. */
  predicate IsControlStatement(n: Node)
  {
    n.Return? || n.Break? || n.Continue? || n.IfElse? || n.While? || n.For?
  }

  class SemanticAnalyzer {
    /** The global table, created once and reused by every analysis. */
    const global: ScopedSymbolTable
    var current: ScopedSymbolTable?
    /** The identity the next function symbol gets. */
    var nextId: nat
    /** The body attached to each function symbol, by identity. */
    var bodies: map<nat, Node>

    ghost predicate Ready()
      reads this
    {
      current != null && current.Linked()
    }

    /** The analyser's state as the rules see it. */
    ghost function State(): St
      requires Ready()
      reads this, current.footprint
    {
      St(current.Model(), nextId, bodies)
    }

    /** The state an analysis starts from: the global table alone. */
    ghost function GlobalState(): (st: St)
      reads this, global
      ensures |st.env| == 1
    {
      St([Scope(global.name, global.level, global.symbols)], nextId, bodies)
    }

    constructor ()
      ensures global.Linked() && global.enclosing == null && fresh(global)
      ensures GlobalState() == InitialState()
    {
      global := new ScopedSymbolTable("global", 1, null);
      current := null;
      nextId := 1;
      bodies := map[];
    }

    /** A fresh table one level deeper, enclosing the current one, made
        current. */
    method EnterScope(scopeName: string)
      requires Ready()
      modifies this
      ensures Ready() && fresh(current) && current.enclosing == old(current)
      ensures State() == Enter(old(State()), scopeName)
    {
      var scope := new ScopedSymbolTable(scopeName, current.level + 1, current);
      current := scope;
    }

    /** The enclosing table made current again. */
    method LeaveScope()
      requires Ready() && current.enclosing != null
      modifies this
      ensures Ready() && current == old(current.enclosing)
      ensures State() == Leave(old(State()))
    {
      current := current.enclosing;
    }

    /** `Define` on the current table. */
    method DefineSymbol(s: Symbol)
      requires Ready()
      modifies current
      ensures Ready() && State() == Analysis.Define(old(State()), s)
    {
      current.Define(s);
    }

    /** Attaches a body to the function symbol with identity `id`. */
    method AttachBody(id: nat, body: Node)
      requires Ready()
      modifies this
      ensures Ready() && current == old(current)
      ensures State() == old(State()).(bodies := old(State()).bodies[id := body])
    {
      bodies := bodies[id := body];
    }

    /** Replaces a symbol of the enclosing table: the function symbol that
        gets its parameters after the function's own table is current. */
    method UpdateEnclosingSymbol(index: nat, s: Symbol)
      requires Ready() && current.enclosing != null && index < |current.enclosing.symbols|
      modifies current.enclosing
      ensures Ready() && State() == Analysis.UpdateSymbol(old(State()), 1, index, s)
    {
      ghost var st0 := State();
      var outer := current.enclosing;
      ghost var rest := outer.Model()[1..];
      outer.UpdateSymbol(index, s);
      assert outer.Model()[1..] == rest by {
        if outer.enclosing != null {
          assert outer !in outer.enclosing.footprint;
        }
      }
      ghost var updated := Scope(outer.name, outer.level, outer.symbols);
      assert current.Model() == [st0.env[0]] + ([updated] + rest);
      assert st0.env == [st0.env[0]] + ([st0.env[1]] + rest);
    }

    /** Visits the root in the global table, then requires `Main` there. */
    method Analyze(p: ProgramNode) returns (r: Result<Analyzed, AnalysisError>)
      requires global.Linked() && global.enclosing == null
      modifies this, global
      ensures r == AnalyzeProgram(old(GlobalState()), p)
      ensures var v := Analysis.Visit(old(GlobalState()), p.root);
              v.Success? ==> GlobalState() == v.value.st
      ensures r.Success? ==> current == null
    {
      current := global;
      assert State() == GlobalState();
      var root :- Visit(p.root);
      var mainFunction := current.LookupSingle("Main", true);
      if mainFunction.None? {
        return Failure(SemanticError(MissingMain, Some(p.token)));
      }
      var main := if IsFunction(mainFunction.value) then mainFunction else None;
      current := current.enclosing;
      r := Success(Analyzed(ProgramNode(p.token, root.1, main), bodies));
    }

    method Visit(n: Node) returns (r: Visited<Node>)
      requires Ready()
      modifies this, current
      ensures Ready() && (r.Success? ==> current == old(current))
      ensures Agrees(r, Analysis.Visit(old(State()), n), State())
      decreases Size(n), 3
    {
      if IsControlStatement(n) {
        r := VisitControlStatement(n);
      } else if IsStatement(n) {
        r := VisitStatement(n);
      } else {
        r := VisitExpression(n);
      }
    }

    /** The dispatch of `Visit` over expression nodes. */
    method VisitExpression(n: Node) returns (r: Visited<Node>)
      requires Ready() && !IsStatement(n) && !IsControlStatement(n)
      modifies this, current
      ensures Ready() && (r.Success? ==> current == old(current))
      ensures Agrees(r, Analysis.Visit(old(State()), n), State())
      decreases Size(n), 2
    {
      ghost var st0 := State();
      match n
      case Empty => r := Success((None, n));
      case Number(_) => r := Success((current.LookupSingle("number", false), n));
      case BoolLit(_) => r := Success((current.LookupSingle("bool", false), n));
      case StringLit(_) => r := Success((current.LookupSingle("string", false), n));
      case BinOp(_, _, _) =>
        r := VisitBinaryOperator(n);
        assert Agrees(r, Analysis.Visit(st0, n), State());
      case UnOp(t, e) =>
        var x :- Visit(e);
        r := Success((x.0, UnOp(t, x.1)));
      case Var(v) =>
        r := VisitVariable(v);
        assert Agrees(r, Analysis.Visit(st0, n), State());
      case ArrayInit(_, _) =>
        r := VisitArrayInitialization(n);
        assert Agrees(r, Analysis.Visit(st0, n), State());
      case Index(_, _, _) =>
        r := VisitIndexExpression(n);
        assert Agrees(r, Analysis.Visit(st0, n), State());
      case Call(_, _, _, _) =>
        r := VisitFunctionCall(n);
        assert Agrees(r, Analysis.Visit(st0, n), State());
    }

    /** The dispatch of `Visit` over blocks, declarations, assignments and
        function definitions. */
    method VisitStatement(n: Node) returns (r: Visited<Node>)
      requires Ready() && IsStatement(n)
      modifies this, current
      ensures Ready() && (r.Success? ==> current == old(current))
      ensures Agrees(r, Analysis.Visit(old(State()), n), State())
      decreases Size(n), 2
    {
      ghost var st0 := State();
      match n
      case Compound(_, _) =>
        r := VisitCompound(n);
        assert Agrees(r, Analysis.Visit(st0, n), State());
      case Declarations(_) =>
        r := VisitVariablesDeclarations(n);
        assert Agrees(r, Analysis.Visit(st0, n), State());
      case Assign(_, _, _) =>
        r := VisitAssign(n);
        assert Agrees(r, Analysis.Visit(st0, n), State());
      case FunctionDef(_, _, _, _) =>
        r := VisitFunctionDefinition(n);
        assert Agrees(r, Analysis.Visit(st0, n), State());
    }

    /** The dispatch of `Visit` over the control statements. */
    method VisitControlStatement(n: Node) returns (r: Visited<Node>)
      requires Ready() && IsControlStatement(n)
      modifies this, current
      ensures Ready() && (r.Success? ==> current == old(current))
      ensures Agrees(r, Analysis.Visit(old(State()), n), State())
      decreases Size(n), 2
    {
      ghost var st0 := State();
      match n
      case Return(_, _) =>
        r := VisitReturnStatement(n);
        assert Agrees(r, Analysis.Visit(st0, n), State());
      case Break(_) =>
        assert Analysis.Visit(State(), n) == Success(Typed(None, n, State()));
        r := Success((None, n));
      case Continue(_) =>
        assert Analysis.Visit(State(), n) == Success(Typed(None, n, State()));
        r := Success((None, n));
      case IfElse(_, _, _, _, _) =>
        r := VisitIfElseStatement(n);
        assert Agrees(r, Analysis.Visit(st0, n), State());
      case While(_, _, _) =>
        r := VisitWhileStatement(n);
        assert Agrees(r, Analysis.Visit(st0, n), State());
      case For(_, _, _, _, _) =>
        r := VisitForStatement(n);
        assert Agrees(r, Analysis.Visit(st0, n), State());
    }

    method VisitVariable(v: VarRef) returns (r: Visited<Node>)
      requires Ready()
      ensures Agrees(r, Analysis.VisitVariable(State(), v), State())
    {
      var variableSymbol := current.LookupSingle(VariableName(v), false);
      if variableSymbol.None? {
        return Failure(SemanticError(IdentifierNotFound, Some(v.token)));
      }
      r := Success((variableSymbol.value.ty, Var(v)));
    }

    method VisitCompound(n: Node) returns (r: Visited<Node>)
      requires Ready() && n.Compound?
      modifies this, current
      ensures Ready() && (r.Success? ==> current == old(current))
      ensures Agrees(r, Analysis.VisitCompound(old(State()), n), State())
      decreases Size(n), 1
    {
      ghost var st0 := State();
      var returnType: Option<Symbol> := None;
      var children: seq<Node> := [];
      var i := 0;
      PrependNothing(VisitChildren(st0, n.children, None));
      while i < |n.children|
        invariant 0 <= i <= |n.children| && Ready() && current == old(current)
        invariant VisitChildren(st0, n.children, None) == Prepend(children, VisitChildren(State(), n.children[i..], returnType))
        decreases |n.children| - i
      {
        var child := n.children[i];
        SizeSeqElement(n.children, i);
        assert n.children[i..][1..] == n.children[i + 1..];
        var visited :- Visit(child);
        var merged :- CompoundMerge(returnType, visited.0, child);
        ghost var before := children;
        returnType := merged;
        children := children + [visited.1];
        i := i + 1;
        PrependConcat(before, [visited.1], VisitChildren(State(), n.children[i..], returnType));
      }
      assert n.children[i..] == [] && children + [] == children;
      r := Success((returnType, Compound(n.token, children)));
    }

    method VisitBinaryOperator(n: Node) returns (r: Visited<Node>)
      requires Ready() && n.BinOp?
      modifies this, current
      ensures Ready() && (r.Success? ==> current == old(current))
      ensures Agrees(r, Analysis.VisitBinaryOperator(old(State()), n), State())
      decreases Size(n), 1
    {
      var left :- Visit(n.left);
      var right :- Visit(n.right);
      if NotEq(left.0, right.0) {
        if left.0.None? || right.0.None? {
          return Failure(HostFault(NullReference));
        }
        return Failure(Incompatible(Some(n.token)));
      }
      var ty := if IsBoolOperator(n.token.kind) then Some(PlainSym("bool")) else left.0;
      r := Success((ty, BinOp(left.1, n.token, right.1)));
    }

    method VisitVariablesDeclarations(n: Node) returns (r: Visited<Node>)
      requires Ready() && n.Declarations?
      modifies current
      ensures Ready()
      ensures Agrees(r, Analysis.VisitVariablesDeclarations(old(State()), n), State())
    {
      var variableType: Option<Symbol> := None;
      var i := 0;
      while i < |n.decls|
        invariant 0 <= i <= |n.decls| && Ready()
        invariant VisitDeclarations(old(State()), n.decls, None) == VisitDeclarations(State(), n.decls[i..], variableType)
        decreases |n.decls| - i
      {
        assert n.decls[i..][1..] == n.decls[i + 1..];
        var declared :- VisitVariableDeclaration(n.decls[i]);
        if variableType.None? {
          variableType := declared.0;
        }
        i := i + 1;
      }
      r := Success((variableType, n));
    }

    method VisitVariableDeclaration(d: Decl) returns (r: Visited<Decl>)
      requires Ready()
      modifies current
      ensures Ready()
      ensures Agrees(r, Analysis.VisitVariableDeclaration(old(State()), d), State())
    {
      var typeName := TypeName(d.vtype);
      var typeSymbol := current.LookupSingle(typeName, false);
      if d.vtype.spec.ArrayTypeSpec? {
        typeSymbol := Some(PlainSym(typeName + ArrayTypeSuffix));
      }
      var variableName := VariableName(d.variable);
      var variableSymbol := VariableSym(variableName, typeSymbol);
      if current.LookupSingle(variableName, true).Some? {
        return Failure(SemanticError(DuplicateIdentifier, Some(d.variable.token)));
      }
      DefineSymbol(variableSymbol);
      r := Success((typeSymbol, d));
    }

    method VisitArrayInitialization(n: Node) returns (r: Visited<Node>)
      requires Ready() && n.ArrayInit?
      modifies this, current
      ensures Ready() && (r.Success? ==> current == old(current))
      ensures Agrees(r, Analysis.VisitArrayInitialization(old(State()), n), State())
      decreases Size(n), 1
    {
      ghost var st0 := State();
      var itemType: Option<Symbol> := None;
      var items: seq<Node> := [];
      var i := 0;
      PrependNothing(VisitItems(st0, n.token, n.items, None));
      while i < |n.items|
        invariant 0 <= i <= |n.items| && Ready() && current == old(current)
        invariant VisitItems(st0, n.token, n.items, None) == Prepend(items, VisitItems(State(), n.token, n.items[i..], itemType))
        decreases |n.items| - i
      {
        var item := n.items[i];
        SizeSeqElement(n.items, i);
        assert n.items[i..][1..] == n.items[i + 1..];
        var visited :- Visit(item);
        var merged :- ItemMerge(itemType, visited.0, n.token);
        ghost var before := items;
        itemType := merged;
        items := items + [visited.1];
        i := i + 1;
        PrependConcat(before, [visited.1], VisitItems(State(), n.token, n.items[i..], itemType));
      }
      assert n.items[i..] == [] && items + [] == items;
      if itemType.None? {
        return Failure(HostFault(NullReference));
      }
      r := Success((Some(PlainSym(itemType.value.name + ArrayTypeSuffix)), ArrayInit(n.token, items)));
    }

    method VisitIndexExpression(n: Node) returns (r: Visited<Node>)
      requires Ready() && n.Index?
      modifies this, current
      ensures Ready() && (r.Success? ==> current == old(current))
      ensures Agrees(r, Analysis.VisitIndexExpression(old(State()), n), State())
      decreases Size(n), 1
    {
      var variableType :- Visit(n.indexed);
      var indexType :- Visit(n.index);
      if indexType.0.None? || (indexType.0.value.name == "number" && variableType.0.None?) {
        return Failure(HostFault(NullReference));
      }
      if indexType.0.value.name != "number" {
        return Failure(Incompatible(Some(n.token)));
      }
      var singleType := RemoveAll(variableType.0.value.name, ArrayTypeSuffix);
      r := Success((current.LookupSingle(singleType, false), Index(n.token, variableType.1, indexType.1)));
    }

    method VisitAssign(n: Node) returns (r: Visited<Node>)
      requires Ready() && n.Assign?
      modifies this, current
      ensures Ready() && (r.Success? ==> current == old(current))
      ensures Agrees(r, Analysis.VisitAssign(old(State()), n), State())
      decreases Size(n), 1
    {
      if !(n.left.Var? || n.left.Declarations?) {
        return Failure(HostFault(InvalidNodeType));
      }
      var leftType :- Visit(n.left);
      var rightType :- Visit(n.right);
      if leftType.0.None? || rightType.0.None? {
        return Failure(HostFault(NullReference));
      }
      if leftType.0.value.name != rightType.0.value.name {
        return Failure(Incompatible(Some(n.token)));
      }
      r := Success((None, Node.Assign(leftType.1, n.token, rightType.1)));
    }

    method VisitFunctionDefinition(n: Node) returns (r: Visited<Node>)
      requires Ready() && n.FunctionDef?
      modifies this, current
      ensures Ready() && (r.Success? ==> current == old(current))
      ensures Agrees(r, Analysis.VisitFunctionDefinition(old(State()), n), State())
      decreases Size(n), 1
    {
      ghost var st0 := State();
      var functionSymbol :- OpenFunctionScope(n);
      ghost var inner := State();
      assert Analysis.OpenFunctionScope(st0, n) == Success((inner, functionSymbol));
      var returnedType :- Visit(n.body);
      ghost var afterBody := State();
      assert Analysis.Visit(inner, n.body) == Success(Typed(returnedType.0, returnedType.1, afterBody));
      var _ :- ReturnCheck(TypeName(n.returnType), functionSymbol.returnType, returnedType.0, n.body, n.token);
      AttachBody(functionSymbol.id, returnedType.1);
      LeaveScope();
      r := Success((None, FunctionDef(n.token, n.returnType, n.params, returnedType.1)));
    }

    /** Up to the body: the function symbol defined here, a fresh table for
        the function made current, the parameters defined in it and listed
        on the function symbol. */
    method OpenFunctionScope(n: Node) returns (r: Result<Symbol, AnalysisError>)
      requires Ready() && n.FunctionDef?
      modifies this, current
      ensures Ready() && (r.Success? ==> fresh(current) && current.enclosing == old(current))
      ensures var spec := Analysis.OpenFunctionScope(old(State()), n);
              if spec.Success? then r == Success(spec.value.1) && State() == spec.value.0
              else r == Failure(spec.error)
    {
      ghost var st0 := State();
      var typeSymbol := current.LookupSingle(TypeName(n.returnType), false);
      var functionName := Name(n.token);
      var functionSymbol := FunctionSym(functionName, typeSymbol, nextId);
      if current.LookupSingle(functionName, true).Some? {
        return Failure(SemanticError(DuplicateIdentifier, Some(n.token)));
      }
      var index := |current.symbols|;
      assert functionSymbol == NewFunctionSymbol(st0, n);
      DefineSymbol(functionSymbol);
      nextId := nextId + 1;
      ghost var defined := State();
      assert defined == DefineFunction(st0, n);
      EnterScope(functionName);
      ghost var entered := State();
      assert entered == Enter(defined, functionName);
      var parameters := DefineParameters(n.params);
      ghost var ps := VisitParameters(entered, n.params);
      if parameters.Failure? {
        assert ps.Failure? && Analysis.OpenFunctionScope(st0, n) == Failure(ps.error);
        return Failure(parameters.error);
      }
      functionSymbol := current.enclosing.symbols[index].(params := parameters.value);
      assert functionSymbol == defined.env[0].symbols[index].(params := ps.value.0);
      UpdateEnclosingSymbol(index, functionSymbol);
      assert Analysis.OpenFunctionScope(st0, n) == Success((Analysis.UpdateSymbol(ps.value.1, 1, index, functionSymbol), functionSymbol));
      r := Success(functionSymbol);
    }

    /** The parameter loop: each parameter defined in the current table. */
    method DefineParameters(params: seq<Param>) returns (r: Result<seq<Symbol>, AnalysisError>)
      requires Ready()
      modifies current
      ensures Ready()
      ensures var spec := VisitParameters(old(State()), params);
              if spec.Success? then r == Success(spec.value.0) && State() == spec.value.1
              else r == Failure(spec.error)
    {
      var parameters: seq<Symbol> := [];
      var i := 0;
      PrependParamsNothing(VisitParameters(old(State()), params));
      while i < |params|
        invariant 0 <= i <= |params| && Ready()
        invariant VisitParameters(old(State()), params) == PrependParams(parameters, VisitParameters(State(), params[i..]))
        decreases |params| - i
      {
        assert params[i..][1..] == params[i + 1..];
        var paramSymbol :- DefineParameter(params[i]);
        ghost var before := parameters;
        parameters := parameters + [paramSymbol];
        i := i + 1;
        PrependParamsConcat(before, [paramSymbol], VisitParameters(State(), params[i..]));
      }
      assert params[i..] == [] && parameters + [] == parameters;
      r := Success(parameters);
    }

    method DefineParameter(param: Param) returns (r: Result<Symbol, AnalysisError>)
      requires Ready()
      modifies current
      ensures Ready()
      ensures var spec := VisitParameter(old(State()), param);
              if spec.Success? then r == Success(spec.value.0) && State() == spec.value.1
              else r == Failure(spec.error)
    {
      var paramName := VariableName(param.variable);
      var paramType := current.LookupSingle(TypeName(param.ptype), false);
      var paramSymbol := VariableSym(paramName, paramType);
      if current.LookupSingle(paramName, true).Some? {
        return Failure(SemanticError(DuplicateIdentifier, Some(param.variable.token)));
      }
      var level := current.level;
      DefineSymbol(paramSymbol);
      r := Success(paramSymbol.(scopeLevel := level));
    }

    method VisitFunctionCall(n: Node) returns (r: Visited<Node>)
      requires Ready() && n.Call?
      modifies this, current
      ensures Ready() && (r.Success? ==> current == old(current))
      ensures Agrees(r, Analysis.VisitFunctionCall(old(State()), n), State())
      decreases Size(n), 1
    {
      var functionSymbol := current.LookupSingle(n.name, false);
      if functionSymbol.None? {
        return Failure(SemanticError(IdentifierNotFound, Some(n.token)));
      }
      if !IsFunction(functionSymbol.value) {
        return Failure(HostFault(NullReference));
      }
      var formalParameters := functionSymbol.value.params;
      var actualParameters := n.args;
      if |formalParameters| != |actualParameters| && functionSymbol.value.name != "print" {
        return Failure(SemanticError(WrongParamNumber, Some(n.token)));
      }
      var args :- VisitActualParameters(actualParameters, formalParameters);
      r := Success((functionSymbol.value.returnType, Call(n.token, n.name, args.1, functionSymbol)));
    }

    /** The loop over the formal parameters, checking the argument at each
        position; the arguments past the formals are left as they are. */
    method VisitActualParameters(actualParameters: seq<Node>, formalParameters: seq<Symbol>) returns (r: Visited<seq<Node>>)
      requires Ready()
      modifies this, current
      ensures Ready() && (r.Success? ==> current == old(current))
      ensures Agrees(r, VisitArguments(old(State()), actualParameters, formalParameters), State())
      decreases SizeSeq(actualParameters), 4
    {
      ghost var st0 := State();
      var args: seq<Node> := [];
      var i := 0;
      PrependNothing(VisitArguments(st0, actualParameters, formalParameters));
      while i < |formalParameters|
        invariant 0 <= i <= |formalParameters| && i <= |actualParameters| && Ready() && current == old(current)
        invariant VisitArguments(st0, actualParameters, formalParameters) ==
                  Prepend(args, VisitArguments(State(), actualParameters[i..], formalParameters[i..]))
        decreases |formalParameters| - i
      {
        if i == |actualParameters| {
          return Failure(HostFault(IndexOutOfRange));
        }
        var param := actualParameters[i];
        SizeSeqElement(actualParameters, i);
        assert actualParameters[i..][1..] == actualParameters[i + 1..];
        assert formalParameters[i..][1..] == formalParameters[i + 1..];
        var actualParamType :- Visit(param);
        var formalParamType := formalParameters[i].ty;
        if actualParamType.0.None? || formalParamType.None? {
          return Failure(HostFault(NullReference));
        }
        if actualParamType.0.value.name != formalParamType.value.name {
          return Failure(Incompatible(NodeToken(param)));
        }
        ghost var before := args;
        args := args + [actualParamType.1];
        i := i + 1;
        PrependConcat(before, [actualParamType.1], VisitArguments(State(), actualParameters[i..], formalParameters[i..]));
      }
      assert formalParameters[i..] == [];
      r := Success((None, args + actualParameters[i..]));
    }

    method VisitReturnStatement(n: Node) returns (r: Visited<Node>)
      requires Ready() && n.Return?
      modifies this, current
      ensures Ready() && (r.Success? ==> current == old(current))
      ensures Agrees(r, Analysis.Visit(old(State()), n), State())
      decreases Size(n), 1
    {
      if n.expr.Some? {
        assert SizeOpt(n.expr) == Size(n.expr.value);
        var x :- Visit(n.expr.value);
        return Success((x.0, Node.Return(n.token, Some(x.1))));
      }
      r := Success((current.LookupSingle("void", false), n));
    }

    /** A node visited in a fresh table one level deeper, after which the
        current table is the enclosing one again. */
    method VisitScoped(scopeName: string, n: Node) returns (r: Visited<Node>)
      requires Ready()
      modifies this, current
      ensures Ready() && (r.Success? ==> current == old(current))
      ensures Agrees(r, Analysis.VisitScoped(old(State()), scopeName, n), State())
      decreases Size(n), 4
    {
      EnterScope(scopeName);
      var x :- Visit(n);
      LeaveScope();
      r := Success(x);
    }

    method VisitIfElseStatement(n: Node) returns (r: Visited<Node>)
      requires Ready() && n.IfElse?
      modifies this, current
      ensures Ready() && (r.Success? ==> current == old(current))
      ensures Agrees(r, Analysis.VisitIfElse(old(State()), n), State())
      decreases Size(n), 1
    {
      var conditionType :- Visit(n.cond);
      var _ :- ConditionCheck(conditionType.0, n.token);
      var ifTrue :- VisitScoped("if", n.ifTrue);
      var elifs :- VisitElifStatements(n.token, n.elifs, ifTrue.0);
      if n.elseBranch.None? {
        return Success((elifs.0, IfElse(n.token, conditionType.1, ifTrue.1, elifs.1, None)));
      }
      assert SizeOpt(n.elseBranch) == Size(n.elseBranch.value);
      var elseType :- VisitScoped("else", n.elseBranch.value);
      var returnType :- BranchMerge(elifs.0, elseType.0, n.token);
      r := Success((returnType, IfElse(n.token, conditionType.1, ifTrue.1, elifs.1, Some(elseType.1))));
    }

    /** The loop over the elifs, merging each one's type into the if's. */
    method VisitElifStatements(token: Token, elifs: seq<Elif>, ifType: Option<Symbol>) returns (r: Visited<seq<Elif>>)
      requires Ready()
      modifies this, current
      ensures Ready() && (r.Success? ==> current == old(current))
      ensures Agrees(r, VisitElifs(old(State()), token, elifs, ifType), State())
      decreases SizeElifs(elifs), 5
    {
      ghost var st0 := State();
      var returnType := ifType;
      var visited: seq<Elif> := [];
      var i := 0;
      PrependNothing(VisitElifs(st0, token, elifs, ifType));
      while i < |elifs|
        invariant 0 <= i <= |elifs| && Ready() && current == old(current)
        invariant VisitElifs(st0, token, elifs, ifType) == Prepend(visited, VisitElifs(State(), token, elifs[i..], returnType))
        decreases |elifs| - i
      {
        var elif := elifs[i];
        SizeElifsElement(elifs, i);
        assert elifs[i..][1..] == elifs[i + 1..];
        var elifType :- VisitElifStatement(elif);
        var merged :- BranchMerge(returnType, elifType.0, token);
        ghost var before := visited;
        returnType := merged;
        visited := visited + [elifType.1];
        i := i + 1;
        PrependConcat(before, [elifType.1], VisitElifs(State(), token, elifs[i..], returnType));
      }
      assert elifs[i..] == [] && visited + [] == visited;
      r := Success((returnType, visited));
    }

    method VisitElifStatement(e: Elif) returns (r: Visited<Elif>)
      requires Ready()
      modifies this, current
      ensures Ready() && (r.Success? ==> current == old(current))
      ensures Agrees(r, Analysis.VisitElif(old(State()), e), State())
      decreases SizeElif(e), 4
    {
      var conditionType :- Visit(e.cond);
      var _ :- ConditionCheck(conditionType.0, e.token);
      var ifTrue :- VisitScoped("if", e.ifTrue);
      r := Success((ifTrue.0, Elif.Elif(e.token, conditionType.1, ifTrue.1)));
    }

    method VisitWhileStatement(n: Node) returns (r: Visited<Node>)
      requires Ready() && n.While?
      modifies this, current
      ensures Ready() && (r.Success? ==> current == old(current))
      ensures Agrees(r, Analysis.VisitWhile(old(State()), n), State())
      decreases Size(n), 1
    {
      var conditionType :- Visit(n.cond);
      var _ :- ConditionCheck(conditionType.0, n.token);
      var body :- VisitScoped("while", n.body);
      r := Success((body.0, Node.While(n.token, conditionType.1, body.1)));
    }

    method VisitForStatement(n: Node) returns (r: Visited<Node>)
      requires Ready() && n.For?
      modifies this, current
      ensures Ready() && (r.Success? ==> current == old(current))
      ensures Agrees(r, Analysis.VisitFor(old(State()), n), State())
      decreases Size(n), 1
    {
      EnterScope("for");
      var inits :- VisitEach(n.inits);
      var forCond: Option<Node> := None;
      if n.forCond.Some? {
        assert SizeOpt(n.forCond) == Size(n.forCond.value);
        var condition :- Visit(n.forCond.value);
        forCond := Some(condition.1);
      }
      var steps :- VisitEach(n.steps);
      var body :- Visit(n.body);
      LeaveScope();
      r := Success((body.0, Node.For(n.token, inits, forCond, steps, body.1)));
    }

    /** Visits each node in order, ignoring their types. */
    method VisitEach(ns: seq<Node>) returns (r: Result<seq<Node>, AnalysisError>)
      requires Ready()
      modifies this, current
      ensures Ready() && (r.Success? ==> current == old(current))
      ensures var spec := VisitAll(old(State()), ns);
              if spec.Success? then r == Success(spec.value.node) && State() == spec.value.st
              else r == Failure(spec.error)
      decreases SizeSeq(ns), 4
    {
      ghost var st0 := State();
      var visited: seq<Node> := [];
      var i := 0;
      PrependNothing(VisitAll(st0, ns));
      while i < |ns|
        invariant 0 <= i <= |ns| && Ready() && current == old(current)
        invariant VisitAll(st0, ns) == Prepend(visited, VisitAll(State(), ns[i..]))
        decreases |ns| - i
      {
        SizeSeqElement(ns, i);
        assert ns[i..][1..] == ns[i + 1..];
        var x :- Visit(ns[i]);
        ghost var before := visited;
        visited := visited + [x.1];
        i := i + 1;
        PrependConcat(before, [x.1], VisitAll(State(), ns[i..]));
      }
      assert ns[i..] == [] && visited + [] == visited;
      r := Success(visited);
    }
  }
}
