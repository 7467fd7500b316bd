// What a visit does to the scope chain: it only adds symbols to the current
// scope and hands out fresh function identities; every scope a visit opens
// is closed again, so the chain keeps its depth and its enclosing scopes.
module AnalysisFrames {
  import opened Wrappers
  import opened Tokens
  import opened Symbols
  import opened Ast
  import opened SymbolTables
  import opened Analysis

  lemma ExtendsReflexive(st: St)
    requires |st.env| > 0
    ensures Extends(st, st)
  {
  }

  /** A visit in a nested scope leaves the chain as it was, up to the
      function identities it hands out. */
  lemma ScopedRestores(st: St, name: string, n: Node)
    requires |st.env| > 0
    ensures VisitScoped(st, name, n).Success? ==>
              VisitScoped(st, name, n).value.st.env == st.env &&
              st.nextId <= VisitScoped(st, name, n).value.st.nextId
    decreases Size(n), 4
  {
    var x := Visit(Enter(st, name), n);
    if x.Success? {
      VisitExtends(Enter(st, name), n);
    }
  }

  lemma {:induction false} VisitExtends(st: St, n: Node)
    requires |st.env| > 0
    ensures Visit(st, n).Success? ==> Extends(st, Visit(st, n).value.st)
    decreases Size(n), 3
  {
    match n
    case Empty =>
    case Number(_) =>
    case BoolLit(_) =>
    case StringLit(_) =>
    case Compound(_, _) => CompoundExtends(st, n);
    case BinOp(_, _, _) => BinaryOperatorExtends(st, n);
    case UnOp(_, e) => VisitExtends(st, e);
    case Var(v) =>
    case Declarations(_) => DeclarationsExtends(st, n.decls, None);
    case ArrayInit(_, _) => ItemsExtends(st, n.token, n.items, None);
    case Index(_, _, _) => IndexExtends(st, n);
    case Assign(_, _, _) => AssignExtends(st, n);
    case FunctionDef(_, _, _, _) => FunctionDefinitionExtends(st, n);
    case Call(_, _, _, _) => CallExtends(st, n);
    case Return(_, e) =>
      if e.Some? {
        assert SizeOpt(e) == Size(e.value);
        VisitExtends(st, e.value);
      }
    case Break(_) =>
    case Continue(_) =>
    case IfElse(_, _, _, _, _) => IfElseExtends(st, n);
    case While(_, _, _) => WhileExtends(st, n);
    case For(_, _, _, _, _) => ForExtends(st, n);
  }

  lemma {:induction false} CompoundExtends(st: St, n: Node)
    requires |st.env| > 0 && n.Compound?
    ensures VisitCompound(st, n).Success? ==> Extends(st, VisitCompound(st, n).value.st)
    decreases Size(n), 2
  {
    ChildrenExtends(st, n.children, None);
  }

  lemma {:induction false} ChildrenExtends(st: St, children: seq<Node>, returnType: Option<Symbol>)
    requires |st.env| > 0
    ensures VisitChildren(st, children, returnType).Success? ==> Extends(st, VisitChildren(st, children, returnType).value.st)
    decreases SizeSeq(children), 4
  {
    if children != [] {
      var first := Visit(st, children[0]);
      if first.Success? {
        VisitExtends(st, children[0]);
        var rt := CompoundMerge(returnType, first.value.ty, children[0]);
        if rt.Success? {
          ChildrenExtends(first.value.st, children[1..], rt.value);
          var rest := VisitChildren(first.value.st, children[1..], rt.value);
          if rest.Success? {
            ExtendsTransitive(st, first.value.st, rest.value.st);
          }
        }
      }
    }
  }

  lemma {:induction false} BinaryOperatorExtends(st: St, n: Node)
    requires |st.env| > 0 && n.BinOp?
    ensures VisitBinaryOperator(st, n).Success? ==> Extends(st, VisitBinaryOperator(st, n).value.st)
    decreases Size(n), 2
  {
    var left := Visit(st, n.left);
    if left.Success? {
      VisitExtends(st, n.left);
      var right := Visit(left.value.st, n.right);
      if right.Success? {
        VisitExtends(left.value.st, n.right);
        ExtendsTransitive(st, left.value.st, right.value.st);
      }
    }
  }

  lemma {:induction false} DeclarationsExtends(st: St, decls: seq<Decl>, variableType: Option<Symbol>)
    requires |st.env| > 0
    ensures VisitDeclarations(st, decls, variableType).Success? ==> Extends(st, VisitDeclarations(st, decls, variableType).value.st)
    decreases |decls|
  {
    if decls != [] {
      var first := VisitVariableDeclaration(st, decls[0]);
      if first.Success? {
        var vt := if variableType.None? then first.value.ty else variableType;
        DeclarationsExtends(first.value.st, decls[1..], vt);
        var rest := VisitDeclarations(first.value.st, decls[1..], vt);
        if rest.Success? {
          ExtendsTransitive(st, first.value.st, rest.value.st);
        }
      }
    }
  }

  lemma {:induction false} ItemsExtends(st: St, token: Token, items: seq<Node>, itemType: Option<Symbol>)
    requires |st.env| > 0
    ensures VisitItems(st, token, items, itemType).Success? ==> Extends(st, VisitItems(st, token, items, itemType).value.st)
    decreases SizeSeq(items), 4
  {
    if items != [] {
      var first := Visit(st, items[0]);
      if first.Success? {
        VisitExtends(st, items[0]);
        var it := ItemMerge(itemType, first.value.ty, token);
        if it.Success? {
          ItemsExtends(first.value.st, token, items[1..], it.value);
          var rest := VisitItems(first.value.st, token, items[1..], it.value);
          if rest.Success? {
            ExtendsTransitive(st, first.value.st, rest.value.st);
          }
        }
      }
    }
  }

  lemma {:induction false} IndexExtends(st: St, n: Node)
    requires |st.env| > 0 && n.Index?
    ensures VisitIndexExpression(st, n).Success? ==> Extends(st, VisitIndexExpression(st, n).value.st)
    decreases Size(n), 2
  {
    var indexed := Visit(st, n.indexed);
    if indexed.Success? {
      VisitExtends(st, n.indexed);
      var index := Visit(indexed.value.st, n.index);
      if index.Success? {
        VisitExtends(indexed.value.st, n.index);
        ExtendsTransitive(st, indexed.value.st, index.value.st);
      }
    }
  }

  lemma {:induction false} AssignExtends(st: St, n: Node)
    requires |st.env| > 0 && n.Assign?
    ensures VisitAssign(st, n).Success? ==> Extends(st, VisitAssign(st, n).value.st)
    decreases Size(n), 2
  {
    if n.left.Var? || n.left.Declarations? {
      var left := Visit(st, n.left);
      if left.Success? {
        VisitExtends(st, n.left);
        var right := Visit(left.value.st, n.right);
        if right.Success? {
          VisitExtends(left.value.st, n.right);
          ExtendsTransitive(st, left.value.st, right.value.st);
        }
      }
    }
  }

  lemma {:induction false} CallExtends(st: St, n: Node)
    requires |st.env| > 0 && n.Call?
    ensures VisitFunctionCall(st, n).Success? ==> Extends(st, VisitFunctionCall(st, n).value.st)
    decreases Size(n), 2
  {
    var fs := Lookup(st, n.name, false);
    if fs.Some? && IsFunction(fs.value) {
      ArgumentsExtends(st, n.args, fs.value.params);
    }
  }

  lemma {:induction false} ArgumentsExtends(st: St, args: seq<Node>, formals: seq<Symbol>)
    requires |st.env| > 0
    ensures VisitArguments(st, args, formals).Success? ==> Extends(st, VisitArguments(st, args, formals).value.st)
    decreases SizeSeq(args), 4
  {
    if formals != [] && args != [] {
      var actual := Visit(st, args[0]);
      if actual.Success? {
        VisitExtends(st, args[0]);
        ArgumentsExtends(actual.value.st, args[1..], formals[1..]);
        var rest := VisitArguments(actual.value.st, args[1..], formals[1..]);
        if rest.Success? {
          ExtendsTransitive(st, actual.value.st, rest.value.st);
        }
      }
    }
  }

  /** The parameters go to the function's own scope, after what it holds,
      as the symbols the function symbol lists. */
  lemma {:induction false} ParametersExtend(st: St, params: seq<Param>)
    requires |st.env| > 0
    ensures var r := VisitParameters(st, params);
            r.Success? ==>
              Extends(st, r.value.1) && r.value.1.nextId == st.nextId &&
              r.value.1.env[0].symbols == st.env[0].symbols + r.value.0
    decreases |params|
  {
    if params != [] {
      var first := VisitParameter(st, params[0]);
      if first.Success? {
        ParametersExtend(first.value.1, params[1..]);
        var rest := VisitParameters(first.value.1, params[1..]);
        if rest.Success? {
          ExtendsTransitive(st, first.value.1, rest.value.1);
          assert st.env[0].symbols + ([first.value.0] + rest.value.0) == st.env[0].symbols + [first.value.0] + rest.value.0;
        }
      }
    }
  }

  /** One parameter symbol per parameter, named after it, in order. */
  lemma {:induction false} ParameterNames(st: St, params: seq<Param>)
    requires |st.env| > 0
    ensures var r := VisitParameters(st, params);
            r.Success? ==>
              |r.value.0| == |params| &&
              forall i :: 0 <= i < |params| ==> r.value.0[i].name == VariableName(params[i].variable)
    decreases |params|
  {
    if params != [] {
      var first := VisitParameter(st, params[0]);
      if first.Success? {
        ParameterNames(first.value.1, params[1..]);
        var rest := VisitParameters(first.value.1, params[1..]);
        if rest.Success? {
          var all := [first.value.0] + rest.value.0;
          forall i | 0 <= i < |params|
            ensures all[i].name == VariableName(params[i].variable)
          {
            if i > 0 {
              assert all[i] == rest.value.0[i - 1];
              assert params[i] == params[1..][i - 1];
            }
          }
        }
      }
    }
  }

  /** The scopes after a function's parameters are defined: the enclosing
      scope has gained the completed function symbol, and the function's own
      scope, one level deeper and named after it, holds the seeded symbols
      and then the parameters. */
  predicate FunctionScopes(st: St, n: Node, inner: St, f: Symbol)
    requires |st.env| > 0 && n.FunctionDef?
  {
    var level := st.env[0].level;
    |inner.env| == |st.env| + 1 &&
    inner.env[0] == Scope(Name(n.token), level + 1, Seeded(level + 1) + f.params) &&
    inner.env[1..] == [st.env[0].(symbols := st.env[0].symbols + [f])] + st.env[1..] &&
    inner.nextId == st.nextId + 1
  }

  /** The function symbol: named after the function, with the looked-up
      return type, the next identity, the current level, and one parameter
      symbol per parameter, named after it, in order. */
  predicate FunctionSymbolOf(st: St, n: Node, f: Symbol)
    requires |st.env| > 0 && n.FunctionDef?
  {
    f.name == Name(n.token) && f.cls == Function && f.id == st.nextId &&
    f.returnType == Lookup(st, TypeName(n.returnType), false) && f.scopeLevel == st.env[0].level &&
    |f.params| == |n.params| &&
    forall i :: 0 <= i < |n.params| ==> f.params[i].name == VariableName(n.params[i].variable)
  }

  lemma OpenFunctionScopeShape(st: St, n: Node)
    requires |st.env| > 0 && n.FunctionDef?
    ensures var r := OpenFunctionScope(st, n);
            r.Success? ==> FunctionScopes(st, n, r.value.0, r.value.1)
  {
    var functionName := Name(n.token);
    if Lookup(st, functionName, true).None? {
      var defined := DefineFunction(st, n);
      var scope := Enter(defined, functionName);
      ParametersExtend(scope, n.params);
      var ps := VisitParameters(scope, n.params);
      if ps.Success? {
        var index := |st.env[0].symbols|;
        var f := defined.env[0].symbols[index].(params := ps.value.0);
        var inner := UpdateSymbol(ps.value.1, 1, index, f);
        assert ps.value.1.env[1..] == scope.env[1..];
        assert defined.env[0].symbols[index := f] == st.env[0].symbols + [f];
        assert inner.env[1..] == [ps.value.1.env[1].(symbols := ps.value.1.env[1].symbols[index := f])] + ps.value.1.env[2..];
      }
    }
  }

  lemma FunctionSymbolShape(st: St, n: Node)
    requires |st.env| > 0 && n.FunctionDef?
    ensures var r := OpenFunctionScope(st, n);
            r.Success? ==> FunctionSymbolOf(st, n, r.value.1)
  {
    var functionName := Name(n.token);
    if Lookup(st, functionName, true).None? {
      var defined := DefineFunction(st, n);
      var scope := Enter(defined, functionName);
      ParameterNames(scope, n.params);
      var ps := VisitParameters(scope, n.params);
      if ps.Success? {
        var index := |st.env[0].symbols|;
        assert defined.env[0].symbols[index] == NewFunctionSymbol(st, n).(scopeLevel := st.env[0].level);
      }
    }
  }

  lemma {:induction false} FunctionDefinitionExtends(st: St, n: Node)
    requires |st.env| > 0 && n.FunctionDef?
    ensures VisitFunctionDefinition(st, n).Success? ==> Extends(st, VisitFunctionDefinition(st, n).value.st)
    decreases Size(n), 2
  {
    var r := OpenFunctionScope(st, n);
    if r.Success? {
      OpenFunctionScopeShape(st, n);
      var inner := r.value.0;
      var body := Visit(inner, n.body);
      if body.Success? {
        VisitExtends(inner, n.body);
        assert body.value.st.env[1..] == inner.env[1..];
      }
    }
  }

  lemma {:induction false} IfElseExtends(st: St, n: Node)
    requires |st.env| > 0 && n.IfElse?
    ensures VisitIfElse(st, n).Success? ==> Extends(st, VisitIfElse(st, n).value.st)
    decreases Size(n), 2
  {
    var condition := Visit(st, n.cond);
    if condition.Success? {
      VisitExtends(st, n.cond);
      if ConditionCheck(condition.value.ty, n.token).Success? {
        var ifTrue := VisitScoped(condition.value.st, "if", n.ifTrue);
        ScopedRestores(condition.value.st, "if", n.ifTrue);
        if ifTrue.Success? {
          var elifs := VisitElifs(ifTrue.value.st, n.token, n.elifs, ifTrue.value.ty);
          ElifsExtend(ifTrue.value.st, n.token, n.elifs, ifTrue.value.ty);
          if elifs.Success? && n.elseBranch.Some? {
            assert SizeOpt(n.elseBranch) == Size(n.elseBranch.value);
            ScopedRestores(elifs.value.st, "else", n.elseBranch.value);
          }
        }
      }
    }
  }

  lemma {:induction false} ElifExtends(st: St, e: Elif)
    requires |st.env| > 0
    ensures VisitElif(st, e).Success? ==> Extends(st, VisitElif(st, e).value.st)
    decreases SizeElif(e), 4
  {
    var condition := Visit(st, e.cond);
    if condition.Success? {
      VisitExtends(st, e.cond);
      if ConditionCheck(condition.value.ty, e.token).Success? {
        ScopedRestores(condition.value.st, "if", e.ifTrue);
      }
    }
  }

  lemma {:induction false} ElifsExtend(st: St, token: Token, elifs: seq<Elif>, returnType: Option<Symbol>)
    requires |st.env| > 0
    ensures VisitElifs(st, token, elifs, returnType).Success? ==> Extends(st, VisitElifs(st, token, elifs, returnType).value.st)
    decreases SizeElifs(elifs), 5
  {
    if elifs != [] {
      var first := VisitElif(st, elifs[0]);
      if first.Success? {
        ElifExtends(st, elifs[0]);
        var rt := BranchMerge(returnType, first.value.ty, token);
        if rt.Success? {
          ElifsExtend(first.value.st, token, elifs[1..], rt.value);
          var rest := VisitElifs(first.value.st, token, elifs[1..], rt.value);
          if rest.Success? {
            ExtendsTransitive(st, first.value.st, rest.value.st);
          }
        }
      }
    }
  }

  lemma {:induction false} WhileExtends(st: St, n: Node)
    requires |st.env| > 0 && n.While?
    ensures VisitWhile(st, n).Success? ==> Extends(st, VisitWhile(st, n).value.st)
    decreases Size(n), 2
  {
    var condition := Visit(st, n.cond);
    if condition.Success? {
      VisitExtends(st, n.cond);
      if ConditionCheck(condition.value.ty, n.token).Success? {
        ScopedRestores(condition.value.st, "while", n.body);
      }
    }
  }

  lemma {:induction false} ForExtends(st: St, n: Node)
    requires |st.env| > 0 && n.For?
    ensures VisitFor(st, n).Success? ==> Extends(st, VisitFor(st, n).value.st)
    decreases Size(n), 2
  {
    var scope := Enter(st, "for");
    var inits := VisitAll(scope, n.inits);
    if inits.Success? {
      AllExtend(scope, n.inits);
      var condition := VisitOptional(inits.value.st, n.forCond);
      if condition.Success? {
        if n.forCond.Some? {
          assert SizeOpt(n.forCond) == Size(n.forCond.value);
          VisitExtends(inits.value.st, n.forCond.value);
        }
        var steps := VisitAll(condition.value.st, n.steps);
        if steps.Success? {
          AllExtend(condition.value.st, n.steps);
          var body := Visit(steps.value.st, n.body);
          if body.Success? {
            VisitExtends(steps.value.st, n.body);
            ExtendsTransitive(scope, inits.value.st, condition.value.st);
            ExtendsTransitive(scope, condition.value.st, steps.value.st);
            ExtendsTransitive(scope, steps.value.st, body.value.st);
          }
        }
      }
    }
  }

  lemma {:induction false} AllExtend(st: St, ns: seq<Node>)
    requires |st.env| > 0
    ensures VisitAll(st, ns).Success? ==> Extends(st, VisitAll(st, ns).value.st)
    decreases SizeSeq(ns), 4
  {
    if ns != [] {
      var first := Visit(st, ns[0]);
      if first.Success? {
        VisitExtends(st, ns[0]);
        AllExtend(first.value.st, ns[1..]);
        var rest := VisitAll(first.value.st, ns[1..]);
        if rest.Success? {
          ExtendsTransitive(st, first.value.st, rest.value.st);
        }
      }
    }
  }
}
