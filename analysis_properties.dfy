// What the semantic analyser's rules mean, stated over the functions of
// module Analysis: which programs each visit rejects, with which error, and
// what a successful visit yields.
module AnalysisProperties {
  import opened Wrappers
  import opened Tokens
  import opened Symbols
  import opened Ast
  import opened SymbolTables
  import opened Analysis
  import opened AnalysisFrames

  // -------------------------------------------------------------------------
  // Declarations and references

  /** A declaration is rejected exactly when its name is already in the
      current scope; a name of an enclosing scope is shadowed, and the new
      variable is what a lookup then finds. */
  lemma DeclarationRules(st: St, d: Decl)
    requires |st.env| > 0
    ensures var name := VariableName(d.variable);
            HasName(st.env[0].symbols, name) ==>
              VisitVariableDeclaration(st, d) == Failure(SemanticError(DuplicateIdentifier, Some(d.variable.token)))
    ensures var name := VariableName(d.variable);
            var r := VisitVariableDeclaration(st, d);
            !HasName(st.env[0].symbols, name) ==>
              r.Success? && r.value.ty == DeclaredType(st, d) && r.value.st.env[1..] == st.env[1..] &&
              Lookup(r.value.st, name, false) == Some(VariableSym(name, DeclaredType(st, d)).(scopeLevel := st.env[0].level))
  {
    var name := VariableName(d.variable);
    var syms := st.env[0].symbols;
    OnlyCurrentScope(st.env, name);
    FirstNamedIsFirst(syms, name);
    if !HasName(syms, name) {
      var s := VariableSym(name, DeclaredType(st, d)).(scopeLevel := st.env[0].level);
      var after := Define(st, VariableSym(name, DeclaredType(st, d)));
      assert after.env[0].symbols == syms + [s];
      FirstNamedAt(syms + [s], |syms|, name);
    }
  }

  /** A reference to a name no scope of the chain has is rejected. */
  lemma UnknownVariableRejected(st: St, v: VarRef)
    requires |st.env| > 0
    requires forall j :: 0 <= j < |st.env| ==> !HasName(st.env[j].symbols, VariableName(v))
    ensures Visit(st, Var(v)) == Failure(SemanticError(IdentifierNotFound, Some(v.token)))
  {
    LookupsMissUnknownName(st.env, VariableName(v));
  }

  /** A reference resolves in the innermost scope that has the name, to that
      scope's first symbol of the name, and has that symbol's type. */
  lemma VariableResolvesInnermost(st: St, v: VarRef, k: nat)
    requires |st.env| > 0 && InnermostWith(st.env, VariableName(v), k)
    ensures FirstNamed(st.env[k].symbols, VariableName(v)).Some? &&
            Visit(st, Var(v)) == Success(Typed(FirstNamed(st.env[k].symbols, VariableName(v)).value.ty, Var(v), st))
  {
    LookupsUseInnermostScope(st.env, VariableName(v), k);
  }

  // -------------------------------------------------------------------------
  // Operators

  /** Operands of equal types give the operator's type: `bool` (a plain
      symbol) for comparisons and logical operators, the left operand's type
      otherwise; operands of different classes or names are rejected. */
  lemma BinaryOperatorRules(st: St, n: Node)
    requires |st.env| > 0 && n.BinOp?
    requires Visit(st, n.left).Success? && Visit(Visit(st, n.left).value.st, n.right).Success?
    ensures var l := Visit(st, n.left).value;
            var r := Visit(l.st, n.right).value;
            Eq(l.ty, r.ty) ==>
              Visit(st, n) == Success(Typed(if IsBoolOperator(n.token.kind) then Some(PlainSym("bool")) else l.ty,
                                            BinOp(l.node, n.token, r.node), r.st))
    ensures var l := Visit(st, n.left).value;
            var r := Visit(l.st, n.right).value;
            l.ty.Some? && r.ty.Some? && (l.ty.value.cls != r.ty.value.cls || l.ty.value.name != r.ty.value.name) ==>
              Visit(st, n) == Failure(Incompatible(Some(n.token)))
  {
  }

  /** The builtin types as the seeded global scope resolves them, so the
      lemmas above that assume them hold there. */
  lemma InitialLookups(n: string)
    requires IsBuiltinName(n)
    ensures Lookup(InitialState(), n, false) == Some(BuiltinTypeSym(n))
  {
    SeededContents(1);
  }

  /** `x < y` on numbers yields the plain `bool` symbol. */
  lemma ComparisonType(st: St, x: Token, less: Token, y: Token)
    requires |st.env| > 0
    requires Lookup(st, "number", false) == Some(BuiltinTypeSym("number"))
    requires less.kind == Less
    ensures Visit(st, BinOp(Number(x), less, Number(y))) == Success(Typed(Some(PlainSym("bool")), BinOp(Number(x), less, Number(y)), st))
  {
    EqReflexive(Some(BuiltinTypeSym("number")));
    assert Visit(st, Number(x)) == Success(Typed(Some(BuiltinTypeSym("number")), Number(x), st));
    assert Visit(st, Number(y)) == Success(Typed(Some(BuiltinTypeSym("number")), Number(y), st));
    assert IsBoolOperator(less.kind);
  }

  /** A comparison yields a plain `bool` symbol while a `bool` literal has the
      builtin `bool` type, and equality tells the two classes apart: so
      `true && 1 < 2` is rejected, whatever the operator. */
  lemma ComparisonIsNotBuiltinBool(st: St, b: Token, op: Token, x: Token, less: Token, y: Token)
    requires |st.env| > 0
    requires Lookup(st, "bool", false) == Some(BuiltinTypeSym("bool"))
    requires Lookup(st, "number", false) == Some(BuiltinTypeSym("number"))
    requires less.kind == Less
    ensures Visit(st, BinOp(BoolLit(b), op, BinOp(Number(x), less, Number(y)))) == Failure(Incompatible(Some(op)))
  {
    ComparisonType(st, x, less, y);
    assert Visit(st, BoolLit(b)) == Success(Typed(Some(BuiltinTypeSym("bool")), BoolLit(b), st));
  }

  /** Two comparisons share the plain `bool` symbol, so `1 < 2 && 1 < 2` is
      accepted. */
  lemma ComparisonsCombine(st: St, and: Token, x: Token, less: Token, y: Token)
    requires |st.env| > 0
    requires Lookup(st, "number", false) == Some(BuiltinTypeSym("number"))
    requires less.kind == Less && and.kind == And
    ensures var cmp := BinOp(Number(x), less, Number(y));
            Visit(st, BinOp(cmp, and, cmp)) == Success(Typed(Some(PlainSym("bool")), BinOp(cmp, and, cmp), st))
  {
    ComparisonType(st, x, less, y);
    EqReflexive(Some(PlainSym("bool")));
  }

  // -------------------------------------------------------------------------
  // Array literals, indexing and blocks

  /** An array item's type: with no type yet the item gives it; after that
      the item's type must be `==` to it, and a null one fails on the
      dereference. */
  lemma ItemMergeRules(itemType: Option<Symbol>, current: Option<Symbol>, token: Token)
    ensures ItemMerge(itemType, current, token).Success? <==> itemType.None? || Eq(current, itemType)
    ensures itemType.None? ==> ItemMerge(itemType, current, token) == Success(current)
    ensures itemType.Some? && ItemMerge(itemType, current, token).Success? ==>
              ItemMerge(itemType, current, token) == Success(itemType)
    ensures itemType.Some? && current.None? ==> ItemMerge(itemType, current, token) == Failure(HostFault(NullReference))
    ensures itemType.Some? && current.Some? && !Eq(current, itemType) ==>
              ItemMerge(itemType, current, token) == Failure(Incompatible(Some(token)))
  {
  }

  /** Items visited in turn from `st`, each typed `==` to `t`. */
  ghost predicate ItemsTyped(st: St, items: seq<Node>, t: Option<Symbol>)
    requires |st.env| > 0
    decreases |items|
  {
    items == [] ||
    (Visit(st, items[0]).Success? && Eq(Visit(st, items[0]).value.ty, t) &&
     ItemsTyped(Visit(st, items[0]).value.st, items[1..], t))
  }

  /** Once an item type is set, the rest of a literal is accepted exactly
      when every item's visit succeeds with a type `==` to it, and the type
      stays. */
  lemma {:induction false} ItemsShareType(st: St, token: Token, items: seq<Node>, t: Option<Symbol>)
    requires |st.env| > 0 && t.Some?
    ensures VisitItems(st, token, items, t).Success? <==> ItemsTyped(st, items, t)
    ensures VisitItems(st, token, items, t).Success? ==> VisitItems(st, token, items, t).value.ty == t
    decreases |items|
  {
    if items != [] {
      var first := Visit(st, items[0]);
      if first.Success? {
        ItemMergeRules(t, first.value.ty, token);
        ItemsShareType(first.value.st, token, items[1..], t);
      }
    }
  }

  /** `[a, b, ...]`: an empty literal fails on its null item type; otherwise,
      when the first item is typed `T`, the literal is accepted exactly when
      every later item's type is `==` to `T`, and it is typed by the name
      `T_array`. */
  lemma ArrayInitialisationRules(st: St, token: Token, items: seq<Node>)
    requires |st.env| > 0
    ensures items == [] ==> Visit(st, ArrayInit(token, items)) == Failure(HostFault(NullReference))
    ensures items != [] && Visit(st, items[0]).Success? && Visit(st, items[0]).value.ty.Some? ==>
              var first := Visit(st, items[0]).value;
              var r := Visit(st, ArrayInit(token, items));
              (r.Success? <==> ItemsTyped(first.st, items[1..], first.ty)) &&
              (r.Success? ==> r.value.ty == Some(PlainSym(first.ty.value.name + "_array")))
  {
    if items == [] {
      assert VisitItems(st, token, items, None) == Success(Typed(None, [], st));
    }
    if items != [] && Visit(st, items[0]).Success? && Visit(st, items[0]).value.ty.Some? {
      var first := Visit(st, items[0]).value;
      ItemMergeRules(None, first.ty, token);
      ItemsShareType(first.st, token, items[1..], first.ty);
      var rest := VisitItems(first.st, token, items[1..], first.ty);
      assert VisitItems(st, token, items, None).Success? == rest.Success?;
      if rest.Success? {
        assert VisitItems(st, token, items, None).value.ty == rest.value.ty;
      }
    }
  }

  /** Removing a pattern from `s` followed by the pattern gives `s` back
      when no character of `s` can start the pattern. */
  lemma {:induction false} RemoveAllStripsSuffix(s: string, pattern: string)
    requires |pattern| > 0
    requires forall i :: 0 <= i < |s| ==> s[i] != pattern[0]
    ensures RemoveAll(s + pattern, pattern) == s
    decreases |s|
  {
    if s == [] {
      assert (s + pattern)[..|pattern|] == pattern;
      assert (s + pattern)[|pattern|..] == [];
    } else {
      assert (s + pattern)[0] != pattern[0];
      assert (s + pattern)[..|pattern|] != pattern by {
        assert (s + pattern)[..|pattern|][0] == (s + pattern)[0];
      }
      assert (s + pattern)[1..] == s[1..] + pattern;
      RemoveAllStripsSuffix(s[1..], pattern);
    }
  }

  /** The element type names of the builtin array types. */
  lemma ElementTypeNames(element: string)
    requires IsScalarName(element)
    ensures RemoveAll(element + ArrayTypeSuffix, ArrayTypeSuffix) == element
  {
    RemoveAllStripsSuffix(element, ArrayTypeSuffix);
  }

  /** `a[i]`: the index must be typed by the name `number` (a null type fails
      on the dereference), and the result is the type that the indexed
      type's name without `_array` resolves to. */
  lemma IndexTypingRules(st: St, n: Node)
    requires |st.env| > 0 && n.Index?
    requires Visit(st, n.indexed).Success? && Visit(Visit(st, n.indexed).value.st, n.index).Success?
    ensures var a := Visit(st, n.indexed).value;
            var i := Visit(a.st, n.index).value;
            i.ty.None? ==> Visit(st, n) == Failure(HostFault(NullReference))
    ensures var a := Visit(st, n.indexed).value;
            var i := Visit(a.st, n.index).value;
            i.ty.Some? && i.ty.value.name != "number" ==> Visit(st, n) == Failure(Incompatible(Some(n.token)))
    ensures var a := Visit(st, n.indexed).value;
            var i := Visit(a.st, n.index).value;
            i.ty.Some? && i.ty.value.name == "number" && a.ty.None? ==> Visit(st, n) == Failure(HostFault(NullReference))
    ensures var a := Visit(st, n.indexed).value;
            var i := Visit(a.st, n.index).value;
            i.ty.Some? && i.ty.value.name == "number" && a.ty.Some? ==>
              Visit(st, n) == Success(Typed(Lookup(i.st, RemoveAll(a.ty.value.name, ArrayTypeSuffix), false), Index(n.token, a.node, i.node), i.st))
  {
  }

  /** Indexing a `T_array` for a builtin `T` with a number yields the type
      `T` resolves to. */
  lemma IndexOfBuiltinArray(st: St, n: Node, element: string)
    requires |st.env| > 0 && n.Index? && IsScalarName(element)
    requires Visit(st, n.indexed).Success? && Visit(Visit(st, n.indexed).value.st, n.index).Success?
    requires Visit(st, n.indexed).value.ty.Some? && Visit(st, n.indexed).value.ty.value.name == element + ArrayTypeSuffix
    requires var i := Visit(Visit(st, n.indexed).value.st, n.index).value;
             i.ty.Some? && i.ty.value.name == "number"
    ensures var a := Visit(st, n.indexed).value;
            var i := Visit(a.st, n.index).value;
            Visit(st, n) == Success(Typed(Lookup(i.st, element, false), Index(n.token, a.node, i.node), i.st))
  {
    ElementTypeNames(element);
    IndexTypingRules(st, n);
  }

  /** A block's type: with no type yet the child gives it; after that the
      child must have a type of the same name, and a null one fails on the
      dereference. */
  lemma CompoundMergeRules(returnType: Option<Symbol>, current: Option<Symbol>, child: Node)
    ensures CompoundMerge(returnType, current, child).Success? <==>
              returnType.None? || (current.Some? && current.value.name == returnType.value.name)
    ensures returnType.None? ==> CompoundMerge(returnType, current, child) == Success(current)
    ensures returnType.Some? && CompoundMerge(returnType, current, child).Success? ==>
              CompoundMerge(returnType, current, child) == Success(returnType)
    ensures returnType.Some? && current.None? ==> CompoundMerge(returnType, current, child) == Failure(HostFault(NullReference))
    ensures returnType.Some? && current.Some? && current.value.name != returnType.value.name ==>
              CompoundMerge(returnType, current, child) == Failure(Incompatible(NodeToken(child)))
  {
  }

  /** Children visited in turn from `st`, each typed by the name `name`. */
  ghost predicate ChildrenNamed(st: St, children: seq<Node>, name: string)
    requires |st.env| > 0
    decreases |children|
  {
    children == [] ||
    (Visit(st, children[0]).Success? && Visit(st, children[0]).value.ty.Some? &&
     Visit(st, children[0]).value.ty.value.name == name &&
     ChildrenNamed(Visit(st, children[0]).value.st, children[1..], name))
  }

  /** Once a block's type is set, the rest of the block is accepted exactly
      when every child's visit succeeds with a type of that name, and the
      type stays. */
  lemma {:induction false} ChildrenKeepType(st: St, children: seq<Node>, t: Option<Symbol>)
    requires |st.env| > 0 && t.Some?
    ensures VisitChildren(st, children, t).Success? <==> ChildrenNamed(st, children, t.value.name)
    ensures VisitChildren(st, children, t).Success? ==> VisitChildren(st, children, t).value.ty == t
    decreases |children|
  {
    if children != [] {
      var first := Visit(st, children[0]);
      if first.Success? {
        CompoundMergeRules(t, first.value.ty, children[0]);
        ChildrenKeepType(first.value.st, children[1..], t);
      }
    }
  }

  /** `{ s1 s2 ... }`: an empty block has no type; a block whose first child
      is typed `T` is accepted exactly when every later child's type has
      `T`'s name, and is typed `T`. */
  lemma CompoundRules(st: St, token: Token, children: seq<Node>)
    requires |st.env| > 0
    ensures children == [] ==> Visit(st, Compound(token, children)) == Success(Typed(None, Compound(token, []), st))
    ensures children != [] && Visit(st, children[0]).Success? && Visit(st, children[0]).value.ty.Some? ==>
              var first := Visit(st, children[0]).value;
              var r := Visit(st, Compound(token, children));
              (r.Success? <==> ChildrenNamed(first.st, children[1..], first.ty.value.name)) &&
              (r.Success? ==> r.value.ty == first.ty)
  {
    if children == [] {
      assert VisitChildren(st, children, None) == Success(Typed(None, [], st));
    }
    if children != [] && Visit(st, children[0]).Success? && Visit(st, children[0]).value.ty.Some? {
      var first := Visit(st, children[0]).value;
      CompoundMergeRules(None, first.ty, children[0]);
      ChildrenKeepType(first.st, children[1..], first.ty);
      var rest := VisitChildren(first.st, children[1..], first.ty);
      assert VisitChildren(st, children, None).Success? == rest.Success?;
      if rest.Success? {
        assert VisitChildren(st, children, None).value.ty == rest.value.ty;
      }
    }
  }

  // -------------------------------------------------------------------------
  // Statements without a condition

  /** `return;` has the type `void`, `return e;` the type of `e` and
      whatever `e`'s visit does to the state. */
  lemma ReturnTypes(st: St, t: Token, e: Node)
    requires |st.env| > 0
    ensures Visit(st, Node.Return(t, None)) == Success(Typed(Lookup(st, "void", false), Node.Return(t, None), st))
    ensures var x := Visit(st, e);
            x.Success? ==> Visit(st, Node.Return(t, Some(e))) == Success(Typed(x.value.ty, Node.Return(t, Some(x.value.node)), x.value.st))
    ensures Visit(st, e).Failure? ==> Visit(st, Node.Return(t, Some(e))) == Failure(Visit(st, e).error)
  {
    assert SizeOpt(Some(e)) == Size(e);
  }

  /** `break` and `continue` have no type and change nothing. */
  lemma JumpsHaveNoType(st: St, t: Token)
    requires |st.env| > 0
    ensures Visit(st, Node.Break(t)) == Success(Typed(None, Node.Break(t), st))
    ensures Visit(st, Node.Continue(t)) == Success(Typed(None, Node.Continue(t), st))
  {
  }

  // -------------------------------------------------------------------------
  // Function definitions

  /** The names every new table is seeded with. */
  function SeededNames(): set<string> {
    {"void", "number", "bool", "string", "number_array", "bool_array", "string_array", "print"}
  }

  lemma NotSeeded(level: nat, name: string)
    requires name !in SeededNames()
    ensures !HasName(Seeded(level), name)
  {
    var b, a, p := BuiltinTypes(), ArrayTypes(level), PrintOverloads(level);
    assert "number" + ArrayTypeSuffix == "number_array";
    assert "bool" + ArrayTypeSuffix == "bool_array";
    assert "string" + ArrayTypeSuffix == "string_array";
    forall i | 0 <= i < |b + a + p|
      ensures (b + a + p)[i].name in SeededNames()
    {
      if i < 4 {
        assert (b + a + p)[i] == b[i];
      } else if i < 7 {
        assert (b + a + p)[i] == a[i - 4];
      } else {
        assert (b + a + p)[i] == p[i - 7];
      }
    }
  }

  lemma {:induction false} NameAbsent(seeded: seq<Symbol>, params: seq<Symbol>, name: string)
    requires !HasName(seeded, name)
    requires forall i :: 0 <= i < |params| ==> params[i].name != name
    ensures !HasName(seeded + params, name)
  {
    forall i | 0 <= i < |seeded + params|
      ensures (seeded + params)[i].name != name
    {
      if i >= |seeded| {
        assert (seeded + params)[i] == params[i - |seeded|];
      }
    }
  }

  /** A name the innermost scope lacks is found as the symbol just added
      to the enclosing scope, when that scope had no such name before. */
  lemma FoundInEnclosing(env: seq<Scope>, syms: seq<Symbol>, f: Symbol)
    requires |env| > 1 && env[1].symbols == syms + [f]
    requires !HasName(env[0].symbols, f.name) && !HasName(syms, f.name)
    ensures ChainLookupSingle(env, f.name, false) == Some(f)
  {
    FirstNamedAt(syms + [f], |syms|, f.name);
    FirstNamedIsFirst(syms + [f], f.name);
    assert InnermostWith(env, f.name, 1);
    LookupsUseInnermostScope(env, f.name, 1);
  }

  /** Inside the function's scopes, its name resolves to the function
      symbol unless a parameter or a seeded symbol has the same name. */
  lemma VisibleInFunctionScopes(st: St, n: Node, inner: St, f: Symbol)
    requires |st.env| > 0 && n.FunctionDef?
    requires FunctionScopes(st, n, inner, f) && FunctionSymbolOf(st, n, f)
    requires !HasName(st.env[0].symbols, Name(n.token))
    requires Name(n.token) !in SeededNames()
    requires forall i :: 0 <= i < |n.params| ==> VariableName(n.params[i].variable) != Name(n.token)
    ensures Lookup(inner, Name(n.token), false) == Some(f)
  {
    var name := Name(n.token);
    var level := st.env[0].level;
    NotSeeded(level + 1, name);
    NameAbsent(Seeded(level + 1), f.params, name);
    assert inner.env[1] == inner.env[1..][0];
    FoundInEnclosing(inner.env, st.env[0].symbols, f);
  }

  /** A function is defined before its body is visited: inside the body its
      name resolves to the function itself, parameters included, unless a
      parameter or a seeded symbol has the same name. */
  lemma FunctionVisibleInItsBody(st: St, n: Node)
    requires |st.env| > 0 && n.FunctionDef?
    requires OpenFunctionScope(st, n).Success?
    requires Name(n.token) !in SeededNames()
    requires forall i :: 0 <= i < |n.params| ==> VariableName(n.params[i].variable) != Name(n.token)
    ensures var (inner, f) := OpenFunctionScope(st, n).value;
            Lookup(inner, Name(n.token), false) == Some(f) && |f.params| == |n.params|
  {
    var name := Name(n.token);
    var r := OpenFunctionScope(st, n);
    OpenFunctionScopeShape(st, n);
    FunctionSymbolShape(st, n);
    assert !HasName(st.env[0].symbols, name) by {
      OnlyCurrentScope(st.env, name);
      FirstNamedIsFirst(st.env[0].symbols, name);
    }
    VisibleInFunctionScopes(st, n, r.value.0, r.value.1);
  }

  /** A function definition is rejected when its name is already in the
      current scope, whatever the symbol; once accepted, the current scope is
      the enclosing one again, it holds the function symbol, and the body is
      attached to that symbol. */
  lemma FunctionDefinitionRules(st: St, n: Node)
    requires |st.env| > 0 && n.FunctionDef?
    ensures HasName(st.env[0].symbols, Name(n.token)) ==>
              Visit(st, n) == Failure(SemanticError(DuplicateIdentifier, Some(n.token)))
    ensures Visit(st, n).Success? ==>
              OpenFunctionScope(st, n).Success? &&
              var f := OpenFunctionScope(st, n).value.1;
              var after := Visit(st, n).value.st;
              after.env == [st.env[0].(symbols := st.env[0].symbols + [f])] + st.env[1..] &&
              FirstNamed(after.env[0].symbols, Name(n.token)) == Some(f) &&
              f.id in after.bodies && Visit(st, n).value.node == FunctionDef(n.token, n.returnType, n.params, after.bodies[f.id])
  {
    var name := Name(n.token);
    OnlyCurrentScope(st.env, name);
    FirstNamedIsFirst(st.env[0].symbols, name);
    assert Visit(st, n) == VisitFunctionDefinition(st, n);
    var r := OpenFunctionScope(st, n);
    if r.Success? {
      OpenFunctionScopeShape(st, n);
      var (inner, f) := r.value;
      var body := Visit(inner, n.body);
      if body.Success? {
        VisitExtends(inner, n.body);
        var syms := st.env[0].symbols;
        FirstNamedAt(syms + [f], |syms|, name);
      }
    }
  }

  // -------------------------------------------------------------------------
  // Calls

  /** A call resolves its name through the scope chain; an unknown name is
      rejected, a wrong number of arguments is rejected unless the function
      is `print`, and an accepted call has the function's return type and is
      annotated with the function it resolved to. */
  lemma CallRules(st: St, n: Node)
    requires |st.env| > 0 && n.Call?
    ensures Lookup(st, n.name, false).None? ==>
              Visit(st, n) == Failure(SemanticError(IdentifierNotFound, Some(n.token)))
    ensures var fs := Lookup(st, n.name, false);
            fs.Some? && IsFunction(fs.value) && |fs.value.params| != |n.args| && fs.value.name != "print" ==>
              Visit(st, n) == Failure(SemanticError(WrongParamNumber, Some(n.token)))
    ensures var fs := Lookup(st, n.name, false);
            Visit(st, n).Success? ==>
              fs.Some? && IsFunction(fs.value) &&
              (|fs.value.params| == |n.args| || fs.value.name == "print") &&
              Visit(st, n).value.ty == fs.value.returnType &&
              Visit(st, n).value.node.Call? && Visit(st, n).value.node.fn == fs &&
              Visit(st, n).value.node.name == n.name
  {
    assert Visit(st, n) == VisitFunctionCall(st, n);
  }

  /** The argument loop runs over the formals: an accepted call has at
      least as many arguments as formals, keeps their number, and leaves
      the arguments past the formals as they were. */
  lemma {:induction false} ArgumentsCoverFormals(st: St, args: seq<Node>, formals: seq<Symbol>)
    requires |st.env| > 0
    ensures var r := VisitArguments(st, args, formals);
            r.Success? ==>
              |formals| <= |args| && |r.value.node| == |args| && r.value.node[|formals|..] == args[|formals|..]
    ensures |args| < |formals| ==> VisitArguments(st, args, formals).Failure?
    decreases |formals|
  {
    if formals != [] && args != [] {
      var actual := Visit(st, args[0]);
      if actual.Success? {
        ArgumentsCoverFormals(actual.value.st, args[1..], formals[1..]);
      }
    }
  }

  /** `print` is looked up as a single symbol, so it always resolves to the
      first overload of a seeded table, the one taking a `number`. */
  lemma PrintResolvesToNumberOverload(level: nat, extra: seq<Symbol>)
    ensures FirstNamed(Seeded(level) + extra, "print") == Some(PrintOverload(BuiltinTypeSym("number")))
  {
    var b, a, p := BuiltinTypes(), ArrayTypes(level), PrintOverloads(level);
    var s := Seeded(level) + extra;
    assert s == (b + a) + (p + extra);
    forall j | 0 <= j < 7
      ensures s[j].name != "print"
    {
      if j < 4 {
        assert |s[j].name| != 5;
      } else {
        assert |s[j].name| > 5;
      }
    }
    FirstNamedAt(s, 7, "print");
  }

  /** One formal: the first argument's type must have the formal type's
      name; the other arguments are left as they are. */
  lemma OneFormal(st: St, args: seq<Node>, formal: Symbol)
    requires |st.env| > 0 && |args| > 0
    requires Visit(st, args[0]).Success? && Visit(st, args[0]).value.ty.Some? && formal.ty.Some?
    ensures var x := Visit(st, args[0]).value;
            x.ty.value.name != formal.ty.value.name ==>
              VisitArguments(st, args, [formal]) == Failure(Incompatible(NodeToken(args[0])))
    ensures var x := Visit(st, args[0]).value;
            x.ty.value.name == formal.ty.value.name ==>
              VisitArguments(st, args, [formal]) == Success(Typed(None, [x.node] + args[1..], x.st))
  {
    var x := Visit(st, args[0]).value;
    assert [formal][1..] == [];
    assert VisitArguments(x.st, args[1..], []) == Success(Typed(None, args[1..], x.st));
  }

  /** The first `k` arguments, visited in turn from `st`, each succeed with
      a type named as the type of the formal at the same position. */
  ghost predicate ArgumentsTyped(st: St, args: seq<Node>, formals: seq<Symbol>, k: nat)
    requires |st.env| > 0 && k <= |formals|
    decreases k
  {
    k == 0 ||
    (args != [] && Visit(st, args[0]).Success? &&
     Visit(st, args[0]).value.ty.Some? && formals[0].ty.Some? &&
     Visit(st, args[0]).value.ty.value.name == formals[0].ty.value.name &&
     ArgumentsTyped(Visit(st, args[0]).value.st, args[1..], formals[1..], k - 1))
  }

  /** The state after those `k` visits. */
  ghost function StateAfter(st: St, args: seq<Node>, formals: seq<Symbol>, k: nat): (r: St)
    requires |st.env| > 0 && k <= |formals| && ArgumentsTyped(st, args, formals, k)
    ensures |r.env| == |st.env|
    decreases k
  {
    if k == 0 then st
    else StateAfter(Visit(st, args[0]).value.st, args[1..], formals[1..], k - 1)
  }

  /** The nodes those `k` visits yield. */
  ghost function NodesAfter(st: St, args: seq<Node>, formals: seq<Symbol>, k: nat): (r: seq<Node>)
    requires |st.env| > 0 && k <= |formals| && ArgumentsTyped(st, args, formals, k)
    ensures |r| == k
    decreases k
  {
    if k == 0 then []
    else [Visit(st, args[0]).value.node] + NodesAfter(Visit(st, args[0]).value.st, args[1..], formals[1..], k - 1)
  }

  /** The argument loop accepts exactly when all `|formals|` arguments are
      typed as their formals; it then yields their visited nodes followed by
      the arguments past the formals, in the state after the visits. */
  lemma {:induction false} ArgumentsTypedRules(st: St, args: seq<Node>, formals: seq<Symbol>)
    requires |st.env| > 0
    ensures VisitArguments(st, args, formals).Success? <==> ArgumentsTyped(st, args, formals, |formals|)
    ensures VisitArguments(st, args, formals).Success? ==>
              |formals| <= |args| &&
              VisitArguments(st, args, formals).value ==
                Typed(None, NodesAfter(st, args, formals, |formals|) + args[|formals|..],
                      StateAfter(st, args, formals, |formals|))
    decreases |formals|
  {
    if formals == [] {
      assert [] + args[0..] == args;
    } else if args != [] {
      var actual := Visit(st, args[0]);
      if actual.Success? {
        ArgumentsTypedRules(actual.value.st, args[1..], formals[1..]);
        if VisitArguments(st, args, formals).Success? {
          var x := actual.value;
          var tail := NodesAfter(x.st, args[1..], formals[1..], |formals| - 1);
          assert args[1..][|formals| - 1..] == args[|formals|..];
          assert [x.node] + (tail + args[|formals|..]) == ([x.node] + tail) + args[|formals|..];
        }
      }
    }
  }

  /** Once the first `i` arguments are typed, the loop fails exactly when it
      fails on the rest from the state after them, with the same error. */
  lemma {:induction false} ArgumentsSplit(st: St, args: seq<Node>, formals: seq<Symbol>, i: nat)
    requires |st.env| > 0 && i <= |formals| && ArgumentsTyped(st, args, formals, i)
    ensures i <= |args|
    ensures var r := VisitArguments(st, args, formals);
            var q := VisitArguments(StateAfter(st, args, formals, i), args[i..], formals[i..]);
            r.Failure? == q.Failure? && (r.Failure? ==> r.error == q.error)
    decreases i
  {
    if i > 0 {
      var actual := Visit(st, args[0]).value;
      ArgumentsSplit(actual.st, args[1..], formals[1..], i - 1);
      assert args[1..][i - 1..] == args[i..];
      assert formals[1..][i - 1..] == formals[i..];
    }
  }

  /** The error of a rejected call's arguments is the one at the first
      argument that is not typed as its formal: its own visit's error, a
      null dereference when it or the formal has no type, `Incompatible` at
      its token when the type names differ, and an index out of range when
      the arguments run out first. */
  lemma FirstMismatch(st: St, args: seq<Node>, formals: seq<Symbol>, i: nat)
    requires |st.env| > 0 && i < |formals| && ArgumentsTyped(st, args, formals, i)
    ensures i == |args| ==> VisitArguments(st, args, formals) == Failure(HostFault(IndexOutOfRange))
    ensures i < |args| ==>
              var x := Visit(StateAfter(st, args, formals, i), args[i]);
              var r := VisitArguments(st, args, formals);
              (x.Failure? ==> r == Failure(x.error)) &&
              (x.Success? && (x.value.ty.None? || formals[i].ty.None?) ==> r == Failure(HostFault(NullReference))) &&
              (x.Success? && x.value.ty.Some? && formals[i].ty.Some? && x.value.ty.value.name != formals[i].ty.value.name ==>
                 r == Failure(Incompatible(NodeToken(args[i]))))
  {
    ArgumentsSplit(st, args, formals, i);
    var s := StateAfter(st, args, formals, i);
    var rest := args[i..];
    if i < |args| {
      assert rest[0] == args[i] && formals[i..][0] == formals[i];
    }
  }

  /** A call whose name resolves to a function taking as many arguments as
      it is given (or to `print`) is accepted exactly when every formal's
      argument is typed as that formal, so a wrongly typed argument at any
      position rejects it with the argument loop's error; an accepted call
      carries the visited arguments and the function's return type. */
  lemma CallArgumentRules(st: St, n: Node)
    requires |st.env| > 0 && n.Call?
    requires var fs := Lookup(st, n.name, false);
             fs.Some? && IsFunction(fs.value) && (|fs.value.params| == |n.args| || fs.value.name == "print")
    ensures var fs := Lookup(st, n.name, false);
            Visit(st, n).Success? <==> ArgumentsTyped(st, n.args, fs.value.params, |fs.value.params|)
    ensures var fs := Lookup(st, n.name, false);
            var a := VisitArguments(st, n.args, fs.value.params);
            Visit(st, n).Failure? == a.Failure? && (a.Failure? ==> Visit(st, n) == Failure(a.error))
    ensures var fs := Lookup(st, n.name, false);
            var k := |fs.value.params|;
            Visit(st, n).Success? ==>
              k <= |n.args| &&
              Visit(st, n).value ==
                Typed(fs.value.returnType,
                      Call(n.token, n.name, NodesAfter(st, n.args, fs.value.params, k) + n.args[k..], fs),
                      StateAfter(st, n.args, fs.value.params, k))
  {
    var fs := Lookup(st, n.name, false);
    assert Visit(st, n) == VisitFunctionCall(st, n);
    ArgumentsTypedRules(st, n.args, fs.value.params);
  }

  /** The state `print` is checked in: it resolves to the `number`
      overload, and the builtin types to themselves. */
  ghost predicate PrintSeeded(st: St) {
    |st.env| > 0 &&
    Lookup(st, "print", false) == Some(PrintOverload(BuiltinTypeSym("number"))) &&
    forall n :: IsBuiltinName(n) ==> Lookup(st, n, false) == Some(BuiltinTypeSym(n))
  }

  /** The global scope is such a state. */
  lemma InitialPrintSeeded()
    ensures PrintSeeded(InitialState())
  {
    PrintResolvesToNumberOverload(1, []);
    assert Seeded(1) + [] == Seeded(1);
    SeededContents(1);
  }

  /** `print` resolved to its `number` overload rejects a string or a
      `bool` argument. */
  lemma PrintRejectsNonNumbers(st: St, call: Token, arg: Token)
    requires PrintSeeded(st)
    ensures Visit(st, Call(call, "print", [StringLit(arg)], None)) == Failure(Incompatible(Some(arg)))
    ensures Visit(st, Call(call, "print", [BoolLit(arg)], None)) == Failure(Incompatible(Some(arg)))
  {
    var formal := VariableSym("str", Some(BuiltinTypeSym("number")));
    assert PrintOverload(BuiltinTypeSym("number")).params == [formal];
    assert Lookup(st, "string", false) == Some(BuiltinTypeSym("string"));
    assert Lookup(st, "bool", false) == Some(BuiltinTypeSym("bool"));
    assert Visit(st, StringLit(arg)) == Success(Typed(Some(BuiltinTypeSym("string")), StringLit(arg), st));
    assert Visit(st, BoolLit(arg)) == Success(Typed(Some(BuiltinTypeSym("bool")), BoolLit(arg), st));
    OneFormal(st, [StringLit(arg)], formal);
    OneFormal(st, [BoolLit(arg)], formal);
  }

  /** It accepts a number, with the type `void`, and does not look at an
      argument past the first. */
  lemma PrintAcceptsNumber(st: St, call: Token, arg: Token, extra: Node)
    requires PrintSeeded(st)
    ensures Visit(st, Call(call, "print", [Number(arg)], None)) ==
              Success(Typed(Some(BuiltinTypeSym("void")), Call(call, "print", [Number(arg)], Lookup(st, "print", false)), st))
    ensures Visit(st, Call(call, "print", [Number(arg), extra], None)) ==
              Success(Typed(Some(BuiltinTypeSym("void")), Call(call, "print", [Number(arg), extra], Lookup(st, "print", false)), st))
  {
    var formal := VariableSym("str", Some(BuiltinTypeSym("number")));
    assert PrintOverload(BuiltinTypeSym("number")).params == [formal];
    assert Lookup(st, "number", false) == Some(BuiltinTypeSym("number"));
    assert Visit(st, Number(arg)) == Success(Typed(Some(BuiltinTypeSym("number")), Number(arg), st));
    OneFormal(st, [Number(arg)], formal);
    OneFormal(st, [Number(arg), extra], formal);
    assert [Number(arg)] + [Number(arg)][1..] == [Number(arg)];
    assert [Number(arg)] + [Number(arg), extra][1..] == [Number(arg), extra];
    var fs := Lookup(st, "print", false);
    assert IsFunction(fs.value) && fs.value.name == "print" && fs.value.returnType == Some(BuiltinTypeSym("void"));
    assert VisitArguments(st, [Number(arg)], [formal]) == Success(Typed(None, [Number(arg)], st));
    assert VisitArguments(st, [Number(arg), extra], [formal]) == Success(Typed(None, [Number(arg), extra], st));
  }

  /** Without arguments, the argument count is not checked for `print`, and
      the check of the first argument fails indexing the arguments. */
  lemma PrintWithoutArguments(st: St, call: Token)
    requires PrintSeeded(st)
    ensures Visit(st, Call(call, "print", [], None)) == Failure(HostFault(IndexOutOfRange))
  {
    var fs := Lookup(st, "print", false);
    assert IsFunction(fs.value) && fs.value.name == "print" && fs.value.params != [];
    assert VisitArguments(st, [], fs.value.params) == Failure(HostFault(IndexOutOfRange));
    assert VisitFunctionCall(st, Call(call, "print", [], None)) == Failure(HostFault(IndexOutOfRange));
  }

  // -------------------------------------------------------------------------
  // Conditions and branches

  /** The condition of an `if` or a `while` must have a type named `bool`;
      a condition without a type fails on the null type. */
  lemma ConditionMustBeBool(st: St, n: Node)
    requires |st.env| > 0 && (n.IfElse? || n.While?)
    requires Visit(st, n.cond).Success?
    ensures var c := Visit(st, n.cond).value.ty;
            c.Some? && c.value.name != "bool" ==> Visit(st, n) == Failure(Incompatible(Some(n.token)))
    ensures Visit(st, n.cond).value.ty.None? ==> Visit(st, n) == Failure(HostFault(NullReference))
  {
  }

  /** The same for an elif's condition. */
  lemma ElifConditionMustBeBool(st: St, e: Elif)
    requires |st.env| > 0
    requires Visit(st, e.cond).Success?
    ensures var c := Visit(st, e.cond).value.ty;
            c.Some? && c.value.name != "bool" ==> VisitElif(st, e) == Failure(Incompatible(Some(e.token)))
    ensures Visit(st, e.cond).value.ty.None? ==> VisitElif(st, e) == Failure(HostFault(NullReference))
  {
  }

  /** A for loop accepts a condition of any type: when its sections and body
      are accepted in the loop's scope, so is the loop, with the body's type. */
  lemma ForConditionNotChecked(st: St, n: Node)
    requires |st.env| > 0 && n.For?
    ensures var inits := VisitAll(Enter(st, "for"), n.inits);
            inits.Success? ==>
              var cond := VisitOptional(inits.value.st, n.forCond);
              cond.Success? ==>
                var steps := VisitAll(cond.value.st, n.steps);
                steps.Success? ==>
                  var body := Visit(steps.value.st, n.body);
                  body.Success? ==> Visit(st, n).Success? && Visit(st, n).value.ty == body.value.ty
  {
  }

  /** The merge of one branch's type into the if's: the first non-null
      branch type is taken, and every later one must equal it. */
  lemma BranchMergeRules(returnType: Option<Symbol>, branchType: Option<Symbol>, token: Token)
    ensures BranchMerge(returnType, branchType, token).Success? <==>
              returnType.None? || Eq(returnType, branchType)
    ensures returnType.None? ==> BranchMerge(returnType, branchType, token) == Success(branchType)
    ensures returnType.Some? && BranchMerge(returnType, branchType, token).Success? ==>
              BranchMerge(returnType, branchType, token) == Success(returnType)
    ensures returnType.Some? && branchType.None? ==>
              BranchMerge(returnType, branchType, token) == Failure(HostFault(NullReference))
  {
    EqReflexive(branchType);
  }

  /** Once a branch has given the if a type, the elifs keep it. */
  lemma {:induction false} ElifsKeepType(st: St, token: Token, elifs: seq<Elif>, returnType: Option<Symbol>)
    requires |st.env| > 0 && returnType.Some?
    ensures VisitElifs(st, token, elifs, returnType).Success? ==> VisitElifs(st, token, elifs, returnType).value.ty == returnType
    decreases |elifs|
  {
    if elifs != [] {
      var first := VisitElif(st, elifs[0]);
      if first.Success? {
        var rt := BranchMerge(returnType, first.value.ty, token);
        if rt.Success? {
          BranchMergeRules(returnType, first.value.ty, token);
          ElifsKeepType(first.value.st, token, elifs[1..], rt.value);
        }
      }
    }
  }

  // -------------------------------------------------------------------------
  // Return statements

  /** A return statement reached from `n` along `path`: a block's child by
      index, or an if's then-branch (0) or else-branch (1). */
  predicate ReturnAt(n: Node, path: seq<nat>)
    decreases |path|
  {
    if path == [] then n.Return?
    else match n
      case Compound(_, children) => path[0] < |children| && ReturnAt(children[path[0]], path[1..])
      case IfElse(_, _, t, _, e) =>
        (path[0] == 0 && ReturnAt(t, path[1..])) || (path[0] == 1 && e.Some? && ReturnAt(e.value, path[1..]))
      case _ => false
  }

  lemma {:induction false} AnyHasReturnAt(children: seq<Node>, i: nat)
    requires i < |children| && HasReturnStatement(children[i])
    ensures AnyHasReturnStatement(children)
  {
    if i > 0 {
      AnyHasReturnAt(children[1..], i - 1);
    }
  }

  lemma {:induction false} ReachedReturnIsFound(n: Node, path: seq<nat>)
    requires ReturnAt(n, path)
    ensures HasReturnStatement(n)
    decreases |path|
  {
    if path != [] {
      match n
      case Compound(_, children) =>
        ReachedReturnIsFound(children[path[0]], path[1..]);
        AnyHasReturnAt(children, path[0]);
      case IfElse(_, _, t, _, e) =>
        if path[0] == 0 && ReturnAt(t, path[1..]) {
          ReachedReturnIsFound(t, path[1..]);
        } else {
          ReachedReturnIsFound(e.value, path[1..]);
        }
    }
  }

  lemma {:induction false} FoundReturnIsReached(n: Node) returns (path: seq<nat>)
    requires HasReturnStatement(n)
    ensures ReturnAt(n, path)
    decreases Size(n), 1
  {
    match n
    case Return(_, _) =>
      path := [];
    case Compound(_, children) =>
      var i, p := FoundInChildren(children);
      path := [i] + p;
      assert path[1..] == p;
    case IfElse(_, _, t, _, e) =>
      if HasReturnStatement(t) {
        var p := FoundReturnIsReached(t);
        path := [0] + p;
        assert path[1..] == p;
      } else {
        assert SizeOpt(e) == Size(e.value);
        var p := FoundReturnIsReached(e.value);
        path := [1] + p;
        assert path[1..] == p;
      }
  }

  lemma {:induction false} FoundInChildren(children: seq<Node>) returns (i: nat, path: seq<nat>)
    requires AnyHasReturnStatement(children)
    ensures i < |children| && ReturnAt(children[i], path)
    decreases SizeSeq(children), 2
  {
    if HasReturnStatement(children[0]) {
      i := 0;
      path := FoundReturnIsReached(children[0]);
    } else {
      var j, p := FoundInChildren(children[1..]);
      i, path := j + 1, p;
    }
  }

  /** `HasReturnStatement` holds exactly when some return statement is
      reached through blocks and the then- and else-branches of ifs; returns
      in elifs and loop bodies are not looked for. */
  lemma HasReturnIffReachable(n: Node)
    ensures HasReturnStatement(n) <==> exists path :: ReturnAt(n, path)
  {
    if HasReturnStatement(n) {
      var path := FoundReturnIsReached(n);
      assert ReturnAt(n, path);
      assert exists p :: ReturnAt(n, p);
    } else {
      forall path
        ensures !ReturnAt(n, path)
      {
        if ReturnAt(n, path) {
          ReachedReturnIsFound(n, path);
        }
      }
    }
  }

  /** A function whose return type is not `void` is accepted only when its
      body yields a type of the return type's name and holds a return
      statement. */
  lemma ReturnCheckRules(typeName: string, typeSymbol: Option<Symbol>, returned: Option<Symbol>, body: Node, token: Token)
    ensures ReturnCheck(typeName, typeSymbol, returned, body, token).Success? <==>
              typeName == "void" ||
              (typeSymbol.Some? && returned.Some? && returned.value.name == typeSymbol.value.name && HasReturnStatement(body))
    ensures typeName != "void" && typeSymbol.Some? && returned.Some? && returned.value.name == typeSymbol.value.name &&
            !HasReturnStatement(body) ==>
              ReturnCheck(typeName, typeSymbol, returned, body, token) == Failure(SemanticError(MissingReturnStatement, Some(token)))
  {
  }

  // -------------------------------------------------------------------------
  // The program

  /** The program is accepted exactly when the root is and the global scope
      itself then holds `Main`; `Main` is attached when it is a function. */
  lemma ProgramNeedsMain(global: St, p: ProgramNode)
    requires |global.env| == 1
    ensures Visit(global, p.root).Failure? ==> AnalyzeProgram(global, p) == Failure(Visit(global, p.root).error)
    ensures var root := Visit(global, p.root);
            root.Success? && !HasName(root.value.st.env[0].symbols, "Main") ==>
              AnalyzeProgram(global, p) == Failure(SemanticError(MissingMain, Some(p.token)))
    ensures var root := Visit(global, p.root);
            root.Success? && HasName(root.value.st.env[0].symbols, "Main") ==>
              var main := FirstNamed(root.value.st.env[0].symbols, "Main");
              main.Some? &&
              AnalyzeProgram(global, p) ==
                Success(Analyzed(ProgramNode(p.token, root.value.node, if IsFunction(main.value) then main else None),
                                 root.value.st.bodies))
  {
    var root := Visit(global, p.root);
    if root.Success? {
      OnlyCurrentScope(root.value.st.env, "Main");
      FirstNamedIsFirst(root.value.st.env[0].symbols, "Main");
    }
  }
}
