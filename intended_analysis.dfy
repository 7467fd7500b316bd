// The checker's rules as they are evidently meant where the rules of module
// Analysis depart from them: `print` picks the overload its argument's type
// names, and comparisons and logical operators yield the builtin `bool` that
// a `bool` literal has. Each corrected rule is set beside the one it
// replaces, with the property the written rule lacks.
module IntendedAnalysis {
  import opened Wrappers
  import opened Tokens
  import opened Symbols
  import opened Ast
  import opened SymbolTables
  import opened Analysis
  import opened AnalysisProperties

  // -------------------------------------------------------------------------
  // Overload resolution

  /** The first candidate with exactly one formal whose type has the
      argument type's name. */
  function ResolveOverload(candidates: seq<Symbol>, argType: string): (r: Option<Symbol>)
    ensures r.Some? ==> r.value in candidates && Accepts(r.value, argType)
    ensures r.None? ==> forall c :: c in candidates ==> !Accepts(c, argType)
  {
    ResolveFrom(candidates, 0, argType)
  }

  /** The search from index `i` on. */
  function ResolveFrom(candidates: seq<Symbol>, i: nat, argType: string): (r: Option<Symbol>)
    requires i <= |candidates|
    ensures r.Some? ==> r.value in candidates && Accepts(r.value, argType)
    ensures r.None? ==> forall j :: i <= j < |candidates| ==> !Accepts(candidates[j], argType)
    decreases |candidates| - i
  {
    if i == |candidates| then None
    else if Accepts(candidates[i], argType) then Some(candidates[i])
    else ResolveFrom(candidates, i + 1, argType)
  }

  predicate Accepts(c: Symbol, argType: string) {
    |c.params| == 1 && c.params[0].ty.Some? && c.params[0].ty.value.name == argType
  }

  /** Resolution picks the first candidate that accepts the argument. */
  lemma {:induction false} ResolvesAt(candidates: seq<Symbol>, i: nat, k: nat, argType: string)
    requires i <= k < |candidates| && Accepts(candidates[k], argType)
    requires forall j :: i <= j < k ==> !Accepts(candidates[j], argType)
    ensures ResolveFrom(candidates, i, argType) == Some(candidates[k])
    decreases k - i
  {
    if i < k {
      ResolvesAt(candidates, i + 1, k, argType);
    }
  }

  /** The overloads of each `print` parameter type, found at their index
      among the seeded overloads. */
  lemma NumberPrintOverloads(level: nat)
    ensures ResolveOverload(PrintOverloads(level), "number") == Some(PrintOverload(BuiltinTypeSym("number")))
    ensures ResolveOverload(PrintOverloads(level), "number_array") == Some(PrintOverload(ArrayTypeAt("number", level)))
  {
    var p := PrintOverloads(level);
    assert Accepts(p[1], "number_array");
    ResolvesAt(p, 0, 0, "number");
    ResolvesAt(p, 0, 1, "number_array");
  }

  lemma BoolPrintOverloads(level: nat)
    ensures ResolveOverload(PrintOverloads(level), "bool") == Some(PrintOverload(BuiltinTypeSym("bool")))
    ensures ResolveOverload(PrintOverloads(level), "bool_array") == Some(PrintOverload(ArrayTypeAt("bool", level)))
  {
    var p := PrintOverloads(level);
    NotAccepted(p[0], "number", "bool");
    NotAccepted(p[1], "number_array", "bool");
    NotAccepted(p[0], "number", "bool_array");
    NotAccepted(p[1], "number_array", "bool_array");
    NotAccepted(p[2], "bool", "bool_array");
    ResolvesAt(p, 0, 2, "bool");
    ResolvesAt(p, 0, 3, "bool_array");
  }

  lemma StringPrintOverloads(level: nat)
    ensures ResolveOverload(PrintOverloads(level), "string") == Some(PrintOverload(BuiltinTypeSym("string")))
    ensures ResolveOverload(PrintOverloads(level), "string_array") == Some(PrintOverload(ArrayTypeAt("string", level)))
  {
    var p := PrintOverloads(level);
    NotAccepted(p[0], "number", "string");
    NotAccepted(p[1], "number_array", "string");
    NotAccepted(p[2], "bool", "string");
    NotAccepted(p[3], "bool_array", "string");
    NotAccepted(p[0], "number", "string_array");
    NotAccepted(p[1], "number_array", "string_array");
    NotAccepted(p[2], "bool", "string_array");
    NotAccepted(p[3], "bool_array", "string_array");
    NotAccepted(p[4], "string", "string_array");
    ResolvesAt(p, 0, 4, "string");
    ResolvesAt(p, 0, 5, "string_array");
  }

  /** An overload whose formal has another type name does not accept. */
  lemma NotAccepted(c: Symbol, name: string, argType: string)
    requires |c.params| == 1 && c.params[0].ty.Some? && c.params[0].ty.value.name == name
    requires |name| != |argType| || (|name| > 0 && name[0] != argType[0])
    ensures !Accepts(c, argType)
  {
  }

  /** Every `print` overload a table is seeded with (`PrintCandidates`) is
      reached: the argument's type, scalar or array, selects the overload
      for it. */
  lemma PrintResolvesByArgument(level: nat, element: string)
    requires IsScalarName(element)
    ensures ResolveOverload(PrintOverloads(level), element) == Some(PrintOverload(BuiltinTypeSym(element)))
    ensures ResolveOverload(PrintOverloads(level), element + ArrayTypeSuffix) == Some(PrintOverload(ArrayTypeAt(element, level)))
  {
    if element == "number" {
      assert element + ArrayTypeSuffix == "number_array";
      NumberPrintOverloads(level);
    } else if element == "bool" {
      assert element + ArrayTypeSuffix == "bool_array";
      BoolPrintOverloads(level);
    } else {
      assert element + ArrayTypeSuffix == "string_array";
      StringPrintOverloads(level);
    }
  }

  /** The `print` overloads a table is seeded with, in order. */
  lemma PrintCandidates(level: nat)
    ensures AllNamed(Seeded(level), "print") == PrintOverloads(level)
  {
    SeededContents(level);
  }

  /** The overload a string argument selects accepts a string literal,
      which the written lookup rejects. */
  lemma PrintAcceptsString(st: St, arg: Token)
    requires |st.env| > 0 && Lookup(st, "string", false) == Some(BuiltinTypeSym("string"))
    ensures VisitArguments(st, [StringLit(arg)], PrintOverload(BuiltinTypeSym("string")).params) == Success(Typed(None, [StringLit(arg)], st))
  {
    assert PrintOverload(BuiltinTypeSym("string")).params == [VariableSym("str", Some(BuiltinTypeSym("string")))];
    assert Visit(st, StringLit(arg)) == Success(Typed(Some(BuiltinTypeSym("string")), StringLit(arg), st));
    assert [StringLit(arg)][1..] == [] && [StringLit(arg)] + [] == [StringLit(arg)];
    OneFormal(st, [StringLit(arg)], VariableSym("str", Some(BuiltinTypeSym("string"))));
  }

  /** and the overload a `bool` argument selects accepts a `bool` literal. */
  lemma PrintAcceptsBool(st: St, arg: Token)
    requires |st.env| > 0 && Lookup(st, "bool", false) == Some(BuiltinTypeSym("bool"))
    ensures VisitArguments(st, [BoolLit(arg)], PrintOverload(BuiltinTypeSym("bool")).params) == Success(Typed(None, [BoolLit(arg)], st))
  {
    assert PrintOverload(BuiltinTypeSym("bool")).params == [VariableSym("str", Some(BuiltinTypeSym("bool")))];
    assert Visit(st, BoolLit(arg)) == Success(Typed(Some(BuiltinTypeSym("bool")), BoolLit(arg), st));
    assert [BoolLit(arg)][1..] == [] && [BoolLit(arg)] + [] == [BoolLit(arg)];
    OneFormal(st, [BoolLit(arg)], VariableSym("str", Some(BuiltinTypeSym("bool"))));
  }

  // -------------------------------------------------------------------------
  // Operator types

  /** The type of an expression of literals and operators, with the result
      of a comparison or logical operator the type `bool` resolves to. */
  function IntendedExprType(st: St, n: Node): Result<Option<Symbol>, AnalysisError>
    requires |st.env| > 0
  {
    match n
    case Number(_) => Success(Lookup(st, "number", false))
    case BoolLit(_) => Success(Lookup(st, "bool", false))
    case StringLit(_) => Success(Lookup(st, "string", false))
    case UnOp(_, e) => IntendedExprType(st, e)
    case BinOp(l, t, r) =>
      var a :- IntendedExprType(st, l);
      var b :- IntendedExprType(st, r);
      if NotEq(a, b) then
        if a.None? || b.None? then Failure(HostFault(NullReference)) else Failure(Incompatible(Some(t)))
      else Success(if IsBoolOperator(t.kind) then Lookup(st, "bool", false) else a)
    case _ => Failure(HostFault(InvalidNodeType))
  }

  /** Literals and operators with no comparison or logical operator. */
  predicate PlainArithmetic(n: Node) {
    match n
    case Number(_) => true
    case BoolLit(_) => true
    case StringLit(_) => true
    case UnOp(_, e) => PlainArithmetic(e)
    case BinOp(l, t, r) => !IsBoolOperator(t.kind) && PlainArithmetic(l) && PlainArithmetic(r)
    case _ => false
  }

  /** Without comparisons and logical operators the corrected typing is the
      written one: the same type, the same error, and the state untouched. */
  lemma {:induction false} IntendedAgreesOnArithmetic(st: St, n: Node)
    requires |st.env| > 0 && PlainArithmetic(n)
    ensures Visit(st, n).Success? <==> IntendedExprType(st, n).Success?
    ensures Visit(st, n).Success? ==> Visit(st, n).value.ty == IntendedExprType(st, n).value && Visit(st, n).value.st == st
    ensures Visit(st, n).Failure? ==> Visit(st, n).error == IntendedExprType(st, n).error
  {
    match n
    case Number(_) =>
    case BoolLit(_) =>
    case StringLit(_) =>
    case UnOp(_, e) =>
      IntendedAgreesOnArithmetic(st, e);
    case BinOp(l, t, r) =>
      IntendedAgreesOnArithmetic(st, l);
      IntendedAgreesOnArithmetic(st, r);
  }

  /** A comparison now has the type of a `bool` literal, so `true && 1 < 2`
      is accepted as a `bool`. */
  lemma IntendedComparisonsAreBool(st: St, b: Token, and: Token, x: Token, less: Token, y: Token)
    requires |st.env| > 0
    requires Lookup(st, "bool", false) == Some(BuiltinTypeSym("bool"))
    requires Lookup(st, "number", false) == Some(BuiltinTypeSym("number"))
    requires less.kind == Less && and.kind == And
    ensures IntendedExprType(st, BinOp(BoolLit(b), and, BinOp(Number(x), less, Number(y)))) == Success(Some(BuiltinTypeSym("bool")))
  {
    EqReflexive(Some(BuiltinTypeSym("number")));
    EqReflexive(Some(BuiltinTypeSym("bool")));
    assert IntendedExprType(st, BinOp(Number(x), less, Number(y))) == Success(Some(BuiltinTypeSym("bool")));
  }
}
