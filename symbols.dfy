// Symbols of the semantic analyser and their equality.
//
// The source has one base class with several subclasses (builtin types,
// array types, variables, user and builtin functions); the class of a symbol
// takes part in equality, so it is kept here as a tag.
module Symbols {
  import opened Wrappers

  datatype SymbolClass = PlainSymbol | BuiltinType | ArrayType | Variable | Function | BuiltinFunction

  /** A symbol: its class, name, type (absent for builtin types and
      functions; the element type for array types), the scope level the
      table gave it, and for functions the return type, the parameters and
      an identity standing for the object itself. */
  datatype Symbol = Symbol(
    cls: SymbolClass,
    name: string,
    ty: Option<Symbol>,
    scopeLevel: nat,
    returnType: Option<Symbol>,
    params: seq<Symbol>,
    id: nat)

  function PlainSym(name: string): Symbol {
    Symbol(PlainSymbol, name, None, 0, None, [], 0)
  }

  function BuiltinTypeSym(name: string): Symbol {
    Symbol(BuiltinType, name, None, 0, None, [], 0)
  }

  function ArrayTypeSym(name: string, element: Option<Symbol>): Symbol {
    Symbol(ArrayType, name, element, 0, None, [], 0)
  }

  function VariableSym(name: string, ty: Option<Symbol>): Symbol {
    Symbol(Variable, name, ty, 0, None, [], 0)
  }

  function FunctionSym(name: string, returnType: Option<Symbol>, id: nat): Symbol {
    Symbol(Function, name, None, 0, returnType, [], id)
  }

  function BuiltinFunctionSym(name: string, returnType: Option<Symbol>, params: seq<Symbol>): Symbol {
    Symbol(BuiltinFunction, name, None, 0, returnType, params, 0)
  }

  predicate IsFunction(s: Symbol) {
    s.cls == Function || s.cls == BuiltinFunction
  }

  function ToString(s: Symbol): string {
    s.name
  }

  /** The static `==` on possibly-null symbols: two nulls are equal, a null
      and a symbol are not, and two symbols are equal when their classes and
      names agree and their types are equal in turn. */
  function Eq(l: Option<Symbol>, r: Option<Symbol>): bool
    decreases l
  {
    match (l, r)
    case (None, None) => true
    case (Some(a), Some(b)) => a.cls == b.cls && a.name == b.name && Eq(a.ty, b.ty)
    case _ => false
  }

  /** `!=`, the negation of `==`. */
  function NotEq(l: Option<Symbol>, r: Option<Symbol>): bool {
    !Eq(l, r)
  }

  /** The instance `Equals`: never equal to null. */
  function Equals(s: Symbol, obj: Option<Symbol>): (r: bool)
    ensures r ==> obj.Some? && obj.value.cls == s.cls && obj.value.name == s.name
    ensures obj.Some? && (obj.value.cls != s.cls || obj.value.name != s.name) ==> !r
  {
    obj.Some? && s.cls == obj.value.cls && s.name == obj.value.name && Eq(s.ty, obj.value.ty)
  }

  /** `==` agrees with `Equals` on a non-null left operand and is null-safe. */
  lemma OperatorAgreesWithEquals(l: Option<Symbol>, r: Option<Symbol>)
    ensures l.Some? ==> (Eq(l, r) <==> Equals(l.value, r))
    ensures l.None? ==> (Eq(l, r) <==> r.None?)
    ensures NotEq(l, r) <==> !Eq(l, r)
  {
  }

  lemma {:induction false} EqReflexive(l: Option<Symbol>)
    ensures Eq(l, l)
    decreases l
  {
    if l.Some? {
      EqReflexive(l.value.ty);
    }
  }

  lemma {:induction false} EqSymmetric(l: Option<Symbol>, r: Option<Symbol>)
    ensures Eq(l, r) == Eq(r, l)
    decreases l
  {
    if l.Some? && r.Some? {
      EqSymmetric(l.value.ty, r.value.ty);
    }
  }

  lemma {:induction false} EqTransitive(a: Option<Symbol>, b: Option<Symbol>, c: Option<Symbol>)
    requires Eq(a, b) && Eq(b, c)
    ensures Eq(a, c)
    decreases a
  {
    if a.Some? {
      EqTransitive(a.value.ty, b.value.ty, c.value.ty);
    }
  }

  /** Equal symbols agree on class and name at every depth of their type
      chains, so equality is exactly agreement of the chains' (class, name)
      pairs. */
  function TypeChain(l: Option<Symbol>): (r: seq<(SymbolClass, string)>)
    ensures l.None? <==> r == []
    decreases l
  {
    if l.None? then [] else [(l.value.cls, l.value.name)] + TypeChain(l.value.ty)
  }

  lemma {:induction false} EqIsChainAgreement(l: Option<Symbol>, r: Option<Symbol>)
    ensures Eq(l, r) <==> TypeChain(l) == TypeChain(r)
    decreases l
  {
    if l.Some? && r.Some? {
      EqIsChainAgreement(l.value.ty, r.value.ty);
      var a, b := TypeChain(l), TypeChain(r);
      assert a == [(l.value.cls, l.value.name)] + TypeChain(l.value.ty);
      assert b == [(r.value.cls, r.value.name)] + TypeChain(r.value.ty);
      if a == b {
        assert a[0] == b[0];
        assert a[1..] == TypeChain(l.value.ty) && b[1..] == TypeChain(r.value.ty);
      }
    }
  }

  /** Same name, different class: unequal (a builtin `bool` and a plain
      `bool` symbol, for one). */
  lemma ClassTakesPartInEquality(name: string)
    ensures NotEq(Some(BuiltinTypeSym(name)), Some(PlainSym(name)))
    ensures Eq(Some(BuiltinTypeSym(name)), Some(BuiltinTypeSym(name)))
  {
  }

  // ---------------------------------------------------------------------
  // Hashing

  /** What the source feeds to its hash: name, type and scope level. The hash
      function itself is the runtime's, so the model keeps its inputs. */
  datatype HashInput = HashInput(name: string, ty: Option<HashInput>, scopeLevel: nat)

  function HashInputOf(s: Symbol): (h: HashInput)
    ensures h.name == s.name && h.scopeLevel == s.scopeLevel
    decreases s
  {
    HashInput(s.name, if s.ty.Some? then Some(HashInputOf(s.ty.value)) else None, s.scopeLevel)
  }

  /** Two symbols that are equal but whose hash inputs differ: the scope
      level takes part in the hash but not in equality. */
  lemma EqualSymbolsWithDifferentHashInputs()
    ensures var a := VariableSym("x", None).(scopeLevel := 1);
            var b := VariableSym("x", None).(scopeLevel := 2);
            Eq(Some(a), Some(b)) && HashInputOf(a) != HashInputOf(b)
  {
  }

  /** A hash input consistent with equality: the scope level is left out. */
  function ConsistentHashInput(s: Symbol): (h: seq<(SymbolClass, string)>)
    ensures |h| > 0 && h[0] == (s.cls, s.name)
  {
    TypeChain(Some(s))
  }

  lemma ConsistentHashRespectsEquality(a: Symbol, b: Symbol)
    requires Eq(Some(a), Some(b))
    ensures ConsistentHashInput(a) == ConsistentHashInput(b)
  {
    EqIsChainAgreement(Some(a), Some(b));
  }
}
