// The analyser's scoped symbol table: a list of symbols per scope, seeded
// with the builtin types, the array types and the `print` overloads, and
// chained to the enclosing scope for lookups.
//
// The class keeps the source's shape (a mutable list, fixed name, level and
// enclosing table); `Scope` and the `Chain*` functions state the same table
// as values, innermost scope first, which is how the analyser's rules in
// analysis.dfy see it.
module SymbolTables {
  import opened Wrappers
  import opened Symbols

  const ArrayTypeSuffix: string := "_array"

  /** One scope as a value: its name, its level and its symbols in the order
      they were added. */
  datatype Scope = Scope(name: string, level: nat, symbols: seq<Symbol>)

  predicate HasName(syms: seq<Symbol>, name: string) {
    exists i :: 0 <= i < |syms| && syms[i].name == name
  }

  /** The first symbol called `name`, as `FirstOrDefault` finds it. */
  function FirstNamed(syms: seq<Symbol>, name: string): (r: Option<Symbol>)
    ensures r.Some? ==> r.value in syms && r.value.name == name
  {
    if syms == [] then None
    else if syms[0].name == name then Some(syms[0])
    else FirstNamed(syms[1..], name)
  }

  /** `FirstNamed` finds a symbol exactly when one has the name, and then the
      one at the lowest index. */
  lemma {:induction false} FirstNamedIsFirst(syms: seq<Symbol>, name: string)
    ensures FirstNamed(syms, name).None? <==> !HasName(syms, name)
    ensures FirstNamed(syms, name).Some? ==>
      exists i :: 0 <= i < |syms| && syms[i] == FirstNamed(syms, name).value &&
                  forall j :: 0 <= j < i ==> syms[j].name != name
  {
    if syms != [] && syms[0].name != name {
      var rest := syms[1..];
      FirstNamedIsFirst(rest, name);
      if HasName(syms, name) {
        var i :| 0 <= i < |syms| && syms[i].name == name;
        assert rest[i - 1].name == name;
      }
      if HasName(rest, name) {
        var i :| 0 <= i < |rest| && rest[i].name == name;
        assert syms[i + 1].name == name;
      }
      var r := FirstNamed(rest, name);
      if r.Some? {
        var i :| 0 <= i < |rest| && rest[i] == r.value && forall j :: 0 <= j < i ==> rest[j].name != name;
        assert syms[i + 1] == r.value;
        forall j | 0 <= j < i + 1
          ensures syms[j].name != name
        {
          if j > 0 {
            assert syms[j] == rest[j - 1];
          }
        }
      }
    }
  }

  /** Every symbol called `name`, in order, as `Where(...).ToList()` finds
      them. */
  function AllNamed(syms: seq<Symbol>, name: string): (r: seq<Symbol>)
    ensures forall s :: s in r ==> s in syms && s.name == name
    ensures forall s :: s in syms && s.name == name ==> s in r
    ensures |r| <= |syms|
  {
    if syms == [] then []
    else if syms[0].name == name then [syms[0]] + AllNamed(syms[1..], name)
    else AllNamed(syms[1..], name)
  }

  lemma {:induction false} AllNamedEmpty(syms: seq<Symbol>, name: string)
    ensures AllNamed(syms, name) == [] <==> !HasName(syms, name)
  {
    if syms != [] && syms[0].name != name {
      AllNamedEmpty(syms[1..], name);
      if HasName(syms, name) {
        var i :| 0 <= i < |syms| && syms[i].name == name;
        assert syms[1..][i - 1].name == name;
      }
      if HasName(syms[1..], name) {
        var i :| 0 <= i < |syms[1..]| && syms[1..][i].name == name;
        assert syms[i + 1].name == name;
      }
    }
  }

  /** `LookupSingle` over a chain of scopes, innermost first: the first
      match in the innermost scope, else the enclosing scopes unless only
      the current one is asked, else none. */
  function ChainLookupSingle(env: seq<Scope>, name: string, onlyCurrent: bool): Option<Symbol>
    requires |env| > 0
  {
    var r := FirstNamed(env[0].symbols, name);
    if r.Some? then r
    else if |env| > 1 && !onlyCurrent then ChainLookupSingle(env[1..], name, false)
    else None
  }

  /** `LookupMany` over a chain of scopes: every match of the innermost scope
      that has one, else an empty list. */
  function ChainLookupMany(env: seq<Scope>, name: string, onlyCurrent: bool): seq<Symbol>
    requires |env| > 0
  {
    var r := AllNamed(env[0].symbols, name);
    if r != [] then r
    else if |env| > 1 && !onlyCurrent then ChainLookupMany(env[1..], name, false)
    else []
  }

  /** The index of the innermost scope that has a symbol called `name`. */
  predicate InnermostWith(env: seq<Scope>, name: string, k: nat) {
    k < |env| && HasName(env[k].symbols, name) &&
    forall j :: 0 <= j < k ==> !HasName(env[j].symbols, name)
  }

  /** Both lookups go to the innermost scope that has the name, and neither
      merges scopes: `LookupSingle` gives that scope's first match and
      `LookupMany` all of that scope's matches. */
  lemma {:induction false} LookupsUseInnermostScope(env: seq<Scope>, name: string, k: nat)
    requires InnermostWith(env, name, k)
    ensures ChainLookupSingle(env, name, false) == FirstNamed(env[k].symbols, name)
    ensures ChainLookupMany(env, name, false) == AllNamed(env[k].symbols, name)
    ensures ChainLookupSingle(env, name, false).Some?
    ensures ChainLookupMany(env, name, false) != []
  {
    AllNamedEmpty(env[k].symbols, name);
    FirstNamedIsFirst(env[k].symbols, name);
    if k > 0 {
      AllNamedEmpty(env[0].symbols, name);
      FirstNamedIsFirst(env[0].symbols, name);
      assert InnermostWith(env[1..], name, k - 1) by {
        assert env[1..][k - 1] == env[k];
        forall j | 0 <= j < k - 1
          ensures !HasName(env[1..][j].symbols, name)
        {
          assert env[1..][j] == env[j + 1];
        }
      }
      LookupsUseInnermostScope(env[1..], name, k - 1);
    }
  }

  /** A name no scope of the chain has is found by neither lookup. */
  lemma {:induction false} LookupsMissUnknownName(env: seq<Scope>, name: string)
    requires |env| > 0
    requires forall j :: 0 <= j < |env| ==> !HasName(env[j].symbols, name)
    ensures ChainLookupSingle(env, name, false) == None
    ensures ChainLookupMany(env, name, false) == []
  {
    AllNamedEmpty(env[0].symbols, name);
    FirstNamedIsFirst(env[0].symbols, name);
    if |env| > 1 {
      assert forall j :: 0 <= j < |env[1..]| ==> !HasName(env[1..][j].symbols, name) by {
        forall j | 0 <= j < |env[1..]|
          ensures !HasName(env[1..][j].symbols, name)
        {
          assert env[1..][j] == env[j + 1];
        }
      }
      LookupsMissUnknownName(env[1..], name);
    }
  }

  /** Asked for the current scope only, the lookups look nowhere else. */
  lemma OnlyCurrentScope(env: seq<Scope>, name: string)
    requires |env| > 0
    ensures ChainLookupSingle(env, name, true) == FirstNamed(env[0].symbols, name)
    ensures ChainLookupMany(env, name, true) == AllNamed(env[0].symbols, name)
  {
    AllNamedEmpty(env[0].symbols, name);
  }

  // -------------------------------------------------------------------------
  // Seeding

  predicate IsScalarName(n: string) {
    n == "number" || n == "bool" || n == "string"
  }

  predicate IsBuiltinName(n: string) {
    n == "void" || IsScalarName(n)
  }

  function BuiltinTypes(): seq<Symbol> {
    [BuiltinTypeSym("void"), BuiltinTypeSym("number"), BuiltinTypeSym("bool"), BuiltinTypeSym("string")]
  }

  /** An array type `<name>_array` as `DefineArrayType` adds it to a table of
      the given level. */
  function ArrayTypeAt(element: string, level: nat): Symbol {
    ArrayTypeSym(element + ArrayTypeSuffix, Some(BuiltinTypeSym(element))).(scopeLevel := level)
  }

  function ArrayTypes(level: nat): seq<Symbol> {
    [ArrayTypeAt("number", level), ArrayTypeAt("bool", level), ArrayTypeAt("string", level)]
  }

  function PrintOverload(paramType: Symbol): Symbol {
    BuiltinFunctionSym("print", Some(BuiltinTypeSym("void")), [VariableSym("str", Some(paramType))])
  }

  function PrintOverloads(level: nat): seq<Symbol> {
    [PrintOverload(BuiltinTypeSym("number")), PrintOverload(ArrayTypeAt("number", level)),
     PrintOverload(BuiltinTypeSym("bool")), PrintOverload(ArrayTypeAt("bool", level)),
     PrintOverload(BuiltinTypeSym("string")), PrintOverload(ArrayTypeAt("string", level))]
  }

  /** What every new table holds before anything is defined in it. */
  function Seeded(level: nat): seq<Symbol> {
    BuiltinTypes() + ArrayTypes(level) + PrintOverloads(level)
  }

  lemma BuiltinFound(extra: seq<Symbol>, n: string)
    requires IsBuiltinName(n)
    ensures FirstNamed(BuiltinTypes() + extra, n) == Some(BuiltinTypeSym(n))
  {
    var s := BuiltinTypes() + extra;
    var k := if n == "void" then 0 else if n == "number" then 1 else if n == "bool" then 2 else 3;
    assert s[k] == BuiltinTypeSym(n);
    FirstNamedAt(s, k, n);
  }

  lemma ArrayFound(level: nat, extra: seq<Symbol>, e: string)
    requires IsScalarName(e)
    ensures FirstNamed(BuiltinTypes() + ArrayTypes(level) + extra, e + ArrayTypeSuffix) == Some(ArrayTypeAt(e, level))
  {
    var n := e + ArrayTypeSuffix;
    var s := BuiltinTypes() + ArrayTypes(level) + extra;
    var k := if e == "number" then 4 else if e == "bool" then 5 else 6;
    assert s[k] == ArrayTypeAt(e, level);
    forall j | 0 <= j < k
      ensures s[j].name != n
    {
      if j < 4 {
        assert |s[j].name| < |n|;
      } else if j == 4 {
        assert s[j].name[0] == 'n' != n[0];
      } else {
        assert s[j].name[0] == 'b' != n[0];
      }
    }
    FirstNamedAt(s, k, n);
  }

  /** `FirstNamed` returns the symbol at `k` when none before it has the name. */
  lemma {:induction false} FirstNamedAt(syms: seq<Symbol>, k: nat, name: string)
    requires k < |syms| && syms[k].name == name
    requires forall j :: 0 <= j < k ==> syms[j].name != name
    ensures FirstNamed(syms, name) == Some(syms[k])
  {
    if k > 0 {
      FirstNamedAt(syms[1..], k - 1, name);
    }
  }

  /** The seeded table: the four builtin types; the three array types, whose
      element type is the table's own builtin scalar; and six `print`
      overloads returning `void`, each with the one parameter `str`. */
  lemma SeededContents(level: nat)
    ensures |Seeded(level)| == 13
    ensures forall n :: IsBuiltinName(n) ==> FirstNamed(Seeded(level), n) == Some(BuiltinTypeSym(n))
    ensures forall e :: IsScalarName(e) ==>
              FirstNamed(Seeded(level), e + ArrayTypeSuffix) == Some(ArrayTypeAt(e, level)) &&
              ArrayTypeAt(e, level).ty == FirstNamed(Seeded(level), e)
    ensures AllNamed(Seeded(level), "print") == PrintOverloads(level)
  {
    var b, a, p := BuiltinTypes(), ArrayTypes(level), PrintOverloads(level);
    forall n | IsBuiltinName(n)
      ensures FirstNamed(Seeded(level), n) == Some(BuiltinTypeSym(n))
    {
      assert Seeded(level) == b + (a + p);
      BuiltinFound(a + p, n);
    }
    forall e | IsScalarName(e)
      ensures FirstNamed(Seeded(level), e + ArrayTypeSuffix) == Some(ArrayTypeAt(e, level))
      ensures ArrayTypeAt(e, level).ty == FirstNamed(Seeded(level), e)
    {
      ArrayFound(level, p, e);
      assert Seeded(level) == b + (a + p);
      BuiltinFound(a + p, e);
    }
    NoPrintBeforeOverloads(level);
    OverloadsAllPrint(level);
    AllNamedConcat(b + a, p, "print");
  }

  lemma NoPrintBeforeOverloads(level: nat)
    ensures AllNamed(BuiltinTypes() + ArrayTypes(level), "print") == []
  {
    var b: seq<Symbol>, a: seq<Symbol> := BuiltinTypes(), ArrayTypes(level);
    forall i | 0 <= i < |b + a|
      ensures (b + a)[i].name != "print"
    {
      if i < 4 {
        assert |b[i].name| != 5;
      } else {
        assert |a[i - 4].name| > 5;
      }
    }
    AllNamedNone(b + a, "print");
  }

  lemma OverloadsAllPrint(level: nat)
    ensures AllNamed(PrintOverloads(level), "print") == PrintOverloads(level)
  {
    AllNamedAll(PrintOverloads(level), "print");
  }

  /** The lookups `DefinePrintFunctionGroup` makes after `k` overloads. */
  lemma PrintLookups(level: nat, k: nat)
    requires k < 6
    ensures var s := BuiltinTypes() + ArrayTypes(level) + PrintOverloads(level)[..k];
            s + [PrintOverloads(level)[k]] == BuiltinTypes() + ArrayTypes(level) + PrintOverloads(level)[..k + 1] &&
            (forall n :: IsBuiltinName(n) ==> FirstNamed(s, n) == Some(BuiltinTypeSym(n))) &&
            (forall e :: IsScalarName(e) ==> FirstNamed(s, e + ArrayTypeSuffix) == Some(ArrayTypeAt(e, level)))
  {
    var b, a, p := BuiltinTypes(), ArrayTypes(level), PrintOverloads(level);
    var s := b + a + p[..k];
    assert p[..k + 1] == p[..k] + [p[k]];
    forall n | IsBuiltinName(n)
      ensures FirstNamed(s, n) == Some(BuiltinTypeSym(n))
    {
      assert s == b + (a + p[..k]);
      BuiltinFound(a + p[..k], n);
    }
    forall e | IsScalarName(e)
      ensures FirstNamed(s, e + ArrayTypeSuffix) == Some(ArrayTypeAt(e, level))
    {
      ArrayFound(level, p[..k], e);
    }
  }

  lemma {:induction false} AllNamedConcat(a: seq<Symbol>, b: seq<Symbol>, name: string)
    ensures AllNamed(a + b, name) == AllNamed(a, name) + AllNamed(b, name)
  {
    if a != [] {
      assert (a + b)[1..] == a[1..] + b;
      AllNamedConcat(a[1..], b, name);
    } else {
      assert a + b == b;
    }
  }

  lemma {:induction false} AllNamedNone(a: seq<Symbol>, name: string)
    requires forall i :: 0 <= i < |a| ==> a[i].name != name
    ensures AllNamed(a, name) == []
  {
    if a != [] {
      AllNamedNone(a[1..], name);
    }
  }

  lemma {:induction false} AllNamedAll(a: seq<Symbol>, name: string)
    requires forall i :: 0 <= i < |a| ==> a[i].name == name
    ensures AllNamed(a, name) == a
  {
    if a != [] {
      AllNamedAll(a[1..], name);
    }
  }

  // -------------------------------------------------------------------------
  // The table

  class ScopedSymbolTable {
    const name: string
    const level: nat
    const enclosing: ScopedSymbolTable?
    var symbols: seq<Symbol>
    /** This table and the tables enclosing it. */
    ghost const footprint: set<ScopedSymbolTable>

    /** The enclosing links form a finite chain. They are fixed at
        construction, so this needs no heap. */
    ghost predicate Linked()
      decreases footprint
    {
      this in footprint &&
      if enclosing == null then footprint == {this}
      else footprint == {this} + enclosing.footprint && this !in enclosing.footprint && enclosing.Linked()
    }

    /** The chain this table heads, as values. */
    ghost function Model(): (m: seq<Scope>)
      requires Linked()
      reads footprint
      ensures |m| > 0 && m[0] == Scope(name, level, symbols)
      ensures enclosing != null ==> m[1..] == enclosing.Model()
      decreases footprint
    {
      [Scope(name, level, symbols)] + if enclosing == null then [] else enclosing.Model()
    }

    constructor (scopeName: string, scopeLevel: nat, enclosingScope: ScopedSymbolTable?)
      requires enclosingScope != null ==> enclosingScope.Linked()
      ensures name == scopeName && level == scopeLevel && enclosing == enclosingScope
      ensures Linked() && symbols == Seeded(scopeLevel)
      ensures enclosingScope != null ==> Model() == [Scope(scopeName, scopeLevel, Seeded(scopeLevel))] + enclosingScope.Model()
    {
      name := scopeName;
      level := scopeLevel;
      enclosing := enclosingScope;
      footprint := if enclosingScope == null then {this} else {this} + enclosingScope.footprint;
      symbols := BuiltinTypes();
      new;
      SeedArrayTypes();
      SeedPrintFunctions();
    }

    /** The first half of seeding, split off for the proof. */
    method SeedArrayTypes()
      requires Linked() && symbols == BuiltinTypes()
      modifies this
      ensures symbols == BuiltinTypes() + ArrayTypes(level)
    {
      var a := ArrayTypes(level);
      assert symbols == BuiltinTypes() + a[..0];
      ArrayStep(0, "number");
      ArrayStep(1, "bool");
      ArrayStep(2, "string");
      assert a[..3] == a;
    }

    /** Defines the `k`-th seeded array type, the one of `element`. */
    method ArrayStep(k: nat, element: string)
      requires Linked() && k < 3 && symbols == BuiltinTypes() + ArrayTypes(level)[..k]
      requires IsScalarName(element) && ArrayTypes(level)[k] == ArrayTypeAt(element, level)
      modifies this
      ensures symbols == BuiltinTypes() + ArrayTypes(level)[..k + 1]
    {
      BuiltinFound(ArrayTypes(level)[..k], element);
      assert LookupSingle(element, false) == Some(BuiltinTypeSym(element));
      DefineArrayType(element);
      assert ArrayTypes(level)[..k + 1] == ArrayTypes(level)[..k] + [ArrayTypes(level)[k]];
    }

    /** The second half of seeding, split off for the proof. */
    method SeedPrintFunctions()
      requires Linked() && symbols == BuiltinTypes() + ArrayTypes(level)
      modifies this
      ensures symbols == Seeded(level)
    {
      var p := PrintOverloads(level);
      var base := BuiltinTypes() + ArrayTypes(level);
      assert symbols == base + p[..0];
      PrintStep(0, "number", false);
      PrintStep(1, "number", true);
      PrintStep(2, "bool", false);
      PrintStep(3, "bool", true);
      PrintStep(4, "string", false);
      PrintStep(5, "string", true);
      assert p[..6] == p;
    }

    /** Appends the `k`-th seeded overload: the one for `element`, or for
        its array type. */
    method PrintStep(k: nat, element: string, isArray: bool)
      requires Linked() && k < 6 && symbols == BuiltinTypes() + ArrayTypes(level) + PrintOverloads(level)[..k]
      requires IsScalarName(element)
      requires PrintOverloads(level)[k] ==
               PrintOverload(if isArray then ArrayTypeAt(element, level) else BuiltinTypeSym(element))
      modifies this
      ensures symbols == BuiltinTypes() + ArrayTypes(level) + PrintOverloads(level)[..k + 1]
    {
      PrintLookups(level, k);
      assert LookupSingle("void", false) == Some(BuiltinTypeSym("void"));
      if isArray {
        assert LookupSingle(element + ArrayTypeSuffix, false) == Some(ArrayTypeAt(element, level));
        DefinePrintFunctionGroup(element + ArrayTypeSuffix);
      } else {
        assert LookupSingle(element, false) == Some(BuiltinTypeSym(element));
        DefinePrintFunctionGroup(element);
      }
    }

    /** Adds `symbol` at this table's level; no duplicate check. */
    method Define(symbol: Symbol)
      modifies this
      ensures symbols == old(symbols) + [symbol.(scopeLevel := level)]
    {
      symbols := symbols + [symbol.(scopeLevel := level)];
    }

    /** Replaces the symbol at `index`. The analyser adds parameters to a
        function symbol after defining it, and the table holds that same
        object; with symbols as values, the table's copy is replaced. */
    method UpdateSymbol(index: nat, s: Symbol)
      requires index < |symbols|
      modifies this
      ensures symbols == old(symbols)[index := s]
    {
      symbols := symbols[index := s];
    }

    /** The first symbol called `symbolName` here, else in the enclosing
        tables unless only this one is asked. */
    function LookupSingle(symbolName: string, onlyCurrentScope: bool): (r: Option<Symbol>)
      requires Linked()
      reads footprint
      ensures r == ChainLookupSingle(Model(), symbolName, onlyCurrentScope)
      ensures FirstNamed(symbols, symbolName).Some? ==> r == FirstNamed(symbols, symbolName)
      decreases footprint
    {
      var result := FirstNamed(symbols, symbolName);
      if result.Some? then result
      else if enclosing != null && !onlyCurrentScope then enclosing.LookupSingle(symbolName, false)
      else None
    }

    /** Every symbol called `symbolName` in the innermost table that has one. */
    function LookupMany(symbolName: string, onlyCurrentScope: bool): (r: seq<Symbol>)
      requires Linked()
      reads footprint
      ensures r == ChainLookupMany(Model(), symbolName, onlyCurrentScope)
      decreases footprint
    {
      var result := AllNamed(symbols, symbolName);
      if result != [] then result
      else if enclosing != null && !onlyCurrentScope then enclosing.LookupMany(symbolName, false)
      else []
    }

    method DefineArrayType(typeName: string)
      requires Linked()
      modifies this
      ensures symbols == old(symbols) +
        [ArrayTypeSym(typeName + ArrayTypeSuffix, old(LookupSingle(typeName, false))).(scopeLevel := level)]
    {
      var symbolParamType := LookupSingle(typeName, false);
      Define(ArrayTypeSym(typeName + ArrayTypeSuffix, symbolParamType));
    }

    method DefinePrintFunctionGroup(paramType: string)
      requires Linked()
      modifies this
      ensures symbols == old(symbols) +
        [BuiltinFunctionSym("print", old(LookupSingle("void", false)),
                            [VariableSym("str", old(LookupSingle(paramType, false)))])]
    {
      var symbolVoid := LookupSingle("void", false);
      var symbolParamType := LookupSingle(paramType, false);
      var printFunction := BuiltinFunctionSym("print", symbolVoid, [VariableSym("str", symbolParamType)]);
      symbols := symbols + [printFunction];
    }
  }

  /** Defining a name a scope already has appends a second symbol, which
      `LookupSingle` never reaches: the first one keeps winning. */
  lemma RedefinitionIsShadowedByFirst(scope: Scope, s: Symbol, rest: seq<Scope>)
    requires HasName(scope.symbols, s.name)
    ensures var env := [scope.(symbols := scope.symbols + [s])] + rest;
            ChainLookupSingle(env, s.name, true) == FirstNamed(scope.symbols, s.name)
  {
    FirstNamedPrefix(scope.symbols, [s], s.name);
  }

  lemma {:induction false} FirstNamedPrefix(a: seq<Symbol>, b: seq<Symbol>, name: string)
    requires HasName(a, name)
    ensures FirstNamed(a + b, name) == FirstNamed(a, name)
  {
    if a[0].name != name {
      assert (a + b)[1..] == a[1..] + b;
      var i :| 0 <= i < |a| && a[i].name == name;
      assert a[1..][i - 1].name == name;
      FirstNamedPrefix(a[1..], b, name);
    }
  }
}
