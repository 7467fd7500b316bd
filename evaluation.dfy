// The evaluator's rules, stated as functions over values.
//
// A visit yields null or a result carrying a control signal and a value, and
// it reads and writes the top record of the call stack and appends printed
// lines. The state is the call stack as a sequence of `Frame`s (top last)
// and the printed lines. Calls and loop iterations may go on forever in the
// source; here every call and every iteration spends one unit of `fuel`,
// and running out is the explicit error `OutOfFuel`. The function bodies
// come from the analyser, keyed by the identity of their function symbol.
module Evaluation {
  import opened Wrappers
  import opened Tokens
  import opened Symbols
  import opened Ast
  import opened Values
  import opened Memory

  datatype Control = NoControl | ReturnControl | BreakControl | ContinueControl

  /** A visit's non-null result. */
  datatype VisitResult = VisitResult(control: Control, value: Value)

  /** The call stack, top last, and the lines printed so far. */
  datatype Mem = Mem(stack: seq<Frame>, out: seq<string>)

  /** The bodies of the user functions, by function identity. */
  type Code = map<nat, Node>

  /** What a visit yields, null included, with the state after it. */
  type Step<T> = Result<(T, Mem), RuntimeError>

  function Yield(v: Value): Option<VisitResult> {
    Some(VisitResult(ReturnControl, v))
  }

  /** The value of a visit that must not be null. */
  function ValueOf(r: Option<VisitResult>): Result<Value, RuntimeError> {
    if r.None? then Failure(NullReference) else Success(r.value.value)
  }

  /** A statement's result is passed on only when it carries a signal. */
  function Forward(r: Option<VisitResult>): Option<VisitResult> {
    if r.Some? && r.value.control != NoControl then r else None
  }

  // -------------------------------------------------------------------------
  // Literals

  predicate IsDigit(c: char) {
    '0' <= c <= '9'
  }

  function DigitValue(c: char): nat
    requires IsDigit(c)
  {
    c as int - '0' as int
  }

  /** The value of a text of decimal digits. */
  function DigitsValue(s: string): nat
    requires forall i :: 0 <= i < |s| ==> IsDigit(s[i])
  {
    if s == [] then 0 else DigitsValue(s[..|s| - 1]) * 10 + DigitValue(s[|s| - 1])
  }

  /** A number literal's value: its text must be decimal digits. */
  function NumberOf(t: Token): (r: Result<int, RuntimeError>)
    ensures r.Failure? ==> r.error == Format(Name(t))
  {
    var s := Name(t);
    if |s| > 0 && forall i :: 0 <= i < |s| ==> IsDigit(s[i]) then Success(DigitsValue(s))
    else Failure(Format(s))
  }

  function BoolOf(t: Token): (r: Result<bool, RuntimeError>)
    ensures r.Failure? ==> r.error == Format(Name(t))
  {
    match ToBool(Name(t))
    case Success(b) => Success(b)
    case Failure(_) => Failure(Format(Name(t)))
  }

  /** The value a declaration gives a variable of its type, if any: the
      source writes nothing for a type it does not list. */
  function DefaultValue(spec: TypeSpec): Option<Value> {
    match spec
    case ArrayTypeSpec(_, _) => Some(Arr([]))
    case NonArrayTypeSpec(t) =>
      if t.kind == TypeNumber then Some(Num(0))
      else if t.kind == TypeBool then Some(Bool(false))
      else if t.kind == TypeString then Some(Str(""))
      else None
  }

  // -------------------------------------------------------------------------
  // Operators on values

  /** The model's integer stand-in for the source's floating-point `/` and
      `%`: a quotient truncated toward zero and the remainder that goes with
      it, so `7 / 2` is 3 here where the source gives 3.5. */
  function Quotient(a: int, b: int): int
    requires b != 0
  {
    var q := (if a < 0 then -a else a) / (if b < 0 then -b else b);
    if (a < 0) == (b < 0) then q else -q
  }

  function Remainder(a: int, b: int): int
    requires b != 0
  {
    a - b * Quotient(a, b)
  }

  function ApplyUnary(k: TokenKind, v: Value): (r: Result<Value, RuntimeError>)
  {
    if k == Plus then (if v.Num? then Success(v) else Failure(InvalidCast))
    else if k == Minus then (if v.Num? then Success(Num(-v.n)) else Failure(InvalidCast))
    else if k == Not then (if v.Bool? then Success(Bool(!v.b)) else Failure(InvalidCast))
    else Failure(InvalidNode)
  }

  predicate IsComparison(k: TokenKind) {
    k in {Greater, GreaterEqual, Less, LessEqual}
  }

  /** `==` of two host values: null equals only null, and values of the same
      scalar kind compare by value. */
  function ValueEquals(a: Value, b: Value): Result<bool, RuntimeError> {
    if a.Null? || b.Null? then Success(a == b)
    else if a.Num? && b.Num? then Success(a.n == b.n)
    else if a.Bool? && b.Bool? then Success(a.b == b.b)
    else if a.Str? && b.Str? then Success(a.s == b.s)
    else Failure(InvalidCast)
  }

  /** The strict binary operators, once both operands are known. `+` with a
      string on either side concatenates the texts of both. */
  function ApplyBinary(k: TokenKind, a: Value, b: Value): (r: Result<Value, RuntimeError>)
  {
    if k == Plus then
      if a.Num? && b.Num? then Success(Num(a.n + b.n))
      else if a.Str? || b.Str? then Success(Str(ValueText(a) + ValueText(b)))
      else Failure(InvalidCast)
    else if k == Minus || k == Multiplication || k == Divide || k == Modulo then
      if !(a.Num? && b.Num?) then Failure(InvalidCast)
      else if k == Minus then Success(Num(a.n - b.n))
      else if k == Multiplication then Success(Num(a.n * b.n))
      else if b.n == 0 then Failure(DivideByZero)
      else if k == Divide then Success(Num(Quotient(a.n, b.n)))
      else Success(Num(Remainder(a.n, b.n)))
    else if k == Equal || k == NotEqual then
      var e :- ValueEquals(a, b);
      Success(Bool(if k == Equal then e else !e))
    else if IsComparison(k) then
      if !(a.Num? && b.Num?) then Failure(InvalidCast)
      else if k == Greater then Success(Bool(a.n > b.n))
      else if k == GreaterEqual then Success(Bool(a.n >= b.n))
      else if k == Less then Success(Bool(a.n < b.n))
      else Success(Bool(a.n <= b.n))
    else Failure(InvalidNode)
  }

  // -------------------------------------------------------------------------
  // Memory steps

  /** `Top[name]` read. */
  function ReadTop(m: Mem, name: string): (r: Result<Value, RuntimeError>)
  {
    var top :- StackTop(m.stack);
    FrameAt(top, name)
  }

  /** `Top[name] = v`. */
  function WriteTop(m: Mem, name: string, v: Value): (r: Result<Mem, RuntimeError>)
    ensures r.Success? ==> |r.value.stack| == |m.stack| && r.value.out == m.out
  {
    var stack :- StackSetTop(m.stack, name, v);
    Success(m.(stack := stack))
  }

  /** One declaration: the type's initial value written under the name. */
  function Declare(m: Mem, d: Decl): (r: Result<Mem, RuntimeError>)
    ensures r.Success? ==> |r.value.stack| == |m.stack| && r.value.out == m.out
  {
    var v := DefaultValue(d.vtype.spec);
    if v.None? then Success(m) else WriteTop(m, VariableName(d.variable), v.value)
  }

  /** The declarations in order. */
  function DeclareAll(m: Mem, decls: seq<Decl>): (r: Result<Mem, RuntimeError>)
    ensures r.Success? ==> |r.value.stack| == |m.stack| && r.value.out == m.out
    decreases |decls|
  {
    if decls == [] then Success(m)
    else
      var m1 :- Declare(m, decls[0]);
      DeclareAll(m1, decls[1..])
  }

  /** The same value written to every declared name, in order. */
  function WriteAll(m: Mem, decls: seq<Decl>, v: Value): (r: Result<Mem, RuntimeError>)
    ensures r.Success? ==> |r.value.stack| == |m.stack| && r.value.out == m.out
    decreases |decls|
  {
    if decls == [] then Success(m)
    else
      var m1 :- WriteTop(m, VariableName(decls[0].variable), v);
      WriteAll(m1, decls[1..], v)
  }

  /** `print`: the value of its parameter `str` in the top record, as a new
      line of output. */
  function PrintCall(m: Mem): (r: Step<Option<VisitResult>>)
    ensures r.Success? ==> r.value.1.stack == m.stack && r.value.0.None?
  {
    var v :- ReadTop(m, "str");
    Success((None, m.(out := m.out + [ValueText(v)])))
  }

  /** The builtin functions: only `print` has a body. */
  function BuiltinCall(m: Mem, name: string): (r: Step<Option<VisitResult>>)
    ensures r.Success? ==> r.value.1.stack == m.stack && r.value.0.None?
  {
    if name == "print" then PrintCall(m) else Failure(MissingBuiltin(name))
  }

  // -------------------------------------------------------------------------
  // The visits

  function Eval(code: Code, fuel: nat, m: Mem, n: Node): Step<Option<VisitResult>>
    decreases fuel, Size(n), 2
  {
    match n
    case Empty => Success((None, m))
    case Number(t) =>
      var v :- NumberOf(t);
      Success((Yield(Num(v)), m))
    case BoolLit(t) =>
      var b :- BoolOf(t);
      Success((Yield(Bool(b)), m))
    case StringLit(t) => Success((Yield(Str(Name(t))), m))
    case Var(v) =>
      var x :- ReadTop(m, VariableName(v));
      Success((Yield(x), m))
    case Compound(_, children) => EvalChildren(code, fuel, m, children)
    case BinOp(_, _, _) => EvalBinary(code, fuel, m, n)
    case UnOp(_, _) => EvalUnary(code, fuel, m, n)
    case Declarations(decls) =>
      var m1 :- DeclareAll(m, decls);
      Success((None, m1))
    case ArrayInit(_, items) =>
      var x :- EvalItems(code, fuel, m, items, []);
      Success((Yield(Arr(x.0)), x.1))
    case Index(_, _, _) => EvalIndex(code, fuel, m, n)
    case Assign(_, _, _) => EvalAssign(code, fuel, m, n)
    case FunctionDef(_, _, _, _) => Success((None, m))
    case Call(_, name, args, fn) => EvalCall(code, fuel, m, name, args, fn)
    case Return(_, e) =>
      if e.None? then Success((Yield(Null), m))
      else
        assert SizeOpt(e) == Size(e.value);
        var x :- Eval(code, fuel, m, e.value);
        var v :- ValueOf(x.0);
        Success((Yield(v), x.1))
    case Break(_) => Success((Some(VisitResult(BreakControl, Null)), m))
    case Continue(_) => Success((Some(VisitResult(ContinueControl, Null)), m))
    case IfElse(_, _, _, _, _) => EvalIfElse(code, fuel, m, n)
    case While(_, cond, body) => EvalWhile(code, fuel, m, cond, body)
    case For(_, _, _, _, _) => Failure(NoVisitMethod)
  }

  /** A visit whose value must be a boolean: the conditions of `if` and
      `while`. */
  function EvalCondition(code: Code, fuel: nat, m: Mem, cond: Node): Step<bool>
    decreases fuel, Size(cond), 3
  {
    var x :- Eval(code, fuel, m, cond);
    var v :- ValueOf(x.0);
    if v.Bool? then Success((v.b, x.1)) else Failure(InvalidCast)
  }

  /** A block's children from the first on: `return`, `break` and
      `continue` end the block with their signal, and so does any child
      whose result carries a signal; a block that runs to its end yields
      null. */
  function EvalChildren(code: Code, fuel: nat, m: Mem, children: seq<Node>): Step<Option<VisitResult>>
    decreases fuel, SizeSeq(children), 3
  {
    if children == [] then Success((None, m))
    else
      var child := children[0];
      if child.Break? then Success((Some(VisitResult(BreakControl, Null)), m))
      else if child.Continue? then Success((Some(VisitResult(ContinueControl, Null)), m))
      else
        var x :- Eval(code, fuel, m, child);
        if child.Return? then
          var v :- ValueOf(x.0);
          Success((Yield(v), x.1))
        else if Forward(x.0).Some? then Success(x)
        else EvalChildren(code, fuel, x.1, children[1..])
  }

  function EvalUnary(code: Code, fuel: nat, m: Mem, n: Node): Step<Option<VisitResult>>
    requires n.UnOp?
    decreases fuel, Size(n), 1
  {
    var x :- Eval(code, fuel, m, n.operand);
    var v :- ValueOf(x.0);
    var r :- ApplyUnary(n.token.kind, v);
    Success((Some(VisitResult(NoControl, r)), x.1))
  }

  /** `&&` and `||` look at the right operand only when the left one does
      not decide; the other operators evaluate both, left first. */
  function EvalBinary(code: Code, fuel: nat, m: Mem, n: Node): Step<Option<VisitResult>>
    requires n.BinOp?
    decreases fuel, Size(n), 1
  {
    var k := n.token.kind;
    var x :- Eval(code, fuel, m, n.left);
    var a :- ValueOf(x.0);
    if k == And || k == Or then
      if !a.Bool? then Failure(InvalidCast)
      else if a.b == (k == Or) then Success((Some(VisitResult(NoControl, a)), x.1))
      else
        var y :- Eval(code, fuel, x.1, n.right);
        var b :- ValueOf(y.0);
        if b.Bool? then Success((Some(VisitResult(NoControl, b)), y.1)) else Failure(InvalidCast)
    else
      var y :- Eval(code, fuel, x.1, n.right);
      var b :- ValueOf(y.0);
      var r :- ApplyBinary(k, a, b);
      Success((Some(VisitResult(NoControl, r)), y.1))
  }

  /** The items of an array literal, appended to `done`. */
  function EvalItems(code: Code, fuel: nat, m: Mem, items: seq<Node>, done: seq<Value>): Step<seq<Value>>
    decreases fuel, SizeSeq(items), 3
  {
    if items == [] then Success((done, m))
    else
      var x :- Eval(code, fuel, m, items[0]);
      var v :- ValueOf(x.0);
      EvalItems(code, fuel, x.1, items[1..], done + [v])
  }

  /** A negative index counts from the end. */
  function EvalIndex(code: Code, fuel: nat, m: Mem, n: Node): Step<Option<VisitResult>>
    requires n.Index?
    decreases fuel, Size(n), 1
  {
    var x :- Eval(code, fuel, m, n.indexed);
    var a :- ValueOf(x.0);
    if !a.Arr? then Failure(InvalidCast)
    else
      var y :- Eval(code, fuel, x.1, n.index);
      var i :- ValueOf(y.0);
      if !i.Num? then Failure(InvalidCast)
      else
        var k := if i.n < 0 then |a.items| + i.n else i.n;
        if 0 <= k < |a.items| then Success((Yield(a.items[k]), y.1)) else Failure(IndexOutOfRange)
  }

  /** The right side is evaluated once, before the left side is looked at;
      a declaring assignment first initialises every name and then writes
      the value to each. */
  function EvalAssign(code: Code, fuel: nat, m: Mem, n: Node): Step<Option<VisitResult>>
    requires n.Assign?
    decreases fuel, Size(n), 1
  {
    var x :- Eval(code, fuel, m, n.right);
    var v :- ValueOf(x.0);
    if n.left.Var? then
      var m1 :- WriteTop(x.1, VariableName(n.left.v), v);
      Success((None, m1))
    else if n.left.Declarations? then
      var m1 :- DeclareAll(x.1, n.left.decls);
      var m2 :- WriteAll(m1, n.left.decls, v);
      Success((None, m2))
    else Failure(InvalidNode)
  }

  /** The arguments, one per formal parameter, each evaluated in the
      caller's state and written into the callee's record under the formal's
      name. Arguments beyond the formals are not evaluated. */
  function EvalArgs(code: Code, fuel: nat, m: Mem, args: seq<Node>, formals: seq<Symbol>, record: Frame): Step<Frame>
    decreases fuel, SizeSeq(args), 3
  {
    if formals == [] then Success((record, m))
    else if args == [] then Failure(IndexOutOfRange)
    else
      var x :- Eval(code, fuel, m, args[0]);
      var v :- ValueOf(x.0);
      EvalArgs(code, fuel, x.1, args[1..], formals[1..], FrameSet(record, formals[0].name, v))
  }

  /** A call: the callee's record, one level below the function's scope,
      filled with the arguments, is pushed; the builtin or the body runs in
      it; it is popped; the body's result is the call's. */
  function EvalCall(code: Code, fuel: nat, m: Mem, name: string, args: seq<Node>, fn: Option<Symbol>): Step<Option<VisitResult>>
    decreases fuel, SizeSeq(args) + 1, 1
  {
    if fn.None? then Failure(NullReference)
    else
      var f := fn.value;
      var a :- EvalArgs(code, fuel, m, args, f.params, Frame(name, FunctionRecord, f.scopeLevel + 1, map[]));
      var pushed := a.1.(stack := StackPush(a.1.stack, a.0));
      var b :- EvalBody(code, fuel, pushed, name, f);
      var popped :- StackPop(b.1.stack);
      Success((b.0, b.1.(stack := popped.1)))
  }

  /** The callee, in its pushed record: a builtin runs by name, a user
      function runs its body, which costs one unit of fuel. */
  function EvalBody(code: Code, fuel: nat, m: Mem, name: string, f: Symbol): Step<Option<VisitResult>>
    decreases fuel, 0, 0
  {
    if f.cls == BuiltinFunction then BuiltinCall(m, name)
    else if f.id !in code then Failure(NullReference)
    else if fuel == 0 then Failure(OutOfFuel)
    else Eval(code, fuel - 1, m, code[f.id])
  }

  /** The steps of a call, one lemma per way it ends: an argument fails, the
      callee fails, or the callee's result comes back with its record
      popped. */
  lemma CallFailsInArguments(code: Code, fuel: nat, m: Mem, name: string, args: seq<Node>, f: Symbol, e: RuntimeError)
    requires EvalArgs(code, fuel, m, args, f.params, Frame(name, FunctionRecord, f.scopeLevel + 1, map[])) == Failure(e)
    ensures EvalCall(code, fuel, m, name, args, Some(f)) == Failure(e)
  {
  }

  lemma CallFailsInBody(code: Code, fuel: nat, m: Mem, name: string, args: seq<Node>, f: Symbol, a: (Frame, Mem), e: RuntimeError)
    requires EvalArgs(code, fuel, m, args, f.params, Frame(name, FunctionRecord, f.scopeLevel + 1, map[])) == Success(a)
    requires EvalBody(code, fuel, a.1.(stack := StackPush(a.1.stack, a.0)), name, f) == Failure(e)
    ensures EvalCall(code, fuel, m, name, args, Some(f)) == Failure(e)
  {
  }

  lemma CallReturns(code: Code, fuel: nat, m: Mem, name: string, args: seq<Node>, f: Symbol, a: (Frame, Mem), b: Option<VisitResult>, after: Mem)
    requires EvalArgs(code, fuel, m, args, f.params, Frame(name, FunctionRecord, f.scopeLevel + 1, map[])) == Success(a)
    requires EvalBody(code, fuel, a.1.(stack := StackPush(a.1.stack, a.0)), name, f) == Success((b, after))
    requires |after.stack| > 0
    ensures EvalCall(code, fuel, m, name, args, Some(f)) == Success((b, after.(stack := after.stack[..|after.stack| - 1])))
  {
  }

  /** Only the branch the condition picks runs, and its result is passed on
      when it carries a signal. */
  function EvalIfElse(code: Code, fuel: nat, m: Mem, n: Node): Step<Option<VisitResult>>
    requires n.IfElse?
    decreases fuel, Size(n), 1
  {
    var c :- EvalCondition(code, fuel, m, n.cond);
    if c.0 then
      var x :- Eval(code, fuel, c.1, n.ifTrue);
      Success((Forward(x.0), x.1))
    else if n.elseBranch.Some? then
      assert SizeOpt(n.elseBranch) == Size(n.elseBranch.value);
      var x :- Eval(code, fuel, c.1, n.elseBranch.value);
      Success((Forward(x.0), x.1))
    else Success((None, c.1))
  }

  function EvalWhile(code: Code, fuel: nat, m: Mem, cond: Node, body: Node): Step<Option<VisitResult>>
    decreases fuel, Size(cond) + Size(body) + 1, 1
  {
    var c :- EvalCondition(code, fuel, m, cond);
    WhileFrom(code, fuel, c.1, c.0, cond, body)
  }

  /** How a pass through a loop's body ends: leaving the loop with a
      result, or going round again with the condition's new value. */
  datatype Pass = Leave(result: Option<VisitResult>) | Again(condition: bool)

  /** One pass with the condition true: a `return` signal from the body
      leaves the loop with it, a `break` leaves it with null, anything else
      evaluates the condition again. */
  function PassOf(code: Code, fuel: nat, m: Mem, cond: Node, body: Node): Step<Pass>
    decreases fuel, Size(cond) + Size(body), 0
  {
    var x :- Eval(code, fuel, m, body);
    if x.0.Some? && x.0.value.control == ReturnControl then Success((Leave(x.0), x.1))
    else if x.0.Some? && x.0.value.control == BreakControl then Success((Leave(None), x.1))
    else
      var c :- EvalCondition(code, fuel, x.1, cond);
      Success((Again(c.0), c.1))
  }

  /** The loop once the condition has been evaluated; every pass costs one
      unit of fuel. */
  function WhileFrom(code: Code, fuel: nat, m: Mem, condition: bool, cond: Node, body: Node): Step<Option<VisitResult>>
    decreases fuel, Size(cond) + Size(body) + 1, 0
  {
    if !condition then Success((None, m))
    else if fuel == 0 then Failure(OutOfFuel)
    else AfterPass(code, fuel, PassOf(code, fuel, m, cond, body), cond, body)
  }

  /** What the loop does after a pass: an error there is the loop's,
      leaving gives the loop's result, and going round again costs one unit
      of fuel. */
  function AfterPass(code: Code, fuel: nat, pass: Step<Pass>, cond: Node, body: Node): Step<Option<VisitResult>>
    requires fuel > 0
    decreases fuel, Size(cond) + Size(body), 1
  {
    if pass.Failure? then Failure(pass.error)
    else if pass.value.0.Leave? then Success((pass.value.0.result, pass.value.1))
    else WhileFrom(code, fuel - 1, pass.value.1, pass.value.0.condition, cond, body)
  }

  /** A loop starts with its condition: an error there is the loop's, and
      otherwise the loop goes on from the condition's value. */
  lemma WhileEnters(code: Code, fuel: nat, m: Mem, cond: Node, body: Node)
    ensures EvalCondition(code, fuel, m, cond).Failure? ==>
      EvalWhile(code, fuel, m, cond, body) == Failure(EvalCondition(code, fuel, m, cond).error)
    ensures EvalCondition(code, fuel, m, cond).Success? ==>
      var c := EvalCondition(code, fuel, m, cond).value;
      EvalWhile(code, fuel, m, cond, body) == WhileFrom(code, fuel, c.1, c.0, cond, body)
  {
  }

  /** A turn of the loop with the condition true: an error in the pass is
      the loop's, leaving ends the loop there, and going round again is the
      loop from the pass's state with one unit of fuel less. */
  lemma WhileTurns(code: Code, fuel: nat, m: Mem, cond: Node, body: Node, pass: Step<Pass>)
    requires fuel > 0 && PassOf(code, fuel, m, cond, body) == pass
    ensures pass.Failure? ==> WhileFrom(code, fuel, m, true, cond, body) == Failure(pass.error)
    ensures pass.Success? && pass.value.0.Leave? ==>
      WhileFrom(code, fuel, m, true, cond, body) == Success((pass.value.0.result, pass.value.1))
    ensures pass.Success? && pass.value.0.Again? ==>
      WhileFrom(code, fuel, m, true, cond, body) == WhileFrom(code, fuel - 1, pass.value.1, pass.value.0.condition, cond, body)
  {
    assert WhileFrom(code, fuel, m, true, cond, body) == AfterPass(code, fuel, pass, cond, body);
  }

  /** A run: a program record `Main` at level 1 is pushed, the function the
      analyser resolved as `Main` is called with no arguments, and the record
      is popped. */
  function EvalProgram(code: Code, fuel: nat, m: Mem, p: ProgramNode): Step<Option<VisitResult>>
  {
    var pushed := m.(stack := StackPush(m.stack, Frame("Main", ProgramRecord, 1, map[])));
    var r :- EvalCall(code, fuel, pushed, "Main", [], p.main);
    var popped :- StackPop(r.1.stack);
    Success((r.0, r.1.(stack := popped.1)))
  }
}
