// The evaluator as the source runs it: an object holding a call stack of
// activation records, whose visits push and pop records, write the top
// record's members and print. Every visit is proved to agree with the
// matching rule of `Evaluation`, on the result and on the state it leaves.
module InterpreterService {
  import opened Wrappers
  import opened Tokens
  import opened Symbols
  import opened Ast
  import opened Values
  import opened Memory
  import opened Evaluation

  /** What a visit method returns: null or a result, or the exception. */
  type Visited = Result<Option<VisitResult>, RuntimeError>

  /** A method's result and final state are the rule's. */
  ghost predicate Agrees<T>(r: Result<T, RuntimeError>, spec: Step<T>, post: Mem) {
    match spec
    case Success(x) => r == Success(x.0) && post == x.1
    case Failure(e) => r == Failure(e)
  }

  /** The same for the steps that yield only a state. */
  ghost predicate Updates(r: Result<(), RuntimeError>, spec: Result<Mem, RuntimeError>, post: Mem) {
    match spec
    case Success(m) => r.Success? && post == m
    case Failure(e) => r == Failure(e)
  }

  class Interpreter {
    const callStack: CallStack
    /** The function bodies the analyser attached, by function identity. */
    const code: Code
    /** The lines `print` has written. */
    var output: seq<string>

    /** The interpreter's state as the rules see it. */
    ghost function State(): Mem
      reads this, callStack
    {
      Mem(callStack.frames, output)
    }

    constructor (bodies: Code)
      ensures State() == Mem([], []) && code == bodies
    {
      callStack := new CallStack();
      code := bodies;
      output := [];
    }

    // -----------------------------------------------------------------------
    // The top record

    /** `_callStack.Top[name] = v`. */
    method WriteTop(name: string, v: Value) returns (r: Result<(), RuntimeError>)
      modifies callStack
      ensures Updates(r, Evaluation.WriteTop(old(State()), name, v), State())
    {
      r := callStack.SetTop(name, v);
    }

    /** `_callStack.Top[name]`. */
    method ReadTop(name: string) returns (r: Result<Value, RuntimeError>)
      ensures r == Evaluation.ReadTop(State(), name)
    {
      var top :- callStack.Top();
      r := FrameAt(top, name);
    }

    // -----------------------------------------------------------------------
    // The visits

    method Visit(fuel: nat, n: Node) returns (r: Visited)
      modifies this, callStack
      ensures r.Success? ==> |callStack.frames| == old(|callStack.frames|)
      ensures Agrees(r, Eval(code, fuel, old(State()), n), State())
      decreases fuel, Size(n), 3
    {
      if n.Compound? || n.Declarations? || n.Assign? || n.FunctionDef? || n.Return? || n.Break? || n.Continue? || n.IfElse? || n.While? || n.For? || n.Empty? {
        r := VisitStatement(fuel, n);
      } else {
        r := VisitExpression(fuel, n);
      }
    }

    /** The dispatch of `Visit` over expression nodes. */
    method VisitExpression(fuel: nat, n: Node) returns (r: Visited)
      requires n.Number? || n.BoolLit? || n.StringLit? || n.Var? || n.BinOp? || n.UnOp? || n.ArrayInit? || n.Index? || n.Call?
      modifies this, callStack
      ensures r.Success? ==> |callStack.frames| == old(|callStack.frames|)
      ensures Agrees(r, Eval(code, fuel, old(State()), n), State())
      decreases fuel, Size(n), 2
    {
      match n
      case Number(t) =>
        var v :- NumberOf(t);
        r := Success(Yield(Num(v)));
      case BoolLit(t) =>
        var b :- BoolOf(t);
        r := Success(Yield(Bool(b)));
      case StringLit(t) =>
        r := Success(Yield(Str(Name(t))));
      case Var(v) =>
        var x :- ReadTop(VariableName(v));
        r := Success(Yield(x));
      case BinOp(_, _, _) =>
        r := VisitBinaryOperator(fuel, n);
      case UnOp(_, _) =>
        r := VisitUnaryOperator(fuel, n);
      case ArrayInit(_, items) =>
        var values :- VisitArrayInitialization(fuel, items);
        r := Success(Yield(Arr(values)));
      case Index(_, _, _) =>
        r := VisitIndexExpression(fuel, n);
      case Call(_, name, args, fn) =>
        r := VisitFunctionCall(fuel, name, args, fn);
    }

    /** The dispatch of `Visit` over statement nodes. */
    method VisitStatement(fuel: nat, n: Node) returns (r: Visited)
      requires n.Compound? || n.Declarations? || n.Assign? || n.FunctionDef? || n.Return? || n.Break? || n.Continue? || n.IfElse? || n.While? || n.For? || n.Empty?
      modifies this, callStack
      ensures r.Success? ==> |callStack.frames| == old(|callStack.frames|)
      ensures Agrees(r, Eval(code, fuel, old(State()), n), State())
      decreases fuel, Size(n), 2
    {
      ghost var st0 := State();
      match n
      case Empty =>
        r := Success(None);
      case Compound(_, children) =>
        r := VisitCompound(fuel, children);
        assert Eval(code, fuel, st0, n) == EvalChildren(code, fuel, st0, children);
      case Declarations(decls) =>
        assert Eval(code, fuel, st0, n) == (var m1 :- DeclareAll(st0, decls); Success((None, m1)));
        var _ :- VisitVariablesDeclarations(decls);
        r := Success(None);
      case Assign(_, _, _) =>
        r := VisitAssign(fuel, n);
        assert Eval(code, fuel, st0, n) == EvalAssign(code, fuel, st0, n);
      case FunctionDef(_, _, _, _) =>
        r := Success(None);
      case Return(_, _) =>
        r := VisitReturnStatement(fuel, n);
      case Break(_) =>
        r := Success(Some(VisitResult(BreakControl, Null)));
      case Continue(_) =>
        r := Success(Some(VisitResult(ContinueControl, Null)));
      case IfElse(_, _, _, _, _) =>
        r := VisitIfElseStatement(fuel, n);
        assert Eval(code, fuel, st0, n) == EvalIfElse(code, fuel, st0, n);
      case While(_, cond, body) =>
        r := VisitWhileStatement(fuel, cond, body);
        assert Eval(code, fuel, st0, n) == EvalWhile(code, fuel, st0, cond, body);
      case For(_, _, _, _, _) =>
        r := Failure(NoVisitMethod);
    }

    method VisitReturnStatement(fuel: nat, n: Node) returns (r: Visited)
      requires n.Return?
      modifies this, callStack
      ensures r.Success? ==> |callStack.frames| == old(|callStack.frames|)
      ensures Agrees(r, Eval(code, fuel, old(State()), n), State())
      decreases fuel, Size(n), 1
    {
      if n.expr.None? {
        return Success(Yield(Null));
      }
      assert SizeOpt(n.expr) == Size(n.expr.value);
      var x :- Visit(fuel, n.expr.value);
      var v :- ValueOf(x);
      r := Success(Yield(v));
    }

    /** One condition of `if` or `while`: it must be a boolean. */
    method VisitCondition(fuel: nat, cond: Node) returns (r: Result<bool, RuntimeError>)
      modifies this, callStack
      ensures r.Success? ==> |callStack.frames| == old(|callStack.frames|)
      ensures Agrees(r, EvalCondition(code, fuel, old(State()), cond), State())
      decreases fuel, Size(cond), 4
    {
      var x :- Visit(fuel, cond);
      var v :- ValueOf(x);
      if !v.Bool? {
        return Failure(InvalidCast);
      }
      r := Success(v.b);
    }

    method VisitCompound(fuel: nat, children: seq<Node>) returns (r: Visited)
      modifies this, callStack
      ensures r.Success? ==> |callStack.frames| == old(|callStack.frames|)
      ensures Agrees(r, EvalChildren(code, fuel, old(State()), children), State())
      decreases fuel, SizeSeq(children), 4
    {
      var i := 0;
      while i < |children|
        invariant 0 <= i <= |children| && |callStack.frames| == old(|callStack.frames|)
        invariant EvalChildren(code, fuel, old(State()), children) == EvalChildren(code, fuel, State(), children[i..])
        decreases |children| - i
      {
        var child := children[i];
        SizeSeqElement(children, i);
        assert children[i..][1..] == children[i + 1..];
        if child.Break? {
          return Success(Some(VisitResult(BreakControl, Null)));
        } else if child.Continue? {
          return Success(Some(VisitResult(ContinueControl, Null)));
        }
        var x :- Visit(fuel, child);
        if child.Return? {
          var v :- ValueOf(x);
          return Success(Yield(v));
        } else if Forward(x).Some? {
          return Success(x);
        }
        i := i + 1;
      }
      r := Success(None);
    }

    method VisitUnaryOperator(fuel: nat, n: Node) returns (r: Visited)
      requires n.UnOp?
      modifies this, callStack
      ensures r.Success? ==> |callStack.frames| == old(|callStack.frames|)
      ensures Agrees(r, EvalUnary(code, fuel, old(State()), n), State())
      decreases fuel, Size(n), 1
    {
      var x :- Visit(fuel, n.operand);
      var v :- ValueOf(x);
      var result :- ApplyUnary(n.token.kind, v);
      r := Success(Some(VisitResult(NoControl, result)));
    }

    method VisitBinaryOperator(fuel: nat, n: Node) returns (r: Visited)
      requires n.BinOp?
      modifies this, callStack
      ensures r.Success? ==> |callStack.frames| == old(|callStack.frames|)
      ensures Agrees(r, EvalBinary(code, fuel, old(State()), n), State())
      decreases fuel, Size(n), 1
    {
      var k := n.token.kind;
      var x :- Visit(fuel, n.left);
      var a :- ValueOf(x);
      if k == And || k == Or {
        if !a.Bool? {
          return Failure(InvalidCast);
        }
        if a.b == (k == Or) {
          return Success(Some(VisitResult(NoControl, a)));
        }
        var y :- Visit(fuel, n.right);
        var b :- ValueOf(y);
        if !b.Bool? {
          return Failure(InvalidCast);
        }
        return Success(Some(VisitResult(NoControl, b)));
      }
      var y :- Visit(fuel, n.right);
      var b :- ValueOf(y);
      var result :- ApplyBinary(k, a, b);
      r := Success(Some(VisitResult(NoControl, result)));
    }

    /** The items' values, in order. */
    method VisitArrayInitialization(fuel: nat, items: seq<Node>) returns (r: Result<seq<Value>, RuntimeError>)
      modifies this, callStack
      ensures r.Success? ==> |callStack.frames| == old(|callStack.frames|)
      ensures Agrees(r, EvalItems(code, fuel, old(State()), items, []), State())
      decreases fuel, SizeSeq(items), 4
    {
      var result: seq<Value> := [];
      var i := 0;
      while i < |items|
        invariant 0 <= i <= |items| && |callStack.frames| == old(|callStack.frames|)
        invariant EvalItems(code, fuel, old(State()), items, []) == EvalItems(code, fuel, State(), items[i..], result)
        decreases |items| - i
      {
        SizeSeqElement(items, i);
        assert items[i..][1..] == items[i + 1..];
        var x :- Visit(fuel, items[i]);
        var v :- ValueOf(x);
        result := result + [v];
        i := i + 1;
      }
      r := Success(result);
    }

    method VisitIndexExpression(fuel: nat, n: Node) returns (r: Visited)
      requires n.Index?
      modifies this, callStack
      ensures r.Success? ==> |callStack.frames| == old(|callStack.frames|)
      ensures Agrees(r, EvalIndex(code, fuel, old(State()), n), State())
      decreases fuel, Size(n), 1
    {
      var x :- Visit(fuel, n.indexed);
      var list :- ValueOf(x);
      if !list.Arr? {
        return Failure(InvalidCast);
      }
      var y :- Visit(fuel, n.index);
      var index :- ValueOf(y);
      if !index.Num? {
        return Failure(InvalidCast);
      }
      var k := if index.n < 0 then |list.items| + index.n else index.n;
      if !(0 <= k < |list.items|) {
        return Failure(IndexOutOfRange);
      }
      r := Success(Yield(list.items[k]));
    }

    /** A declaration writes its type's initial value, if the type has one. */
    method VisitVariableDeclaration(d: Decl) returns (r: Result<(), RuntimeError>)
      modifies callStack
      ensures Updates(r, Declare(old(State()), d), State())
    {
      var name := VariableName(d.variable);
      match d.vtype.spec
      case ArrayTypeSpec(_, _) =>
        r := WriteTop(name, Arr([]));
      case NonArrayTypeSpec(t) =>
        if t.kind == TypeNumber {
          r := WriteTop(name, Num(0));
        } else if t.kind == TypeBool {
          r := WriteTop(name, Bool(false));
        } else if t.kind == TypeString {
          r := WriteTop(name, Str(""));
        } else {
          r := Success(());
        }
    }

    method VisitVariablesDeclarations(decls: seq<Decl>) returns (r: Result<(), RuntimeError>)
      modifies callStack
      ensures Updates(r, DeclareAll(old(State()), decls), State())
    {
      var i := 0;
      while i < |decls|
        invariant 0 <= i <= |decls|
        invariant DeclareAll(old(State()), decls) == DeclareAll(State(), decls[i..])
      {
        assert decls[i..][1..] == decls[i + 1..];
        var _ :- VisitVariableDeclaration(decls[i]);
        i := i + 1;
      }
      r := Success(());
    }

    /** The value written to every declared name. */
    method WriteToAll(decls: seq<Decl>, v: Value) returns (r: Result<(), RuntimeError>)
      modifies callStack
      ensures Updates(r, WriteAll(old(State()), decls, v), State())
    {
      var i := 0;
      while i < |decls|
        invariant 0 <= i <= |decls|
        invariant WriteAll(old(State()), decls, v) == WriteAll(State(), decls[i..], v)
      {
        assert decls[i..][1..] == decls[i + 1..];
        var _ :- WriteTop(VariableName(decls[i].variable), v);
        i := i + 1;
      }
      r := Success(());
    }

    method VisitAssign(fuel: nat, n: Node) returns (r: Visited)
      requires n.Assign?
      modifies this, callStack
      ensures r.Success? ==> |callStack.frames| == old(|callStack.frames|)
      ensures Agrees(r, EvalAssign(code, fuel, old(State()), n), State())
      decreases fuel, Size(n), 1
    {
      var x :- Visit(fuel, n.right);
      var v :- ValueOf(x);
      if n.left.Var? {
        var _ :- WriteTop(VariableName(n.left.v), v);
        r := Success(None);
      } else if n.left.Declarations? {
        var _ :- VisitVariablesDeclarations(n.left.decls);
        var _ :- WriteToAll(n.left.decls, v);
        r := Success(None);
      } else {
        r := Failure(InvalidNode);
      }
    }

    /** `print`: the top record's `str`, printed as a line. */
    method PrintFunctionCall() returns (r: Visited)
      modifies this
      ensures Agrees(r, PrintCall(old(State())), State())
    {
      var v :- ReadTop("str");
      output := output + [ValueText(v)];
      r := Success(None);
    }

    method BuiltinFunctionCall(name: string) returns (r: Visited)
      modifies this
      ensures Agrees(r, BuiltinCall(old(State()), name), State())
    {
      if name == "print" {
        r := PrintFunctionCall();
      } else {
        r := Failure(MissingBuiltin(name));
      }
    }

    /** The arguments, one per formal parameter, evaluated in the caller's
        record and written into the callee's, which is not yet on the
        stack. */
    method EvaluateArguments(fuel: nat, args: seq<Node>, formals: seq<Symbol>, record: ActivationRecord) returns (r: Result<(), RuntimeError>)
      modifies this, callStack, record
      ensures r.Success? ==> |callStack.frames| == old(|callStack.frames|)
      ensures r.Failure? ==> EvalArgs(code, fuel, old(State()), args, formals, old(record.Snapshot())) == Failure(r.error)
      ensures r.Success? ==> EvalArgs(code, fuel, old(State()), args, formals, old(record.Snapshot())) == Success((record.Snapshot(), State()))
      decreases fuel, SizeSeq(args), 4
    {
      var i := 0;
      while i < |formals|
        invariant 0 <= i <= |formals| && |callStack.frames| == old(|callStack.frames|)
        invariant i <= |args|
        invariant EvalArgs(code, fuel, old(State()), args, formals, old(record.Snapshot())) == EvalArgs(code, fuel, State(), args[i..], formals[i..], record.Snapshot())
        decreases |formals| - i
      {
        if i == |args| {
          return Failure(IndexOutOfRange);
        }
        SizeSeqElement(args, i);
        assert args[i..][1..] == args[i + 1..] && formals[i..][1..] == formals[i + 1..];
        var x :- Visit(fuel, args[i]);
        var v :- ValueOf(x);
        record.Set(formals[i].name, v);
        i := i + 1;
      }
      r := Success(());
    }

    /** A call: the arguments are evaluated into a new record, the record is
        pushed, the builtin or the body runs, and the record is popped. */
    method VisitFunctionCall(fuel: nat, name: string, args: seq<Node>, fn: Option<Symbol>) returns (r: Visited)
      modifies this, callStack
      ensures r.Success? ==> |callStack.frames| == old(|callStack.frames|)
      ensures Agrees(r, EvalCall(code, fuel, old(State()), name, args, fn), State())
      decreases fuel, SizeSeq(args) + 1, 1
    {
      if fn.None? {
        return Failure(NullReference);
      }
      var f := fn.value;
      ghost var m0 := State();
      var record := new ActivationRecord(name, FunctionRecord, f.scopeLevel + 1);
      var filled := EvaluateArguments(fuel, args, f.params, record);
      if filled.Failure? {
        CallFailsInArguments(code, fuel, m0, name, args, f, filled.error);
        return Failure(filled.error);
      }
      ghost var a := (record.Snapshot(), State());
      callStack.Push(record);
      var result := VisitBody(fuel, name, f);
      if result.Failure? {
        CallFailsInBody(code, fuel, m0, name, args, f, a, result.error);
        return Failure(result.error);
      }
      ghost var after := State();
      CallReturns(code, fuel, m0, name, args, f, a, result.value, after);
      var _ := callStack.Pop();
      r := Success(result.value);
    }

    /** The callee, once its record is on top. */
    method VisitBody(fuel: nat, name: string, f: Symbol) returns (r: Visited)
      modifies this, callStack
      ensures r.Success? ==> |callStack.frames| == old(|callStack.frames|)
      ensures Agrees(r, EvalBody(code, fuel, old(State()), name, f), State())
      decreases fuel, 0, 0
    {
      if f.cls == BuiltinFunction {
        r := BuiltinFunctionCall(name);
      } else if f.id !in code {
        r := Failure(NullReference);
      } else if fuel == 0 {
        r := Failure(OutOfFuel);
      } else {
        r := Visit(fuel - 1, code[f.id]);
      }
    }

    /** A run: the program record is pushed, `Main` is called, and the record
        is popped. */
    method VisitProgram(fuel: nat, p: ProgramNode) returns (r: Visited)
      modifies this, callStack
      ensures r.Success? ==> |callStack.frames| == old(|callStack.frames|)
      ensures Agrees(r, EvalProgram(code, fuel, old(State()), p), State())
    {
      var record := new ActivationRecord("Main", ProgramRecord, 1);
      callStack.Push(record);
      var result :- VisitFunctionCall(fuel, "Main", [], p.main);
      var _ := callStack.Pop();
      r := Success(result);
    }

    method VisitIfElseStatement(fuel: nat, n: Node) returns (r: Visited)
      requires n.IfElse?
      modifies this, callStack
      ensures r.Success? ==> |callStack.frames| == old(|callStack.frames|)
      ensures Agrees(r, EvalIfElse(code, fuel, old(State()), n), State())
      decreases fuel, Size(n), 1
    {
      var condition :- VisitCondition(fuel, n.cond);
      if condition {
        var x :- Visit(fuel, n.ifTrue);
        r := Success(Forward(x));
      } else if n.elseBranch.Some? {
        assert SizeOpt(n.elseBranch) == Size(n.elseBranch.value);
        var x :- Visit(fuel, n.elseBranch.value);
        r := Success(Forward(x));
      } else {
        r := Success(None);
      }
    }

    /** The loop spends one unit of fuel per pass through the body. */
    method VisitWhileStatement(fuel: nat, cond: Node, body: Node) returns (r: Visited)
      modifies this, callStack
      ensures r.Success? ==> |callStack.frames| == old(|callStack.frames|)
      ensures Agrees(r, EvalWhile(code, fuel, old(State()), cond, body), State())
      decreases fuel, Size(cond) + Size(body) + 1, 1
    {
      WhileEnters(code, fuel, State(), cond, body);
      var condition :- VisitCondition(fuel, cond);
      r := WhileLoop(fuel, condition, cond, body);
    }

    /** The loop once the condition has been evaluated: it runs while the
        condition holds, leaving on `return` or `break`. */
    method WhileLoop(fuel: nat, condition: bool, cond: Node, body: Node) returns (r: Visited)
      modifies this, callStack
      ensures r.Success? ==> |callStack.frames| == old(|callStack.frames|)
      ensures Agrees(r, WhileFrom(code, fuel, old(State()), condition, cond, body), State())
      decreases fuel, Size(cond) + Size(body) + 1, 0
    {
      ghost var spec := WhileFrom(code, fuel, State(), condition, cond, body);
      var holds := condition;
      var left: nat := fuel;
      while holds
        invariant left <= fuel && |callStack.frames| == old(|callStack.frames|)
        invariant spec == WhileFrom(code, left, State(), holds, cond, body)
        decreases left
      {
        if left == 0 {
          return Failure(OutOfFuel);
        }
        var pass := WhileTurn(left, cond, body, spec);
        if pass.Failure? {
          return Failure(pass.error);
        }
        if pass.value.Leave? {
          return Success(pass.value.result);
        }
        holds := pass.value.condition;
        left := left - 1;
      }
      r := Success(None);
    }

    /** One turn of the loop with the condition true: where the loop goes
        from here. */
    method WhileTurn(fuel: nat, cond: Node, body: Node, ghost spec: Step<Option<VisitResult>>) returns (r: Result<Pass, RuntimeError>)
      requires fuel > 0 && spec == WhileFrom(code, fuel, State(), true, cond, body)
      modifies this, callStack
      ensures r.Success? ==> |callStack.frames| == old(|callStack.frames|)
      ensures r.Failure? ==> spec == Failure(r.error)
      ensures r.Success? && r.value.Leave? ==> spec == Success((r.value.result, State()))
      ensures r.Success? && r.value.Again? ==>
        spec == WhileFrom(code, fuel - 1, State(), r.value.condition, cond, body)
      decreases fuel, Size(cond) + Size(body), 1
    {
      ghost var m := State();
      r := WhilePass(fuel, cond, body);
      ghost var pass: Step<Pass> := if r.Success? then Success((r.value, State())) else Failure(r.error);
      WhileTurns(code, fuel, m, cond, body, pass);
    }

    /** One pass with the condition true: the body, whose `return` or
        `break` leaves the loop, then the condition again. */
    method WhilePass(fuel: nat, cond: Node, body: Node) returns (r: Result<Pass, RuntimeError>)
      modifies this, callStack
      ensures r.Success? ==> |callStack.frames| == old(|callStack.frames|)
      ensures Agrees(r, PassOf(code, fuel, old(State()), cond, body), State())
      decreases fuel, Size(cond) + Size(body), 0
    {
      var x :- Visit(fuel, body);
      if x.Some? && x.value.control == ReturnControl {
        return Success(Leave(x));
      }
      if x.Some? && x.value.control == BreakControl {
        return Success(Leave(None));
      }
      var condition :- VisitCondition(fuel, cond);
      r := Success(Again(condition));
    }
  }
}
