// A call used as a statement. A call's result is its body's, and a body
// that ends with `return` hands back a `return` signal; the block loop then
// passes that signal on as if the caller itself had returned, so the
// statements after the call never run. The corrected block loop below
// clears the signal of a call statement and otherwise runs a block as module
// Evaluation does.
module IntendedEvaluation {
  import opened Wrappers
  import opened Tokens
  import opened Symbols
  import opened Ast
  import opened Values
  import opened Memory
  import opened Evaluation
  import opened EvaluationProperties

  /** A user function with no parameters whose body is `{ return e; }`. */
  predicate ReturnsLiteral(code: Code, f: Symbol, e: Node) {
    f.cls != BuiltinFunction && f.params == [] && f.id in code &&
    code[f.id].Compound? && |code[f.id].children| == 1 &&
    code[f.id].children[0].Return? && code[f.id].children[0].expr == Some(e)
  }

  /** Calling such a function yields its literal with a `return` signal and
      leaves the stack as it was. */
  lemma CallOfReturningFunction(code: Code, fuel: nat, m: Mem, name: string, f: Symbol, e: Node, v: int)
    requires fuel > 0 && ReturnsLiteral(code, f, e) && e.Number? && NumberOf(e.token) == Success(v)
    ensures EvalCall(code, fuel, m, name, [], Some(f)) == Success((Yield(Num(v)), m))
  {
    var record := Frame(name, FunctionRecord, f.scopeLevel + 1, map[]);
    var pushed := m.(stack := StackPush(m.stack, record));
    var body := code[f.id];
    assert EvalArgs(code, fuel, m, [], f.params, record) == Success((record, m));
    assert Eval(code, fuel - 1, pushed, e) == Success((Yield(Num(v)), pushed));
    assert EvalChildren(code, fuel - 1, pushed, body.children) == Success((Yield(Num(v)), pushed));
    assert EvalBody(code, fuel, pushed, name, f) == Success((Yield(Num(v)), pushed));
    assert pushed.stack[..|pushed.stack| - 1] == m.stack;
    CallReturns(code, fuel, m, name, [], f, (record, m), Yield(Num(v)), pushed);
  }

  /** As written: a call statement to such a function ends the enclosing
      block with the callee's `return` signal, whatever follows it. */
  lemma CallStatementEndsBlock(code: Code, fuel: nat, m: Mem, call: Token, name: string, f: Symbol, e: Node, v: int, rest: seq<Node>)
    requires fuel > 0 && ReturnsLiteral(code, f, e) && e.Number? && NumberOf(e.token) == Success(v)
    ensures EvalChildren(code, fuel, m, [Call(call, name, [], Some(f))] + rest) == Success((Yield(Num(v)), m))
  {
    CallOfReturningFunction(code, fuel, m, name, f, e, v);
    assert ([Call(call, name, [], Some(f))] + rest)[0] == Call(call, name, [], Some(f));
  }

  /** The block loop with a call statement's signal cleared: the callee's
      `return` ends the callee, not the caller. */
  function IntendedChildren(code: Code, fuel: nat, m: Mem, children: seq<Node>): Step<Option<VisitResult>>
    decreases |children|
  {
    if children == [] then Success((None, m))
    else if children[0].Call? then
      var x :- Eval(code, fuel, m, children[0]);
      IntendedChildren(code, fuel, x.1, children[1..])
    else
      var x :- EvalChildren(code, fuel, m, [children[0]]);
      if x.0.Some? then Success(x) else IntendedChildren(code, fuel, x.1, children[1..])
  }

  /** A successful call statement hands on to the statements after it. */
  lemma CallStatementContinues(code: Code, fuel: nat, m: Mem, c: Node, rest: seq<Node>, x: (Option<VisitResult>, Mem))
    requires c.Call? && Eval(code, fuel, m, c) == Success(x)
    ensures IntendedChildren(code, fuel, m, [c] + rest) == IntendedChildren(code, fuel, x.1, rest)
  {
    assert ([c] + rest)[0] == c && ([c] + rest)[1..] == rest;
  }

  /** So the statements after a call to a function that returns do run. */
  lemma IntendedCallOfReturningFunction(code: Code, fuel: nat, m: Mem, call: Token, name: string, f: Symbol, e: Node, v: int, rest: seq<Node>)
    requires fuel > 0 && ReturnsLiteral(code, f, e) && e.Number? && NumberOf(e.token) == Success(v)
    ensures IntendedChildren(code, fuel, m, [Call(call, name, [], Some(f))] + rest) == IntendedChildren(code, fuel, m, rest)
  {
    CallOfReturningFunction(code, fuel, m, name, f, e, v);
    assert Eval(code, fuel, m, Call(call, name, [], Some(f))) == Success((Yield(Num(v)), m));
    CallStatementContinues(code, fuel, m, Call(call, name, [], Some(f)), rest, (Yield(Num(v)), m));
  }

  /** A block with no call statement runs as module Evaluation runs it. */
  lemma {:induction false} IntendedAgreesWithoutCalls(code: Code, fuel: nat, m: Mem, children: seq<Node>)
    requires forall i :: 0 <= i < |children| ==> !children[i].Call?
    ensures IntendedChildren(code, fuel, m, children) == EvalChildren(code, fuel, m, children)
    decreases |children|
  {
    if children != [] {
      assert children == [children[0]] + children[1..];
      ChildrenSplit(code, fuel, m, [children[0]], children[1..]);
      var x := EvalChildren(code, fuel, m, [children[0]]);
      if x.Success? && x.value.0.None? {
        IntendedAgreesWithoutCalls(code, fuel, x.value.1, children[1..]);
      }
    }
  }
}
