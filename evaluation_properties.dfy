// What the evaluator's rules mean, stated over the functions of module
// Evaluation: the stack discipline every visit keeps, how blocks, loops and
// branches pass signals on, what declarations and assignments leave in the
// top record, and how an index is read.
module EvaluationProperties {
  import opened Wrappers
  import opened Tokens
  import opened Symbols
  import opened Ast
  import opened Values
  import opened Memory
  import opened Evaluation

  // -------------------------------------------------------------------------
  // The stack discipline

  /** What a visit may do to the state: the stack keeps its depth, no
      record but the top one changes, and lines are only ever appended to
      the output. */
  ghost predicate Keeps(m: Mem, m2: Mem) {
    |m2.stack| == |m.stack| &&
    (|m.stack| > 0 ==> m2.stack[..|m.stack| - 1] == m.stack[..|m.stack| - 1]) &&
    m.out <= m2.out
  }

  lemma KeepsTransitive(m1: Mem, m2: Mem, m3: Mem)
    requires Keeps(m1, m2) && Keeps(m2, m3)
    ensures Keeps(m1, m3)
  {
  }

  lemma WriteTopKeeps(m: Mem, name: string, v: Value)
    ensures WriteTop(m, name, v).Success? ==> Keeps(m, WriteTop(m, name, v).value)
  {
  }

  lemma {:induction false} DeclareAllKeeps(m: Mem, decls: seq<Decl>)
    ensures DeclareAll(m, decls).Success? ==> Keeps(m, DeclareAll(m, decls).value)
    decreases |decls|
  {
    if decls != [] {
      var d := decls[0];
      var m1 := Declare(m, d);
      if m1.Success? {
        if DefaultValue(d.vtype.spec).Some? {
          WriteTopKeeps(m, VariableName(d.variable), DefaultValue(d.vtype.spec).value);
        }
        DeclareAllKeeps(m1.value, decls[1..]);
        if DeclareAll(m1.value, decls[1..]).Success? {
          KeepsTransitive(m, m1.value, DeclareAll(m1.value, decls[1..]).value);
        }
      }
    }
  }

  lemma {:induction false} WriteAllKeeps(m: Mem, decls: seq<Decl>, v: Value)
    ensures WriteAll(m, decls, v).Success? ==> Keeps(m, WriteAll(m, decls, v).value)
    decreases |decls|
  {
    if decls != [] {
      var m1 := WriteTop(m, VariableName(decls[0].variable), v);
      if m1.Success? {
        WriteTopKeeps(m, VariableName(decls[0].variable), v);
        WriteAllKeeps(m1.value, decls[1..], v);
        if WriteAll(m1.value, decls[1..], v).Success? {
          KeepsTransitive(m, m1.value, WriteAll(m1.value, decls[1..], v).value);
        }
      }
    }
  }

  /** Every visit keeps the stack discipline: whatever it pushes it pops,
      and it writes no record but the top one. The lemmas below follow the
      rules one by one. */
  lemma {:induction false} EvalKeeps(code: Code, fuel: nat, m: Mem, n: Node)
    ensures Eval(code, fuel, m, n).Success? ==> Keeps(m, Eval(code, fuel, m, n).value.1)
    decreases fuel, Size(n), 2
  {
    if n.Compound? {
      ChildrenKeeps(code, fuel, m, n.children);
    } else if n.BinOp? {
      BinaryKeeps(code, fuel, m, n);
    } else if n.UnOp? {
      UnaryKeeps(code, fuel, m, n);
    } else if n.Declarations? {
      DeclareAllKeeps(m, n.decls);
    } else if n.ArrayInit? {
      ItemsKeeps(code, fuel, m, n.items, []);
    } else if n.Index? {
      IndexKeeps(code, fuel, m, n);
    } else if n.Assign? {
      AssignKeeps(code, fuel, m, n);
    } else if n.Call? {
      CallKeeps(code, fuel, m, n.name, n.args, n.fn);
    } else if n.Return? && n.expr.Some? {
      assert SizeOpt(n.expr) == Size(n.expr.value);
      EvalKeeps(code, fuel, m, n.expr.value);
    } else if n.IfElse? {
      IfElseKeeps(code, fuel, m, n);
    } else if n.While? {
      WhileKeeps(code, fuel, m, n.cond, n.body);
    }
  }

  lemma {:induction false} ConditionKeeps(code: Code, fuel: nat, m: Mem, cond: Node)
    ensures EvalCondition(code, fuel, m, cond).Success? ==> Keeps(m, EvalCondition(code, fuel, m, cond).value.1)
    decreases fuel, Size(cond), 3
  {
    EvalKeeps(code, fuel, m, cond);
  }

  lemma {:induction false} ChildrenKeeps(code: Code, fuel: nat, m: Mem, children: seq<Node>)
    ensures EvalChildren(code, fuel, m, children).Success? ==> Keeps(m, EvalChildren(code, fuel, m, children).value.1)
    decreases fuel, SizeSeq(children), 3
  {
    if children != [] && !children[0].Break? && !children[0].Continue? {
      EvalKeeps(code, fuel, m, children[0]);
      var x := Eval(code, fuel, m, children[0]);
      if x.Success? && !children[0].Return? && Forward(x.value.0).None? {
        ChildrenKeeps(code, fuel, x.value.1, children[1..]);
        var rest := EvalChildren(code, fuel, x.value.1, children[1..]);
        if rest.Success? {
          KeepsTransitive(m, x.value.1, rest.value.1);
        }
      }
    }
  }

  lemma {:induction false} UnaryKeeps(code: Code, fuel: nat, m: Mem, n: Node)
    requires n.UnOp?
    ensures EvalUnary(code, fuel, m, n).Success? ==> Keeps(m, EvalUnary(code, fuel, m, n).value.1)
    decreases fuel, Size(n), 1
  {
    EvalKeeps(code, fuel, m, n.operand);
  }

  lemma {:induction false} BinaryKeeps(code: Code, fuel: nat, m: Mem, n: Node)
    requires n.BinOp?
    ensures EvalBinary(code, fuel, m, n).Success? ==> Keeps(m, EvalBinary(code, fuel, m, n).value.1)
    decreases fuel, Size(n), 1
  {
    EvalKeeps(code, fuel, m, n.left);
    var x := Eval(code, fuel, m, n.left);
    if x.Success? {
      EvalKeeps(code, fuel, x.value.1, n.right);
      var y := Eval(code, fuel, x.value.1, n.right);
      if y.Success? {
        KeepsTransitive(m, x.value.1, y.value.1);
      }
    }
  }

  lemma {:induction false} ItemsKeeps(code: Code, fuel: nat, m: Mem, items: seq<Node>, done: seq<Value>)
    ensures EvalItems(code, fuel, m, items, done).Success? ==> Keeps(m, EvalItems(code, fuel, m, items, done).value.1)
    decreases fuel, SizeSeq(items), 3
  {
    if items != [] {
      EvalKeeps(code, fuel, m, items[0]);
      var x := Eval(code, fuel, m, items[0]);
      if x.Success? && x.value.0.Some? {
        var rest := EvalItems(code, fuel, x.value.1, items[1..], done + [x.value.0.value.value]);
        ItemsKeeps(code, fuel, x.value.1, items[1..], done + [x.value.0.value.value]);
        if rest.Success? {
          KeepsTransitive(m, x.value.1, rest.value.1);
        }
      }
    }
  }

  lemma {:induction false} IndexKeeps(code: Code, fuel: nat, m: Mem, n: Node)
    requires n.Index?
    ensures EvalIndex(code, fuel, m, n).Success? ==> Keeps(m, EvalIndex(code, fuel, m, n).value.1)
    decreases fuel, Size(n), 1
  {
    EvalKeeps(code, fuel, m, n.indexed);
    var x := Eval(code, fuel, m, n.indexed);
    if x.Success? {
      EvalKeeps(code, fuel, x.value.1, n.index);
      var y := Eval(code, fuel, x.value.1, n.index);
      if y.Success? {
        KeepsTransitive(m, x.value.1, y.value.1);
      }
    }
  }

  lemma {:induction false} AssignKeeps(code: Code, fuel: nat, m: Mem, n: Node)
    requires n.Assign?
    ensures EvalAssign(code, fuel, m, n).Success? ==> Keeps(m, EvalAssign(code, fuel, m, n).value.1)
    decreases fuel, Size(n), 1
  {
    EvalKeeps(code, fuel, m, n.right);
    var x := Eval(code, fuel, m, n.right);
    if x.Success? && x.value.0.Some? {
      var v := x.value.0.value.value;
      if n.left.Var? {
        WriteTopKeeps(x.value.1, VariableName(n.left.v), v);
        var m1 := WriteTop(x.value.1, VariableName(n.left.v), v);
        if m1.Success? {
          KeepsTransitive(m, x.value.1, m1.value);
        }
      } else if n.left.Declarations? {
        DeclareAllKeeps(x.value.1, n.left.decls);
        var m1 := DeclareAll(x.value.1, n.left.decls);
        if m1.Success? {
          WriteAllKeeps(m1.value, n.left.decls, v);
          var m2 := WriteAll(m1.value, n.left.decls, v);
          if m2.Success? {
            KeepsTransitive(m, x.value.1, m1.value);
            KeepsTransitive(m, m1.value, m2.value);
          }
        }
      }
    }
  }

  lemma {:induction false} ArgsKeeps(code: Code, fuel: nat, m: Mem, args: seq<Node>, formals: seq<Symbol>, record: Frame)
    ensures EvalArgs(code, fuel, m, args, formals, record).Success? ==> Keeps(m, EvalArgs(code, fuel, m, args, formals, record).value.1)
    decreases fuel, SizeSeq(args), 3
  {
    if formals != [] && args != [] {
      EvalKeeps(code, fuel, m, args[0]);
      var x := Eval(code, fuel, m, args[0]);
      if x.Success? && x.value.0.Some? {
        var next := FrameSet(record, formals[0].name, x.value.0.value.value);
        ArgsKeeps(code, fuel, x.value.1, args[1..], formals[1..], next);
        var rest := EvalArgs(code, fuel, x.value.1, args[1..], formals[1..], next);
        if rest.Success? {
          KeepsTransitive(m, x.value.1, rest.value.1);
        }
      }
    }
  }

  lemma {:induction false} BodyKeeps(code: Code, fuel: nat, m: Mem, name: string, f: Symbol)
    ensures EvalBody(code, fuel, m, name, f).Success? ==> Keeps(m, EvalBody(code, fuel, m, name, f).value.1)
    decreases fuel, 0, 0
  {
    if f.cls != BuiltinFunction && f.id in code && fuel > 0 {
      EvalKeeps(code, fuel - 1, m, code[f.id]);
    }
  }

  /** A call pushes the callee's record and pops it again: the caller's
      stack comes back with its depth, and with every record but the top
      one as it was. */
  lemma {:induction false} CallKeeps(code: Code, fuel: nat, m: Mem, name: string, args: seq<Node>, fn: Option<Symbol>)
    ensures EvalCall(code, fuel, m, name, args, fn).Success? ==> Keeps(m, EvalCall(code, fuel, m, name, args, fn).value.1)
    decreases fuel, SizeSeq(args) + 1, 1
  {
    if fn.Some? {
      var f := fn.value;
      var record := Frame(name, FunctionRecord, f.scopeLevel + 1, map[]);
      ArgsKeeps(code, fuel, m, args, f.params, record);
      var a := EvalArgs(code, fuel, m, args, f.params, record);
      if a.Success? {
        var caller := a.value.1;
        var pushed := caller.(stack := StackPush(caller.stack, a.value.0));
        BodyKeeps(code, fuel, pushed, name, f);
        var b := EvalBody(code, fuel, pushed, name, f);
        if b.Success? {
          var after := b.value.1;
          CallReturns(code, fuel, m, name, args, f, a.value, b.value.0, after);
          assert pushed.stack[..|caller.stack|] == caller.stack;
          assert after.stack[..|after.stack| - 1] == caller.stack;
        }
      }
    }
  }

  lemma {:induction false} IfElseKeeps(code: Code, fuel: nat, m: Mem, n: Node)
    requires n.IfElse?
    ensures EvalIfElse(code, fuel, m, n).Success? ==> Keeps(m, EvalIfElse(code, fuel, m, n).value.1)
    decreases fuel, Size(n), 1
  {
    ConditionKeeps(code, fuel, m, n.cond);
    var c := EvalCondition(code, fuel, m, n.cond);
    if c.Success? {
      var branch := if c.value.0 then Some(n.ifTrue) else n.elseBranch;
      if branch.Some? {
        assert SizeOpt(n.elseBranch) <= Size(n) && Size(n.ifTrue) < Size(n);
        EvalKeeps(code, fuel, c.value.1, branch.value);
        var x := Eval(code, fuel, c.value.1, branch.value);
        if x.Success? {
          KeepsTransitive(m, c.value.1, x.value.1);
        }
      }
    }
  }

  lemma {:induction false} WhileKeeps(code: Code, fuel: nat, m: Mem, cond: Node, body: Node)
    ensures EvalWhile(code, fuel, m, cond, body).Success? ==> Keeps(m, EvalWhile(code, fuel, m, cond, body).value.1)
    decreases fuel, Size(cond) + Size(body) + 1, 1
  {
    WhileEnters(code, fuel, m, cond, body);
    ConditionKeeps(code, fuel, m, cond);
    var c := EvalCondition(code, fuel, m, cond);
    if c.Success? {
      WhileFromKeeps(code, fuel, c.value.1, c.value.0, cond, body);
      var r := WhileFrom(code, fuel, c.value.1, c.value.0, cond, body);
      if r.Success? {
        KeepsTransitive(m, c.value.1, r.value.1);
      }
    }
  }

  lemma {:induction false} PassKeeps(code: Code, fuel: nat, m: Mem, cond: Node, body: Node)
    ensures PassOf(code, fuel, m, cond, body).Success? ==> Keeps(m, PassOf(code, fuel, m, cond, body).value.1)
    decreases fuel, Size(cond) + Size(body), 0
  {
    EvalKeeps(code, fuel, m, body);
    var x := Eval(code, fuel, m, body);
    if x.Success? {
      ConditionKeeps(code, fuel, x.value.1, cond);
      var c := EvalCondition(code, fuel, x.value.1, cond);
      if c.Success? {
        KeepsTransitive(m, x.value.1, c.value.1);
      }
    }
  }

  lemma {:induction false} WhileFromKeeps(code: Code, fuel: nat, m: Mem, condition: bool, cond: Node, body: Node)
    ensures WhileFrom(code, fuel, m, condition, cond, body).Success? ==> Keeps(m, WhileFrom(code, fuel, m, condition, cond, body).value.1)
    decreases fuel, Size(cond) + Size(body) + 1, 0
  {
    if condition && fuel > 0 {
      PassKeeps(code, fuel, m, cond, body);
      AfterPassKeeps(code, fuel, m, PassOf(code, fuel, m, cond, body), cond, body);
    }
  }

  lemma {:induction false} AfterPassKeeps(code: Code, fuel: nat, m: Mem, pass: Step<Pass>, cond: Node, body: Node)
    requires fuel > 0
    requires pass.Success? ==> Keeps(m, pass.value.1)
    ensures AfterPass(code, fuel, pass, cond, body).Success? ==> Keeps(m, AfterPass(code, fuel, pass, cond, body).value.1)
    decreases fuel, Size(cond) + Size(body), 1
  {
    if pass.Success? && pass.value.0.Again? {
      var next := pass.value.1;
      WhileFromKeeps(code, fuel - 1, next, pass.value.0.condition, cond, body);
      var r := WhileFrom(code, fuel - 1, next, pass.value.0.condition, cond, body);
      if r.Success? {
        KeepsTransitive(m, next, r.value.1);
      }
    }
  }

  /** A run leaves the stack exactly as it found it: the program record it
      pushes is popped again. */
  lemma ProgramRestoresStack(code: Code, fuel: nat, m: Mem, p: ProgramNode)
    ensures EvalProgram(code, fuel, m, p).Success? ==>
              EvalProgram(code, fuel, m, p).value.1.stack == m.stack && m.out <= EvalProgram(code, fuel, m, p).value.1.out
  {
    var pushed := m.(stack := StackPush(m.stack, Frame("Main", ProgramRecord, 1, map[])));
    CallKeeps(code, fuel, pushed, "Main", [], p.main);
    var r := EvalCall(code, fuel, pushed, "Main", [], p.main);
    if r.Success? {
      assert pushed.stack[..|m.stack|] == m.stack;
      assert r.value.1.stack[..|m.stack|] == m.stack;
    }
  }

  // -------------------------------------------------------------------------
  // Blocks

  /** A block yields null or a signal: the plain value of a child that is
      not `return` never becomes the block's result. */
  lemma {:induction false} ChildrenResult(code: Code, fuel: nat, m: Mem, children: seq<Node>)
    ensures var r := EvalChildren(code, fuel, m, children);
            r.Success? ==> r.value.0.None? || r.value.0.value.control != NoControl
    decreases |children|
  {
    if children != [] && !children[0].Break? && !children[0].Continue? {
      var x := Eval(code, fuel, m, children[0]);
      if x.Success? && !children[0].Return? && Forward(x.value.0).None? {
        ChildrenResult(code, fuel, x.value.1, children[1..]);
      }
    }
  }

  /** A block runs its children in order and stops at the first signal: the
      children after a part that ends in a signal or an error are never run,
      and after a part that runs to its end the block goes on with the rest
      in the state that part left. */
  lemma {:induction false} ChildrenSplit(code: Code, fuel: nat, m: Mem, first: seq<Node>, rest: seq<Node>)
    ensures var r := EvalChildren(code, fuel, m, first);
            r.Failure? || r.value.0.Some? ==> EvalChildren(code, fuel, m, first + rest) == r
    ensures var r := EvalChildren(code, fuel, m, first);
            r.Success? && r.value.0.None? ==> EvalChildren(code, fuel, m, first + rest) == EvalChildren(code, fuel, r.value.1, rest)
    decreases |first|
  {
    if first == [] {
      assert first + rest == rest;
    } else {
      assert (first + rest)[0] == first[0];
      assert (first + rest)[1..] == first[1..] + rest;
      var child := first[0];
      if !child.Break? && !child.Continue? {
        var x := Eval(code, fuel, m, child);
        if x.Success? && !child.Return? && Forward(x.value.0).None? {
          ChildrenSplit(code, fuel, x.value.1, first[1..], rest);
        }
      }
    }
  }

  // -------------------------------------------------------------------------
  // Loops

  /** A loop yields null or a `return` signal: `break` ends it with null,
      and `continue` or a plain value sends it round again. */
  lemma {:induction false} WhileFromResult(code: Code, fuel: nat, m: Mem, condition: bool, cond: Node, body: Node)
    ensures var r := WhileFrom(code, fuel, m, condition, cond, body);
            r.Success? ==> r.value.0.None? || r.value.0.value.control == ReturnControl
    decreases fuel, 1
  {
    if condition && fuel > 0 {
      PassLeaves(code, fuel, m, cond, body);
      AfterPassResult(code, fuel, PassOf(code, fuel, m, cond, body), cond, body);
    }
  }

  lemma {:induction false} AfterPassResult(code: Code, fuel: nat, pass: Step<Pass>, cond: Node, body: Node)
    requires fuel > 0
    requires pass.Success? && pass.value.0.Leave? ==>
               pass.value.0.result.None? || pass.value.0.result.value.control == ReturnControl
    ensures var r := AfterPass(code, fuel, pass, cond, body);
            r.Success? ==> r.value.0.None? || r.value.0.value.control == ReturnControl
    decreases fuel, 0
  {
    if pass.Success? && pass.value.0.Again? {
      WhileFromResult(code, fuel - 1, pass.value.1, pass.value.0.condition, cond, body);
    }
  }

  /** A pass leaves the loop only with null or a `return` signal. */
  lemma PassLeaves(code: Code, fuel: nat, m: Mem, cond: Node, body: Node)
    ensures var p := PassOf(code, fuel, m, cond, body);
            p.Success? && p.value.0.Leave? ==> p.value.0.result.None? || p.value.0.result.value.control == ReturnControl
  {
  }

  /** One pass through the body, as the loop sees it, one lemma per way the
      body ends. */
  lemma PassOnSignal(code: Code, fuel: nat, m: Mem, cond: Node, body: Node, x: (Option<VisitResult>, Mem))
    requires Eval(code, fuel, m, body) == Success(x) && x.0.Some?
    ensures x.0.value.control == ReturnControl ==> PassOf(code, fuel, m, cond, body) == Success((Leave(x.0), x.1))
    ensures x.0.value.control == BreakControl ==> PassOf(code, fuel, m, cond, body) == Success((Leave(None), x.1))
  {
  }

  lemma PassGoesOn(code: Code, fuel: nat, m: Mem, cond: Node, body: Node, x: (Option<VisitResult>, Mem))
    requires Eval(code, fuel, m, body) == Success(x)
    requires x.0.None? || x.0.value.control == NoControl || x.0.value.control == ContinueControl
    ensures var c := EvalCondition(code, fuel, x.1, cond);
            c.Success? ==> PassOf(code, fuel, m, cond, body) == Success((Again(c.value.0), c.value.1))
    ensures var c := EvalCondition(code, fuel, x.1, cond);
            c.Failure? ==> PassOf(code, fuel, m, cond, body) == Failure(c.error)
  {
  }

  lemma PassFails(code: Code, fuel: nat, m: Mem, cond: Node, body: Node)
    ensures Eval(code, fuel, m, body).Failure? ==>
              PassOf(code, fuel, m, cond, body) == Failure(Eval(code, fuel, m, body).error)
  {
  }

  lemma WhileResult(code: Code, fuel: nat, m: Mem, cond: Node, body: Node)
    ensures var r := EvalWhile(code, fuel, m, cond, body);
            r.Success? ==> r.value.0.None? || r.value.0.value.control == ReturnControl
  {
    WhileEnters(code, fuel, m, cond, body);
    var c := EvalCondition(code, fuel, m, cond);
    if c.Success? {
      WhileFromResult(code, fuel, c.value.1, c.value.0, cond, body);
    }
  }

  /** One pass with the condition true: a `return` in the body leaves the
      loop with its signal and a `break` with null, in the state the body
      left; */
  lemma WhileLeavesOnSignal(code: Code, fuel: nat, m: Mem, cond: Node, body: Node, x: (Option<VisitResult>, Mem))
    requires fuel > 0 && Eval(code, fuel, m, body) == Success(x) && x.0.Some?
    ensures x.0.value.control == ReturnControl ==> WhileFrom(code, fuel, m, true, cond, body) == Success(x)
    ensures x.0.value.control == BreakControl ==> WhileFrom(code, fuel, m, true, cond, body) == Success((None, x.1))
  {
    PassOnSignal(code, fuel, m, cond, body, x);
    if x.0.value.control == ReturnControl {
      WhileTurns(code, fuel, m, cond, body, Success((Leave(x.0), x.1)));
    } else if x.0.value.control == BreakControl {
      WhileTurns(code, fuel, m, cond, body, Success((Leave(None), x.1)));
    }
  }

  /** a `continue`, null or a plain value evaluates the condition again
      and goes on from its value, with one unit of fuel less; */
  lemma WhileGoesRound(code: Code, fuel: nat, m: Mem, cond: Node, body: Node, x: (Option<VisitResult>, Mem), c: (bool, Mem))
    requires fuel > 0 && Eval(code, fuel, m, body) == Success(x)
    requires x.0.None? || x.0.value.control == NoControl || x.0.value.control == ContinueControl
    requires EvalCondition(code, fuel, x.1, cond) == Success(c)
    ensures WhileFrom(code, fuel, m, true, cond, body) == WhileFrom(code, fuel - 1, c.1, c.0, cond, body)
  {
    PassGoesOn(code, fuel, m, cond, body, x);
    WhileTurns(code, fuel, m, cond, body, Success((Again(c.0), c.1)));
  }

  /** and an error in the condition after a pass is the loop's. */
  lemma WhileFailsInCondition(code: Code, fuel: nat, m: Mem, cond: Node, body: Node, x: (Option<VisitResult>, Mem), e: RuntimeError)
    requires fuel > 0 && Eval(code, fuel, m, body) == Success(x)
    requires x.0.None? || x.0.value.control == NoControl || x.0.value.control == ContinueControl
    requires EvalCondition(code, fuel, x.1, cond) == Failure(e)
    ensures WhileFrom(code, fuel, m, true, cond, body) == Failure(e)
  {
    PassGoesOn(code, fuel, m, cond, body, x);
    WhileTurns(code, fuel, m, cond, body, Failure(e));
  }

  /** and an error in the body is the loop's. */
  lemma WhileFailsInBody(code: Code, fuel: nat, m: Mem, cond: Node, body: Node)
    requires fuel > 0
    ensures Eval(code, fuel, m, body).Failure? ==>
              WhileFrom(code, fuel, m, true, cond, body) == Failure(Eval(code, fuel, m, body).error)
  {
    PassFails(code, fuel, m, cond, body);
    WhileTurns(code, fuel, m, cond, body, PassOf(code, fuel, m, cond, body));
  }

  /** A loop whose condition is false at the start never runs its body. */
  lemma WhileFalseSkipsBody(code: Code, fuel: nat, m: Mem, cond: Node, body: Node, other: Node)
    ensures var c := EvalCondition(code, fuel, m, cond);
            c.Success? && !c.value.0 ==>
              EvalWhile(code, fuel, m, cond, body) == Success((None, c.value.1)) &&
              EvalWhile(code, fuel, m, cond, other) == Success((None, c.value.1))
  {
    WhileEnters(code, fuel, m, cond, body);
    WhileEnters(code, fuel, m, cond, other);
  }

  // -------------------------------------------------------------------------
  // Branches

  /** Exactly one branch runs: with the condition true the else branch is
      never looked at, with it false the then branch is not; and the
      branch's result is passed on only when it carries a signal. */
  lemma IfElseRunsOneBranch(code: Code, fuel: nat, m: Mem, n: Node, otherThen: Node, otherElse: Option<Node>)
    requires n.IfElse?
    ensures var c := EvalCondition(code, fuel, m, n.cond);
            c.Success? && c.value.0 ==> EvalIfElse(code, fuel, m, n) == EvalIfElse(code, fuel, m, n.(elseBranch := otherElse))
    ensures var c := EvalCondition(code, fuel, m, n.cond);
            c.Success? && !c.value.0 ==> EvalIfElse(code, fuel, m, n) == EvalIfElse(code, fuel, m, n.(ifTrue := otherThen))
    ensures var c := EvalCondition(code, fuel, m, n.cond);
            c.Failure? ==> EvalIfElse(code, fuel, m, n) == Failure(c.error)
    ensures var r := EvalIfElse(code, fuel, m, n);
            r.Success? ==> r.value.0.None? || r.value.0.value.control != NoControl
  {
  }

  // -------------------------------------------------------------------------
  // The top record

  /** A write into the top record reads back, and leaves every other name
      as it was. */
  lemma WriteTopThenRead(m: Mem, name: string, v: Value, other: string)
    requires |m.stack| > 0
    ensures WriteTop(m, name, v).Success?
    ensures ReadTop(WriteTop(m, name, v).value, name) == Success(v)
    ensures other != name ==> ReadTop(WriteTop(m, name, v).value, other) == ReadTop(m, other)
  {
    var top := m.stack[|m.stack| - 1];
    var after := WriteTop(m, name, v).value;
    assert StackTop(after.stack) == Success(FrameSet(top, name, v));
    SetThenRead(top, name, v, if other == name then name + "'" else other);
  }

  /** A declaration gives its variable the initial value of its type: 0 for
      `number`, false for `bool`, the empty text for `string` and the empty
      list for an array; a type without one leaves the state as it was. */
  lemma DeclarationInitialises(m: Mem, d: Decl)
    requires |m.stack| > 0
    ensures Declare(m, d).Success?
    ensures var name := VariableName(d.variable);
            d.vtype.spec.ArrayTypeSpec? ==> ReadTop(Declare(m, d).value, name) == Success(Arr([]))
    ensures var name := VariableName(d.variable);
            var k := d.vtype.spec.token.kind;
            d.vtype.spec.NonArrayTypeSpec? ==>
              (k == TypeNumber ==> ReadTop(Declare(m, d).value, name) == Success(Num(0))) &&
              (k == TypeBool ==> ReadTop(Declare(m, d).value, name) == Success(Bool(false))) &&
              (k == TypeString ==> ReadTop(Declare(m, d).value, name) == Success(Str(""))) &&
              (k !in {TypeNumber, TypeBool, TypeString} ==> Declare(m, d) == Success(m))
  {
    var v := DefaultValue(d.vtype.spec);
    if v.Some? {
      WriteTopThenRead(m, VariableName(d.variable), v.value, "");
    }
  }

  /** `T a, b, c;` gives every one of its variables the type's initial
      value. */
  lemma {:induction false} DeclarationsInitialise(m: Mem, t: TypeNode, decls: seq<Decl>)
    requires |m.stack| > 0 && DefaultValue(t.spec).Some?
    requires forall i :: 0 <= i < |decls| ==> decls[i].vtype == t
    ensures DeclareAll(m, decls).Success?
    ensures forall i :: 0 <= i < |decls| ==>
              ReadTop(DeclareAll(m, decls).value, VariableName(decls[i].variable)) == Success(DefaultValue(t.spec).value)
    decreases |decls|
  {
    if decls != [] {
      var v := DefaultValue(t.spec).value;
      var first := VariableName(decls[0].variable);
      var m1 := Declare(m, decls[0]).value;
      WriteTopThenRead(m, first, v, first);
      DeclarationsInitialise(m1, t, decls[1..]);
      var r := DeclareAll(m1, decls[1..]).value;
      forall i | 0 <= i < |decls|
        ensures ReadTop(r, VariableName(decls[i].variable)) == Success(v)
      {
        if i > 0 {
          assert decls[1..][i - 1] == decls[i];
        } else if exists j :: 0 <= j < |decls| - 1 && VariableName(decls[1..][j].variable) == first {
        } else {
          DeclareAllLeavesOthers(m1, decls[1..], first);
        }
      }
    }
  }

  /** Declarations leave every name they do not declare as it was. */
  lemma {:induction false} DeclareAllLeavesOthers(m: Mem, decls: seq<Decl>, other: string)
    requires forall i :: 0 <= i < |decls| ==> VariableName(decls[i].variable) != other
    ensures DeclareAll(m, decls).Success? ==> ReadTop(DeclareAll(m, decls).value, other) == ReadTop(m, other)
    decreases |decls|
  {
    if decls != [] {
      var m1 := Declare(m, decls[0]);
      if m1.Success? {
        var v := DefaultValue(decls[0].vtype.spec);
        if v.Some? {
          WriteTopThenRead(m, VariableName(decls[0].variable), v.value, other);
        }
        DeclareAllLeavesOthers(m1.value, decls[1..], other);
      }
    }
  }

  /** The value of a declaring assignment reaches every declared name, and
      every other name reads as before. */
  lemma {:induction false} WriteAllReads(m: Mem, decls: seq<Decl>, v: Value, other: string)
    ensures |m.stack| > 0 ==> WriteAll(m, decls, v).Success?
    ensures var r := WriteAll(m, decls, v);
            r.Success? ==> forall i :: 0 <= i < |decls| ==> ReadTop(r.value, VariableName(decls[i].variable)) == Success(v)
    ensures var r := WriteAll(m, decls, v);
            r.Success? && (forall i :: 0 <= i < |decls| ==> VariableName(decls[i].variable) != other) ==>
              ReadTop(r.value, other) == ReadTop(m, other)
    decreases |decls|
  {
    if decls != [] {
      var first := VariableName(decls[0].variable);
      var m1 := WriteTop(m, first, v);
      if m1.Success? {
        WriteTopThenRead(m, first, v, other);
        WriteAllReads(m1.value, decls[1..], v, other);
        WriteAllReads(m1.value, decls[1..], v, first);
        var r := WriteAll(m1.value, decls[1..], v);
        if r.Success? {
          forall i | 0 <= i < |decls|
            ensures ReadTop(r.value, VariableName(decls[i].variable)) == Success(v)
          {
            if i > 0 {
              assert decls[1..][i - 1] == decls[i];
            }
          }
        }
      }
    }
  }

  /** `x = e` writes the value of `e` under `x`; `T a, b = e` writes it
      under every declared name; either way the assignment yields null. */
  lemma AssignmentWrites(code: Code, fuel: nat, m: Mem, n: Node)
    requires n.Assign?
    ensures var x := Eval(code, fuel, m, n.right);
            var r := EvalAssign(code, fuel, m, n);
            r.Success? ==>
              x.Success? && x.value.0.Some? && r.value.0.None? &&
              (n.left.Var? ==> ReadTop(r.value.1, VariableName(n.left.v)) == Success(x.value.0.value.value)) &&
              (n.left.Declarations? ==> forall i :: 0 <= i < |n.left.decls| ==>
                 ReadTop(r.value.1, VariableName(n.left.decls[i].variable)) == Success(x.value.0.value.value))
  {
    var x := Eval(code, fuel, m, n.right);
    var r := EvalAssign(code, fuel, m, n);
    if r.Success? {
      var v := x.value.0.value.value;
      if n.left.Var? {
        WriteTopThenRead(x.value.1, VariableName(n.left.v), v, "");
      } else {
        var m1 := DeclareAll(x.value.1, n.left.decls).value;
        WriteAllReads(m1, n.left.decls, v, "");
      }
    }
  }

  // -------------------------------------------------------------------------
  // Indexing

  /** An index reads the element at that position; a negative index counts
      from the end, as `Count + i`; any other index is out of range. */
  lemma IndexRules(code: Code, fuel: nat, m: Mem, n: Node, items: seq<Value>, i: int, m1: Mem, m2: Mem, c1: Control, c2: Control)
    requires n.Index?
    requires Eval(code, fuel, m, n.indexed) == Success((Some(VisitResult(c1, Arr(items))), m1))
    requires Eval(code, fuel, m1, n.index) == Success((Some(VisitResult(c2, Num(i))), m2))
    ensures 0 <= i < |items| ==> EvalIndex(code, fuel, m, n) == Success((Yield(items[i]), m2))
    ensures -|items| <= i < 0 ==> EvalIndex(code, fuel, m, n) == Success((Yield(items[|items| + i]), m2))
    ensures i < -|items| || |items| <= i ==> EvalIndex(code, fuel, m, n) == Failure(IndexOutOfRange)
  {
  }

  // -------------------------------------------------------------------------
  // The callee's record

  /** The first `k` arguments, evaluated in turn from `m`, each yield a
      value. */
  ghost predicate ArgsEvaluate(code: Code, fuel: nat, m: Mem, args: seq<Node>, k: nat)
    decreases k
  {
    k == 0 ||
    (args != [] && Eval(code, fuel, m, args[0]).Success? &&
     ValueOf(Eval(code, fuel, m, args[0]).value.0).Success? &&
     ArgsEvaluate(code, fuel, Eval(code, fuel, m, args[0]).value.1, args[1..], k - 1))
  }

  /** The state after those `k` evaluations. */
  ghost function MemAfterArgs(code: Code, fuel: nat, m: Mem, args: seq<Node>, k: nat): Mem
    requires ArgsEvaluate(code, fuel, m, args, k)
    decreases k
  {
    if k == 0 then m
    else MemAfterArgs(code, fuel, Eval(code, fuel, m, args[0]).value.1, args[1..], k - 1)
  }

  /** The values those `k` evaluations yield, in order. */
  ghost function ArgValues(code: Code, fuel: nat, m: Mem, args: seq<Node>, k: nat): (r: seq<Value>)
    requires ArgsEvaluate(code, fuel, m, args, k)
    ensures |r| == k
    decreases k
  {
    if k == 0 then []
    else
      var x := Eval(code, fuel, m, args[0]).value;
      [ValueOf(x.0).value] + ArgValues(code, fuel, x.1, args[1..], k - 1)
  }

  ghost function FormalNames(formals: seq<Symbol>): set<string> {
    set i | 0 <= i < |formals| :: formals[i].name
  }

  ghost predicate DistinctNames(formals: seq<Symbol>) {
    forall i, j :: 0 <= i < j < |formals| ==> formals[i].name != formals[j].name
  }

  /** The `i`-th value is argument `i` evaluated in the state the first `i`
      arguments leave, so the arguments are evaluated left to right, each in
      the caller's state as the earlier ones changed it. */
  lemma {:induction false} ArgValueAt(code: Code, fuel: nat, m: Mem, args: seq<Node>, k: nat, i: nat)
    requires ArgsEvaluate(code, fuel, m, args, k) && i < k
    ensures i < |args| && ArgsEvaluate(code, fuel, m, args, i)
    ensures var x := Eval(code, fuel, MemAfterArgs(code, fuel, m, args, i), args[i]);
            x.Success? && ValueOf(x.value.0).Success? &&
            ArgValues(code, fuel, m, args, k)[i] == ValueOf(x.value.0).value
    decreases i
  {
    if i > 0 {
      var x := Eval(code, fuel, m, args[0]).value;
      ArgValueAt(code, fuel, x.1, args[1..], k - 1, i - 1);
      assert args[1..][i - 1] == args[i];
    }
  }

  /** The formal names are the first one and those of the rest; distinct
      names stay distinct in the rest, which lacks the first. */
  lemma FormalNamesSplit(formals: seq<Symbol>)
    requires formals != []
    ensures FormalNames(formals) == {formals[0].name} + FormalNames(formals[1..])
    ensures DistinctNames(formals) ==> DistinctNames(formals[1..]) && formals[0].name !in FormalNames(formals[1..])
  {
    var rest := formals[1..];
    forall n | n in FormalNames(formals)
      ensures n in {formals[0].name} + FormalNames(rest)
    {
      var i :| 0 <= i < |formals| && formals[i].name == n;
      if i > 0 {
        assert rest[i - 1].name == n;
      }
    }
    forall n | n in FormalNames(rest)
      ensures n in FormalNames(formals)
    {
      var i :| 0 <= i < |rest| && rest[i].name == n;
      assert formals[i + 1].name == n;
    }
    if DistinctNames(formals) {
      forall i, j | 0 <= i < j < |rest|
        ensures rest[i].name != rest[j].name
      {
        assert rest[i] == formals[i + 1] && rest[j] == formals[j + 1];
      }
    }
  }

  /** The record the arguments are written into: the loop succeeds exactly
      when every formal's argument yields a value; the record then keeps its
      name, kind and level, gains the formal names as keys and keeps every
      other key's value, and the state is the one the arguments leave. */
  lemma {:induction false} ArgsBindFormals(code: Code, fuel: nat, m: Mem, args: seq<Node>, formals: seq<Symbol>, record: Frame)
    ensures EvalArgs(code, fuel, m, args, formals, record).Success? <==> ArgsEvaluate(code, fuel, m, args, |formals|)
    ensures var a := EvalArgs(code, fuel, m, args, formals, record);
            a.Success? ==>
              var r := a.value.0;
              r.name == record.name && r.kind == record.kind && r.level == record.level &&
              r.members.Keys == record.members.Keys + FormalNames(formals) &&
              (forall k :: k in record.members && k !in FormalNames(formals) ==> r.members[k] == record.members[k]) &&
              a.value.1 == MemAfterArgs(code, fuel, m, args, |formals|)
    decreases |formals|
  {
    if formals != [] && args != [] {
      var x := Eval(code, fuel, m, args[0]);
      if x.Success? && ValueOf(x.value.0).Success? {
        var next := FrameSet(record, formals[0].name, ValueOf(x.value.0).value);
        assert EvalArgs(code, fuel, m, args, formals, record) == EvalArgs(code, fuel, x.value.1, args[1..], formals[1..], next);
        ArgsBindFormals(code, fuel, x.value.1, args[1..], formals[1..], next);
        FormalNamesSplit(formals);
      }
    }
  }

  /** With distinct formal names, each name holds its own argument's value
      in the record the loop builds. */
  lemma {:induction false} ArgsHoldValues(code: Code, fuel: nat, m: Mem, args: seq<Node>, formals: seq<Symbol>, record: Frame)
    requires DistinctNames(formals)
    ensures EvalArgs(code, fuel, m, args, formals, record).Success? ==>
              ArgsEvaluate(code, fuel, m, args, |formals|) &&
              forall i :: 0 <= i < |formals| ==>
                formals[i].name in EvalArgs(code, fuel, m, args, formals, record).value.0.members &&
                EvalArgs(code, fuel, m, args, formals, record).value.0.members[formals[i].name] ==
                  ArgValues(code, fuel, m, args, |formals|)[i]
    decreases |formals|
  {
    ArgsBindFormals(code, fuel, m, args, formals, record);
    if formals != [] && args != [] {
      var x := Eval(code, fuel, m, args[0]);
      if x.Success? && ValueOf(x.value.0).Success? {
        var v := ValueOf(x.value.0).value;
        var next := FrameSet(record, formals[0].name, v);
        var rest := formals[1..];
        assert EvalArgs(code, fuel, m, args, formals, record) == EvalArgs(code, fuel, x.value.1, args[1..], rest, next);
        FormalNamesSplit(formals);
        ArgsHoldValues(code, fuel, x.value.1, args[1..], rest, next);
        ArgsBindFormals(code, fuel, x.value.1, args[1..], rest, next);
        var a := EvalArgs(code, fuel, m, args, formals, record);
        if a.Success? {
          var r := a.value.0;
          var values := ArgValues(code, fuel, m, args, |formals|);
          assert values == [v] + ArgValues(code, fuel, x.value.1, args[1..], |rest|);
          forall i | 0 <= i < |formals|
            ensures formals[i].name in r.members && r.members[formals[i].name] == values[i]
          {
            assert formals[i].name in FormalNames(formals);
            if i > 0 {
              assert formals[i] == rest[i - 1];
            }
          }
        }
      }
    }
  }

  /** The record a call pushes: named after the function, one level below
      its scope, keyed by exactly the formal names, each holding its own
      argument's value when the names are distinct. */
  lemma CalleeRecord(code: Code, fuel: nat, m: Mem, name: string, args: seq<Node>, f: Symbol)
    ensures EvalArgs(code, fuel, m, args, f.params, Frame(name, FunctionRecord, f.scopeLevel + 1, map[])).Success? <==>
              ArgsEvaluate(code, fuel, m, args, |f.params|)
    ensures var a := EvalArgs(code, fuel, m, args, f.params, Frame(name, FunctionRecord, f.scopeLevel + 1, map[]));
            a.Success? ==>
              var r := a.value.0;
              r == Frame(name, FunctionRecord, f.scopeLevel + 1, r.members) &&
              r.members.Keys == FormalNames(f.params) &&
              (DistinctNames(f.params) ==>
                 forall i :: 0 <= i < |f.params| ==> r.members[f.params[i].name] == ArgValues(code, fuel, m, args, |f.params|)[i])
  {
    var record := Frame(name, FunctionRecord, f.scopeLevel + 1, map[]);
    ArgsBindFormals(code, fuel, m, args, f.params, record);
    if DistinctNames(f.params) {
      ArgsHoldValues(code, fuel, m, args, f.params, record);
    }
    assert record.members.Keys == {};
  }
}
