// The abstract syntax tree built by the parser, annotated by the semantic
// analyser and walked by the interpreter.
module Ast {
  import opened Wrappers
  import opened Tokens
  import opened Symbols

  /** A type as written: an element type token, and for an array type the
      `[` of its rank. */
  datatype TypeSpec = NonArrayTypeSpec(token: Token) | ArrayTypeSpec(token: Token, rank: Token)

  /** ASTType: its token is the element type's token in both cases. */
  datatype TypeNode = TypeNode(token: Token, spec: TypeSpec)

  /** A variable reference with its optional slice bounds. */
  datatype VarRef = VarRef(token: Token, from: Option<Node>, to: Option<Node>, step: Option<Node>)

  datatype Decl = Decl(vtype: TypeNode, variable: VarRef)

  datatype Param = Param(ptype: TypeNode, variable: VarRef)

  datatype Elif = Elif(token: Token, cond: Node, ifTrue: Node)

  datatype Node =
    | Empty
    | Compound(token: Token, children: seq<Node>)
    | BinOp(left: Node, token: Token, right: Node)
    | UnOp(token: Token, operand: Node)
    | Number(token: Token)
    | BoolLit(token: Token)
    | StringLit(token: Token)
    | Var(v: VarRef)
    | Declarations(decls: seq<Decl>)
    | ArrayInit(token: Token, items: seq<Node>)
    | Index(token: Token, indexed: Node, index: Node)
    | Assign(left: Node, token: Token, right: Node)
    | FunctionDef(token: Token, returnType: TypeNode, params: seq<Param>, body: Node)
      /** `fn` is the analyser's annotation: the function the call resolved to. */
    | Call(token: Token, name: string, args: seq<Node>, fn: Option<Symbol>)
    | Return(token: Token, expr: Option<Node>)
    | Break(token: Token)
    | Continue(token: Token)
    | IfElse(token: Token, cond: Node, ifTrue: Node, elifs: seq<Elif>, elseBranch: Option<Node>)
    | While(token: Token, cond: Node, body: Node)
    | For(token: Token, inits: seq<Node>, forCond: Option<Node>, steps: seq<Node>, body: Node)

  /** The program: its first token, the single top-level statement and the
      analyser's annotation, the resolved `Main`. */
  datatype ProgramNode = ProgramNode(token: Token, root: Node, main: Option<Symbol>)

  function TypeName(t: TypeNode): string {
    Name(t.token)
  }

  function VariableName(v: VarRef): string {
    Name(v.token)
  }

  /** The token a node reports in error messages; the two nodes without one
      report none. */
  function NodeToken(n: Node): Option<Token> {
    match n
    case Empty => None
    case Declarations(_) => None
    case Var(v) => Some(v.token)
    case Compound(t, _) => Some(t)
    case BinOp(_, t, _) => Some(t)
    case UnOp(t, _) => Some(t)
    case Number(t) => Some(t)
    case BoolLit(t) => Some(t)
    case StringLit(t) => Some(t)
    case ArrayInit(t, _) => Some(t)
    case Index(t, _, _) => Some(t)
    case Assign(_, t, _) => Some(t)
    case FunctionDef(t, _, _, _) => Some(t)
    case Call(t, _, _, _) => Some(t)
    case Return(t, _) => Some(t)
    case Break(t) => Some(t)
    case Continue(t) => Some(t)
    case IfElse(t, _, _, _, _) => Some(t)
    case While(t, _, _) => Some(t)
    case For(t, _, _, _, _) => Some(t)
  }

  // Sizes, for termination of the walks over the tree.

  function Size(n: Node): (s: nat)
    ensures s >= 1
  {
    match n
    case Empty => 1
    case Compound(_, children) => 1 + SizeSeq(children)
    case BinOp(l, _, r) => 1 + Size(l) + Size(r)
    case UnOp(_, e) => 1 + Size(e)
    case Number(_) => 1
    case BoolLit(_) => 1
    case StringLit(_) => 1
    case Var(v) => 1 + SizeVariable(v)
    case Declarations(decls) => 1 + SizeDecls(decls)
    case ArrayInit(_, items) => 1 + SizeSeq(items)
    case Index(_, a, i) => 1 + Size(a) + Size(i)
    case Assign(l, _, r) => 1 + Size(l) + Size(r)
    case FunctionDef(_, _, params, body) => 1 + SizeParams(params) + Size(body)
    case Call(_, _, args, _) => 1 + SizeSeq(args)
    case Return(_, e) => 1 + SizeOpt(e)
    case Break(_) => 1
    case Continue(_) => 1
    case IfElse(_, c, t, elifs, e) => 1 + Size(c) + Size(t) + SizeElifs(elifs) + SizeOpt(e)
    case While(_, c, b) => 1 + Size(c) + Size(b)
    case For(_, inits, c, steps, b) => 1 + SizeSeq(inits) + SizeOpt(c) + SizeSeq(steps) + Size(b)
  }

  function SizeOpt(n: Option<Node>): nat {
    if n.Some? then Size(n.value) else 0
  }

  function SizeVariable(v: VarRef): nat {
    1 + SizeOpt(v.from) + SizeOpt(v.to) + SizeOpt(v.step)
  }

  function SizeSeq(ns: seq<Node>): nat {
    if ns == [] then 0 else Size(ns[0]) + SizeSeq(ns[1..])
  }

  function SizeDecl(d: Decl): nat {
    1 + SizeVariable(d.variable)
  }

  function SizeDecls(ds: seq<Decl>): nat {
    if ds == [] then 0 else SizeDecl(ds[0]) + SizeDecls(ds[1..])
  }

  function SizeParam(p: Param): nat {
    1 + SizeVariable(p.variable)
  }

  function SizeParams(ps: seq<Param>): nat {
    if ps == [] then 0 else SizeParam(ps[0]) + SizeParams(ps[1..])
  }

  function SizeElif(e: Elif): nat {
    1 + Size(e.cond) + Size(e.ifTrue)
  }

  function SizeElifs(es: seq<Elif>): nat {
    if es == [] then 0 else SizeElif(es[0]) + SizeElifs(es[1..])
  }

  lemma {:induction false} SizeSeqElement(ns: seq<Node>, i: nat)
    requires i < |ns|
    ensures Size(ns[i]) <= SizeSeq(ns)
    ensures SizeSeq(ns[i + 1..]) < SizeSeq(ns[i..])
    ensures SizeSeq(ns[i..]) <= SizeSeq(ns)
  {
    if i > 0 {
      SizeSeqElement(ns[1..], i - 1);
      assert ns[1..][i - 1..] == ns[i..];
      assert ns[1..][i..] == ns[i + 1..];
    }
  }

  lemma {:induction false} SizeDeclsElement(ds: seq<Decl>, i: nat)
    requires i < |ds|
    ensures SizeVariable(ds[i].variable) < SizeDecls(ds)
  {
    if i > 0 {
      SizeDeclsElement(ds[1..], i - 1);
    }
  }

  lemma {:induction false} SizeElifsElement(es: seq<Elif>, i: nat)
    requires i < |es|
    ensures Size(es[i].cond) < SizeElifs(es) && Size(es[i].ifTrue) < SizeElifs(es)
    ensures SizeElif(es[i]) <= SizeElifs(es)
  {
    if i > 0 {
      SizeElifsElement(es[1..], i - 1);
    }
  }
}
