/**
 The trees that the source-to-source expander rewrites, and what they mean.

 Expressions are evaluated from left to right in a world that reads, assignments and calls may
 change; each of these may also leave the expression by a non-local exit. What they do to the
 world is left open: a property that holds here holds for every meaning of them.
 */
module Syntax {

  // Only #f is false.
  datatype Value = False | True | Other(id: int)

  datatype Expr =
    | Var(name: string)
    | Temp(temp: nat)                                  // a variable with a generated name
    | Literal(value: Value)
    | Call(func: Expr, args: Exprs)
    | Dot(arg: Expr, func: Expr)
    | BodyExpr(body: Body)
    | If(cond: Expr, consequent: Body, alternate: Body)
    | Set(name: string, value_: Expr)
    | And(args: Exprs)                                 // calls of & and |
    | Or(args: Exprs)
    | Form(form: nat)                                  // methods, blocks, loops: not looked into

  datatype Exprs = NoArgs | Arg(expr: Expr, rest: Exprs)

  // A list of constituents. A let holds the constituents after it.
  datatype Body =
    | Empty
    | Then(expr: Expr, rest: Body)
    | Let(temp: nat, init: Expr, body: Body)
    | Other(form: nat)                                 // local methods, handlers, a user's let

  type World(!new)

  datatype Outcome<T> = Done(value: T, world: World) | Exit(world: World)

  datatype Meaning = Meaning(
    read: (string, World) -> Outcome<Value>,
    write: (string, Value, World) -> Outcome<Value>,
    call: (Value, seq<Value>, World) -> Outcome<Value>,
    form: (nat, World) -> Outcome<Value>)

  type Env = map<nat, Value>

  function Eval(m: Meaning, env: Env, e: Expr, w: World): Outcome<Value>
    decreases e
  {
    match e
    case Var(name) => m.read(name, w)
    case Temp(t) => Done(if t in env then env[t] else False, w)
    case Literal(v) => Done(v, w)
    case Call(func, args) =>
      (match Eval(m, env, func, w)
       case Exit(w1) => Exit(w1)
       case Done(f, w1) =>
         (match EvalArgs(m, env, args, w1)
          case Exit(w2) => Exit(w2)
          case Done(vs, w2) => m.call(f, vs, w2)))
    case Dot(arg, func) =>
      (match Eval(m, env, arg, w)
       case Exit(w1) => Exit(w1)
       case Done(v, w1) =>
         (match Eval(m, env, func, w1)
          case Exit(w2) => Exit(w2)
          case Done(f, w2) => m.call(f, [v], w2)))
    case BodyExpr(b) => EvalBody(m, env, b, w)
    case If(c, a, b) =>
      (match Eval(m, env, c, w)
       case Exit(w1) => Exit(w1)
       case Done(v, w1) => if v != False then EvalBody(m, env, a, w1) else EvalBody(m, env, b, w1))
    case Set(name, value) =>
      (match Eval(m, env, value, w)
       case Exit(w1) => Exit(w1)
       case Done(v, w1) => m.write(name, v, w1))
    case And(args) => EvalAnd(m, env, args, w)
    case Or(args) => EvalOr(m, env, args, w)
    case Form(n) => m.form(n, w)
  }

  function EvalArgs(m: Meaning, env: Env, args: Exprs, w: World): Outcome<seq<Value>>
    decreases args
  {
    match args
    case NoArgs => Done([], w)
    case Arg(e, rest) =>
      match Eval(m, env, e, w)
      case Exit(w1) => Exit(w1)
      case Done(v, w1) =>
        match EvalArgs(m, env, rest, w1)
        case Exit(w2) => Exit(w2)
        case Done(vs, w2) => Done([v] + vs, w2)
  }

  // The arguments in order, up to the first that is false; the value of the last one evaluated.
  function EvalAnd(m: Meaning, env: Env, args: Exprs, w: World): Outcome<Value>
    decreases args
  {
    match args
    case NoArgs => Done(False, w)
    case Arg(e, NoArgs) => Eval(m, env, e, w)
    case Arg(e, rest) =>
      match Eval(m, env, e, w)
      case Exit(w1) => Exit(w1)
      case Done(v, w1) => if v == False then Done(False, w1) else EvalAnd(m, env, rest, w1)
  }

  // The arguments in order, up to the first that is true.
  function EvalOr(m: Meaning, env: Env, args: Exprs, w: World): Outcome<Value>
    decreases args
  {
    match args
    case NoArgs => Done(True, w)
    case Arg(e, NoArgs) => Eval(m, env, e, w)
    case Arg(e, rest) =>
      match Eval(m, env, e, w)
      case Exit(w1) => Exit(w1)
      case Done(v, w1) => if v != False then Done(v, w1) else EvalOr(m, env, rest, w1)
  }

  // The constituents in order; the value of the last one.
  function EvalBody(m: Meaning, env: Env, b: Body, w: World): Outcome<Value>
    decreases b
  {
    match b
    case Empty => Done(False, w)
    case Then(e, Empty) => Eval(m, env, e, w)
    case Then(e, rest) =>
      (match Eval(m, env, e, w)
       case Exit(w1) => Exit(w1)
       case Done(_, w1) => EvalBody(m, env, rest, w1))
    case Let(t, init, body) =>
      (match Eval(m, env, init, w)
       case Exit(w1) => Exit(w1)
       case Done(v, w1) => EvalBody(m, env[t := v], body, w1))
    case Other(n) => m.form(n, w)
  }

  function Literals(vs: seq<Value>): Exprs {
    if vs == [] then NoArgs else Arg(Literal(vs[0]), Literals(vs[1..]))
  }

  /** A conjunction of values is the last of them, or false if one is false or there is none. */
  lemma {:induction false} AndOfValues(m: Meaning, env: Env, vs: seq<Value>, w: World)
    ensures Eval(m, env, And(Literals(vs)), w) == Done(if vs == [] || False in vs then False else vs[|vs| - 1], w)
    decreases |vs|
  {
    hide EvalAnd;
    OneMore(m, env, vs, w);
    if |vs| > 1 {
      AndOfValues(m, env, vs[1..], w);
      assert vs == [vs[0]] + vs[1..];
    } else if |vs| == 1 {
      assert vs == [vs[0]];
    }
  }

  // One value more in front.
  lemma OneMore(m: Meaning, env: Env, vs: seq<Value>, w: World)
    ensures |vs| == 0 ==> EvalAnd(m, env, Literals(vs), w) == Done(False, w) && EvalOr(m, env, Literals(vs), w) == Done(True, w)
    ensures |vs| == 1 ==> EvalAnd(m, env, Literals(vs), w) == Done(vs[0], w) && EvalOr(m, env, Literals(vs), w) == Done(vs[0], w)
    ensures |vs| > 1 ==>
              && EvalAnd(m, env, Literals(vs), w) == (if vs[0] == False then Done(False, w) else EvalAnd(m, env, Literals(vs[1..]), w))
              && EvalOr(m, env, Literals(vs), w) == (if vs[0] != False then Done(vs[0], w) else EvalOr(m, env, Literals(vs[1..]), w))
  {
    if |vs| == 0 {
      assert vs == [];
    } else if |vs| == 1 {
      assert vs[1..] == [] && Literals(vs) == Arg(Literal(vs[0]), NoArgs);
      Alone(m, env, vs[0], w);
    } else {
      assert Literals(vs[1..]).Arg?;
      InFront(m, env, vs[0], Literals(vs[1..]), w);
    }
  }

  lemma Alone(m: Meaning, env: Env, v: Value, w: World)
    ensures EvalAnd(m, env, Arg(Literal(v), NoArgs), w) == Done(v, w) && EvalOr(m, env, Arg(Literal(v), NoArgs), w) == Done(v, w)
  {
  }

  lemma InFront(m: Meaning, env: Env, v: Value, rest: Exprs, w: World)
    requires rest.Arg?
    ensures EvalAnd(m, env, Arg(Literal(v), rest), w) == (if v == False then Done(False, w) else EvalAnd(m, env, rest, w))
    ensures EvalOr(m, env, Arg(Literal(v), rest), w) == (if v != False then Done(v, w) else EvalOr(m, env, rest, w))
  {
  }

  /** A disjunction of values is the first that is not false, false if all are, or true if there
      is none. */
  lemma {:induction false} OrOfValues(m: Meaning, env: Env, vs: seq<Value>, w: World)
    ensures vs == [] ==> Eval(m, env, Or(Literals(vs)), w) == Done(True, w)
    ensures vs != [] && (forall i :: 0 <= i < |vs| ==> vs[i] == False) ==> Eval(m, env, Or(Literals(vs)), w) == Done(False, w)
    ensures forall i :: 0 <= i < |vs| && vs[i] != False && (forall j :: 0 <= j < i ==> vs[j] == False) ==>
              Eval(m, env, Or(Literals(vs)), w) == Done(vs[i], w)
    decreases |vs|
  {
    hide EvalOr, EvalAnd, Literals;
    OneMore(m, env, vs, w);
    if |vs| > 1 {
      var rest := vs[1..];
      OrOfValues(m, env, rest, w);
      forall i | 0 <= i < |vs| - 1 ensures rest[i] == vs[i + 1] {}
      if vs[0] == False { LaterTrue(vs, Eval(m, env, Or(Literals(rest)), w), w); }
    }
  }

  lemma LaterTrue(vs: seq<Value>, o: Outcome<Value>, w: World)
    requires |vs| > 1 && vs[0] == False
    requires (forall i :: 0 <= i < |vs| - 1 ==> vs[1..][i] == False) ==> o == Done(False, w)
    requires forall i :: 0 <= i < |vs| - 1 && vs[1..][i] != False && (forall j :: 0 <= j < i ==> vs[1..][j] == False) ==>
               o == Done(vs[1..][i], w)
    ensures (forall i :: 0 <= i < |vs| ==> vs[i] == False) ==> o == Done(False, w)
    ensures forall i :: 0 <= i < |vs| && vs[i] != False && (forall j :: 0 <= j < i ==> vs[j] == False) ==> o == Done(vs[i], w)
  {
    forall i | 0 <= i < |vs| && vs[i] != False && (forall j :: 0 <= j < i ==> vs[j] == False) ensures o == Done(vs[i], w) {
      assert vs[1..][i - 1] == vs[i];
      assert forall j :: 0 <= j < i - 1 ==> vs[1..][j] == vs[j + 1];
    }
  }

  /** A conditional takes its first arm unless the condition is false. */
  lemma IfOfValue(m: Meaning, env: Env, v: Value, a: Expr, b: Expr, w: World)
    ensures v != False ==> Eval(m, env, If(Literal(v), Then(a, Empty), Then(b, Empty)), w) == Eval(m, env, a, w)
    ensures v == False ==> Eval(m, env, If(Literal(v), Then(a, Empty), Then(b, Empty)), w) == Eval(m, env, b, w)
  {
    assert EvalBody(m, env, Then(a, Empty), w) == Eval(m, env, a, w);
    assert EvalBody(m, env, Then(b, Empty), w) == Eval(m, env, b, w);
  }

  lemma {:induction false} ArgsOfValues(m: Meaning, env: Env, vs: seq<Value>, w: World)
    ensures EvalArgs(m, env, Literals(vs), w) == Done(vs, w)
    decreases |vs|
  {
    if vs != [] {
      ArgsOfValues(m, env, vs[1..], w);
      assert [vs[0]] + vs[1..] == vs;
      assert Eval(m, env, Literal(vs[0]), w) == Done(vs[0], w);
    }
  }

  /** Calls, assignments, bodies and lets of values. */
  lemma FormsOfValues(m: Meaning, env: Env, f: Value, vs: seq<Value>, u: Value, v: Value, name: string, t: nat, w: World)
    ensures Eval(m, env, Call(Literal(f), Literals(vs)), w) == m.call(f, vs, w)
    ensures Eval(m, env, Dot(Literal(v), Literal(f)), w) == m.call(f, [v], w)
    ensures Eval(m, env, Set(name, Literal(v)), w) == m.write(name, v, w)
    ensures EvalBody(m, env, Empty, w) == Done(False, w)
    ensures EvalBody(m, env, Then(Literal(u), Then(Literal(v), Empty)), w) == Done(v, w)
    ensures EvalBody(m, env, Let(t, Literal(v), Then(Temp(t), Empty)), w) == Done(v, w)
  {
    ArgsOfValues(m, env, vs, w);
    assert Eval(m, env, Literal(f), w) == Done(f, w) && Eval(m, env, Literal(v), w) == Done(v, w);
    assert EvalBody(m, env, Then(Literal(v), Empty), w) == Done(v, w);
    var env' := env[t := v];
    assert Eval(m, env', Temp(t), w) == Done(v, w);
    assert EvalBody(m, env', Then(Temp(t), Empty), w) == Done(v, w);
  }

  /** Two expressions mean the same: value, effects and their order, and exits. */
  ghost predicate Same(e: Expr, r: Expr) {
    forall m, env, w :: Eval(m, env, e, w) == Eval(m, env, r, w)
  }

  ghost predicate SameArgs(a: Exprs, r: Exprs) {
    forall m, env, w :: EvalArgs(m, env, a, w) == EvalArgs(m, env, r, w)
  }

  ghost predicate SameBody(b: Body, r: Body) {
    forall m, env, w :: EvalBody(m, env, b, w) == EvalBody(m, env, r, w)
  }

  // A body as an expression: one that consists of an expression is that expression, so that a
  // conditional in an arm becomes a condition itself.
  function MakeBodyExpr(b: Body): Expr {
    if b.Then? && b.rest.Empty? then b.expr else BodyExpr(b)
  }

  // The generated names are below k.
  predicate Below(e: Expr, k: nat)
    decreases e
  {
    match e
    case Var(_) => true
    case Temp(t) => t < k
    case Literal(_) => true
    case Call(f, args) => Below(f, k) && ArgsBelow(args, k)
    case Dot(a, f) => Below(a, k) && Below(f, k)
    case BodyExpr(b) => BodyBelow(b, k)
    case If(c, a, b) => Below(c, k) && BodyBelow(a, k) && BodyBelow(b, k)
    case Set(_, v) => Below(v, k)
    case And(args) => ArgsBelow(args, k)
    case Or(args) => ArgsBelow(args, k)
    case Form(_) => true
  }

  predicate ArgsBelow(args: Exprs, k: nat)
    decreases args
  {
    args.Arg? ==> Below(args.expr, k) && ArgsBelow(args.rest, k)
  }

  predicate BodyBelow(b: Body, k: nat)
    decreases b
  {
    match b
    case Empty => true
    case Then(e, rest) => Below(e, k) && BodyBelow(rest, k)
    case Let(t, init, body) => t < k && Below(init, k) && BodyBelow(body, k)
    case Other(_) => true
  }

  lemma {:induction false} BelowMore(e: Expr, k: nat, k': nat)
    requires Below(e, k) && k <= k'
    ensures Below(e, k')
    decreases e
  {
    match e
    case Call(f, args) => BelowMore(f, k, k'); ArgsBelowMore(args, k, k');
    case Dot(a, f) => BelowMore(a, k, k'); BelowMore(f, k, k');
    case BodyExpr(b) => BodyBelowMore(b, k, k');
    case If(c, a, b) => BelowMore(c, k, k'); BodyBelowMore(a, k, k'); BodyBelowMore(b, k, k');
    case Set(_, v) => BelowMore(v, k, k');
    case And(args) => ArgsBelowMore(args, k, k');
    case Or(args) => ArgsBelowMore(args, k, k');
    case _ =>
  }

  lemma {:induction false} ArgsBelowMore(args: Exprs, k: nat, k': nat)
    requires ArgsBelow(args, k) && k <= k'
    ensures ArgsBelow(args, k')
    decreases args
  {
    if args.Arg? { BelowMore(args.expr, k, k'); ArgsBelowMore(args.rest, k, k'); }
  }

  lemma {:induction false} BodyBelowMore(b: Body, k: nat, k': nat)
    requires BodyBelow(b, k) && k <= k'
    ensures BodyBelow(b, k')
    decreases b
  {
    match b
    case Then(e, rest) => BelowMore(e, k, k'); BodyBelowMore(rest, k, k');
    case Let(_, init, body) => BelowMore(init, k, k'); BodyBelowMore(body, k, k');
    case _ =>
  }

  // Environments that agree on the names below k.
  ghost predicate Agree(env: Env, env': Env, k: nat) {
    forall t :: 0 <= t < k ==> (t in env <==> t in env') && (t in env ==> env[t] == env'[t])
  }

  // An expression does not depend on names that it does not mention.
  lemma {:induction false} EvalAgree(m: Meaning, env: Env, env': Env, e: Expr, w: World, k: nat)
    requires Below(e, k) && Agree(env, env', k)
    ensures Eval(m, env, e, w) == Eval(m, env', e, w)
    decreases e
  {
    match e
    case Call(f, args) =>
      EvalAgree(m, env, env', f, w, k);
      ArgsAgree(m, env, env', args, Eval(m, env, f, w).world, k);
    case Dot(a, f) =>
      EvalAgree(m, env, env', a, w, k);
      EvalAgree(m, env, env', f, Eval(m, env, a, w).world, k);
    case BodyExpr(b) => BodyAgree(m, env, env', b, w, k);
    case If(c, a, b) =>
      EvalAgree(m, env, env', c, w, k);
      BodyAgree(m, env, env', a, Eval(m, env, c, w).world, k);
      BodyAgree(m, env, env', b, Eval(m, env, c, w).world, k);
    case Set(_, v) => EvalAgree(m, env, env', v, w, k);
    case And(args) => AndAgree(m, env, env', args, w, k);
    case Or(args) => OrAgree(m, env, env', args, w, k);
    case _ =>
  }

  lemma {:induction false} ArgsAgree(m: Meaning, env: Env, env': Env, args: Exprs, w: World, k: nat)
    requires ArgsBelow(args, k) && Agree(env, env', k)
    ensures EvalArgs(m, env, args, w) == EvalArgs(m, env', args, w)
    decreases args
  {
    if args.Arg? {
      EvalAgree(m, env, env', args.expr, w, k);
      ArgsAgree(m, env, env', args.rest, Eval(m, env, args.expr, w).world, k);
    }
  }

  lemma {:induction false} AndAgree(m: Meaning, env: Env, env': Env, args: Exprs, w: World, k: nat)
    requires ArgsBelow(args, k) && Agree(env, env', k)
    ensures EvalAnd(m, env, args, w) == EvalAnd(m, env', args, w)
    decreases args
  {
    if args.Arg? {
      EvalAgree(m, env, env', args.expr, w, k);
      AndAgree(m, env, env', args.rest, Eval(m, env, args.expr, w).world, k);
    }
  }

  lemma {:induction false} OrAgree(m: Meaning, env: Env, env': Env, args: Exprs, w: World, k: nat)
    requires ArgsBelow(args, k) && Agree(env, env', k)
    ensures EvalOr(m, env, args, w) == EvalOr(m, env', args, w)
    decreases args
  {
    if args.Arg? {
      EvalAgree(m, env, env', args.expr, w, k);
      OrAgree(m, env, env', args.rest, Eval(m, env, args.expr, w).world, k);
    }
  }

  lemma {:induction false} BodyAgree(m: Meaning, env: Env, env': Env, b: Body, w: World, k: nat)
    requires BodyBelow(b, k) && Agree(env, env', k)
    ensures EvalBody(m, env, b, w) == EvalBody(m, env', b, w)
    decreases b
  {
    match b
    case Then(e, rest) =>
      EvalAgree(m, env, env', e, w, k);
      BodyAgree(m, env, env', rest, Eval(m, env, e, w).world, k);
    case Let(t, init, body) =>
      EvalAgree(m, env, env', init, w, k);
      var o := Eval(m, env, init, w);
      if o.Done? { BodyAgree(m, env[t := o.value], env'[t := o.value], body, o.world, k); }
    case _ =>
  }
}
