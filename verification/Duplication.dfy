/**
 Copying parts of the tree. Some forms cannot be copied; what contains one is refused.
 */
module Duplication {
  import opened Wrappers
  import opened Syntax

  function DupExpr(e: Expr): Option<Expr> {
    match e
    case Var(name) => Some(Var(name))
    case Temp(t) => Some(Temp(t))
    case Literal(v) => Some(Literal(v))
    case Call(func, args) =>
      (match DupExpr(func)
       case None => None
       case Some(f) =>
         (match DupArgs(args)
          case None => None
          case Some(a) => Some(Call(f, a))))
    case Dot(arg, func) =>
      (match DupExpr(arg)
       case None => None
       case Some(a) =>
         (match DupExpr(func)
          case None => None
          case Some(f) => Some(Dot(a, f))))
    case BodyExpr(b) =>
      (match DupBody(b)
       case None => None
       case Some(b') => Some(MakeBodyExpr(b')))
    case If(c, a, b) =>
      (match DupExpr(c)
       case None => None
       case Some(c') =>
         (match DupBody(a)
          case None => None
          case Some(a') =>
            (match DupBody(b)
             case None => None
             case Some(b') => Some(If(c', a', b')))))
    case Set(name, value) =>
      (match DupExpr(value)
       case None => None
       case Some(v) => Some(Set(name, v)))
    case And(args) =>
      (match DupArgs(args)
       case None => None
       case Some(a) => Some(And(a)))
    case Or(args) =>
      (match DupArgs(args)
       case None => None
       case Some(a) => Some(Or(a)))
    case Form(_) => None
  }

  function DupArgs(args: Exprs): Option<Exprs> {
    match args
    case NoArgs => Some(NoArgs)
    case Arg(e, rest) =>
      match DupExpr(e)
      case None => None
      case Some(e') =>
        match DupArgs(rest)
        case None => None
        case Some(r) => Some(Arg(e', r))
  }

  function DupBody(b: Body): Option<Body> {
    match b
    case Empty => Some(Empty)
    case Then(e, rest) =>
      (match DupExpr(e)
       case None => None
       case Some(e') =>
         (match DupBody(rest)
          case None => None
          case Some(r) => Some(Then(e', r))))
    case Let(_, _, _) => None
    case Other(_) => None
  }

  // Every part can be copied.
  predicate Copyable(e: Expr) {
    match e
    case Var(_) => true
    case Temp(_) => true
    case Literal(_) => true
    case Call(f, args) => Copyable(f) && CopyableArgs(args)
    case Dot(a, f) => Copyable(a) && Copyable(f)
    case BodyExpr(b) => CopyableBody(b)
    case If(c, a, b) => Copyable(c) && CopyableBody(a) && CopyableBody(b)
    case Set(_, v) => Copyable(v)
    case And(args) => CopyableArgs(args)
    case Or(args) => CopyableArgs(args)
    case Form(_) => false
  }

  predicate CopyableArgs(args: Exprs) {
    args.Arg? ==> Copyable(args.expr) && CopyableArgs(args.rest)
  }

  predicate CopyableBody(b: Body) {
    b.Empty? || (b.Then? && Copyable(b.expr) && CopyableBody(b.rest))
  }

  /** Only the uncopyable is refused. */
  lemma {:induction false} DupCopyable(e: Expr)
    ensures DupExpr(e).Some? <==> Copyable(e)
  {
    match e
    case Call(f, args) => DupCopyable(f); DupArgsCopyable(args);
    case Dot(a, f) => DupCopyable(a); DupCopyable(f);
    case BodyExpr(b) => DupBodyCopyable(b);
    case If(c, a, b) => DupCopyable(c); DupBodyCopyable(a); DupBodyCopyable(b);
    case Set(_, v) => DupCopyable(v);
    case And(args) => DupArgsCopyable(args);
    case Or(args) => DupArgsCopyable(args);
    case _ =>
  }

  lemma {:induction false} DupArgsCopyable(args: Exprs)
    ensures DupArgs(args).Some? <==> CopyableArgs(args)
  {
    if args.Arg? { DupCopyable(args.expr); DupArgsCopyable(args.rest); }
  }

  lemma {:induction false} DupBodyCopyable(b: Body)
    ensures DupBody(b).Some? <==> CopyableBody(b)
  {
    if b.Then? { DupCopyable(b.expr); DupBodyCopyable(b.rest); }
  }

  /** What can be copied, kind by kind: everything but the forms that are not looked into ... */
  lemma {:induction false} DupByKind(e: Expr, f: Expr, args: Exprs, a: Body, name: string, n: nat)
    ensures DupExpr(Call(f, args)).Some? <==> DupExpr(f).Some? && DupArgs(args).Some?
    ensures DupExpr(Dot(e, f)).Some? <==> DupExpr(e).Some? && DupExpr(f).Some?
    ensures DupExpr(BodyExpr(a)).Some? <==> DupBody(a).Some?
    ensures DupExpr(Set(name, e)).Some? <==> DupExpr(e).Some?
    ensures (DupExpr(And(args)).Some? <==> DupArgs(args).Some?) && (DupExpr(Or(args)).Some? <==> DupArgs(args).Some?)
    ensures DupExpr(Form(n)).None?
  {
    hide DupArgs, DupBody;
  }

  lemma {:induction false} DupConditional(e: Expr, a: Body, b: Body)
    ensures DupExpr(If(e, a, b)).Some? <==> DupExpr(e).Some? && DupBody(a).Some? && DupBody(b).Some?
  {
    hide DupArgs, DupBody;
  }

  lemma {:induction false} DupLeaves(name: string, t: nat, v: Value)
    ensures DupExpr(Var(name)) == Some(Var(name)) && DupExpr(Temp(t)) == Some(Temp(t)) && DupExpr(Literal(v)) == Some(Literal(v))
  {
  }

  /** ... and bodies with lets, local methods or handlers. */
  lemma {:induction false} DupBodyByKind(e: Expr, args: Exprs, a: Body, t: nat, n: nat)
    ensures DupBody(Empty).Some? && (DupBody(Then(e, a)).Some? <==> DupExpr(e).Some? && DupBody(a).Some?)
    ensures DupBody(Body.Other(n)).None? && DupBody(Let(t, e, a)).None?
    ensures DupArgs(NoArgs).Some? && (DupArgs(Arg(e, args)).Some? <==> DupExpr(e).Some? && DupArgs(args).Some?)
  {
    hide DupExpr;
  }

  /** A copy means the same. */
  lemma DupSame(e: Expr)
    requires DupExpr(e).Some?
    ensures Same(e, DupExpr(e).value)
  {
    hide Eval, DupExpr;
    forall m, env, w ensures Eval(m, env, e, w) == Eval(m, env, DupExpr(e).value, w) { DupMeans(m, env, e, w); }
  }

  lemma DupBodySame(b: Body)
    requires DupBody(b).Some?
    ensures SameBody(b, DupBody(b).value)
  {
    hide EvalBody, DupBody;
    forall m, env, w ensures EvalBody(m, env, b, w) == EvalBody(m, env, DupBody(b).value, w) { DupBodyMeans(m, env, b, w); }
  }

  lemma {:induction false} DupMeans(m: Meaning, env: Env, e: Expr, w: World)
    requires DupExpr(e).Some?
    ensures Eval(m, env, e, w) == Eval(m, env, DupExpr(e).value, w)
    decreases e
  {
    match e
    case Call(f, args) => DupMeans(m, env, f, w); DupArgsMeans(m, env, args, Eval(m, env, f, w).world);
    case Dot(a, f) => DupMeans(m, env, a, w); DupMeans(m, env, f, Eval(m, env, a, w).world);
    case BodyExpr(b) => DupBodyMeans(m, env, b, w);
    case If(c, a, b) =>
      var w1 := Eval(m, env, c, w).world;
      DupMeans(m, env, c, w);
      DupBodyMeans(m, env, a, w1);
      DupBodyMeans(m, env, b, w1);
    case Set(_, v) => DupMeans(m, env, v, w);
    case And(args) => DupAndMeans(m, env, args, w);
    case Or(args) => DupOrMeans(m, env, args, w);
    case _ =>
  }

  lemma {:induction false} DupArgsMeans(m: Meaning, env: Env, args: Exprs, w: World)
    requires DupArgs(args).Some?
    ensures EvalArgs(m, env, args, w) == EvalArgs(m, env, DupArgs(args).value, w)
    decreases args
  {
    if args.Arg? { DupMeans(m, env, args.expr, w); DupArgsMeans(m, env, args.rest, Eval(m, env, args.expr, w).world); }
  }

  lemma {:induction false} DupAndMeans(m: Meaning, env: Env, args: Exprs, w: World)
    requires DupArgs(args).Some?
    ensures EvalAnd(m, env, args, w) == EvalAnd(m, env, DupArgs(args).value, w)
    decreases args
  {
    if args.Arg? { DupMeans(m, env, args.expr, w); DupAndMeans(m, env, args.rest, Eval(m, env, args.expr, w).world); }
  }

  lemma {:induction false} DupOrMeans(m: Meaning, env: Env, args: Exprs, w: World)
    requires DupArgs(args).Some?
    ensures EvalOr(m, env, args, w) == EvalOr(m, env, DupArgs(args).value, w)
    decreases args
  {
    if args.Arg? { DupMeans(m, env, args.expr, w); DupOrMeans(m, env, args.rest, Eval(m, env, args.expr, w).world); }
  }

  lemma {:induction false} DupBodyMeans(m: Meaning, env: Env, b: Body, w: World)
    requires DupBody(b).Some?
    ensures EvalBody(m, env, b, w) == EvalBody(m, env, DupBody(b).value, w)
    decreases b
  {
    if b.Then? { DupMeans(m, env, b.expr, w); DupBodyMeans(m, env, b.rest, Eval(m, env, b.expr, w).world); }
  }

  // No body of one expression stands where an expression could.
  predicate Bare(e: Expr) {
    match e
    case Var(_) => true
    case Temp(_) => true
    case Literal(_) => true
    case Call(f, args) => Bare(f) && BareArgs(args)
    case Dot(a, f) => Bare(a) && Bare(f)
    case BodyExpr(b) => MakeBodyExpr(b) == e && BareBody(b)
    case If(c, a, b) => Bare(c) && BareBody(a) && BareBody(b)
    case Set(_, v) => Bare(v)
    case And(args) => BareArgs(args)
    case Or(args) => BareArgs(args)
    case Form(_) => true
  }

  predicate BareArgs(args: Exprs) {
    args.Arg? ==> Bare(args.expr) && BareArgs(args.rest)
  }

  predicate BareBody(b: Body) {
    b.Then? ==> Bare(b.expr) && BareBody(b.rest)
  }

  /** A copy is bare, and it is the same tree exactly if the original was. */
  lemma {:induction false} DupCopies(e: Expr)
    requires DupExpr(e).Some?
    ensures Bare(DupExpr(e).value) && (DupExpr(e).value == e <==> Bare(e))
  {
    match e
    case Call(f, args) => DupCopies(f); DupArgsCopies(args);
    case Dot(a, f) => DupCopies(a); DupCopies(f);
    case BodyExpr(b) => DupBodyCopies(b);
    case If(c, a, b) => DupCopies(c); DupBodyCopies(a); DupBodyCopies(b);
    case Set(_, v) => DupCopies(v);
    case And(args) => DupArgsCopies(args);
    case Or(args) => DupArgsCopies(args);
    case _ =>
  }

  lemma {:induction false} DupArgsCopies(args: Exprs)
    requires DupArgs(args).Some?
    ensures BareArgs(DupArgs(args).value) && (DupArgs(args).value == args <==> BareArgs(args))
  {
    if args.Arg? { DupCopies(args.expr); DupArgsCopies(args.rest); }
  }

  lemma {:induction false} DupBodyCopies(b: Body)
    requires DupBody(b).Some?
    ensures BareBody(DupBody(b).value) && (DupBody(b).value == b <==> BareBody(b))
  {
    if b.Then? { DupCopies(b.expr); DupBodyCopies(b.rest); }
  }
}
