/**
 Programs that are certainly tame, and loops that are certainly of the right form: those in
 which the constructs in question do not occur.
 */
module PlainPrograms {
  import opened Wrappers
  import opened Programs
  import opened Semantics
  import opened StackDepth
  import opened Assumptions

  datatype Construct = Assignment | ValuesCall | ARepeat

  /** The expression contains none of these constructs. */
  predicate Without(e: Expr, cs: set<Construct>)
    decreases e
  {
    match e
    case Var(_, _) => true
    case Lit(_) => true
    case Call(f, args) => Without(f, cs) && WithoutArgs(args, cs)
    case Binary(_, l, r) => Without(l, cs) && Without(r, cs)
    case Values(f, args) => ValuesCall !in cs && Without(f, cs) && WithoutArgs(args, cs)
    case Dot(a, f) => Without(a, cs) && Without(f, cs)
    case MethodRef(mm) => WithoutMethod(mm, cs)
    case BodyExpr(b) => WithoutBody(b, cs)
    case If(c, a, b) => Without(c, cs) && WithoutBody(a, cs) && WithoutBody(b, cs)
    case Set(_, _, v) => Assignment !in cs && Without(v, cs)
    case Loop(b) => WithoutBody(b, cs)
    case Repeat => ARepeat !in cs
  }

  predicate WithoutArgs(args: Exprs, cs: set<Construct>)
    decreases args
  {
    args.Arg? ==> Without(args.expr, cs) && WithoutArgs(args.rest, cs)
  }

  predicate WithoutBody(b: Body, cs: set<Construct>)
    decreases b
  {
    match b
    case Last(e) => Without(e, cs)
    case Then(e, rest) => Without(e, cs) && WithoutBody(rest, cs)
    case Let(_, _, init, _, _, body) => Without(init, cs) && WithoutBody(body, cs)
    case Local(ms, _, _, body) => WithoutMethods(ms, cs) && WithoutBody(body, cs)
  }

  predicate WithoutMethods(ms: Methods, cs: set<Construct>)
    decreases ms
  {
    ms.AMethod? ==> WithoutMethod(ms.method_, cs) && WithoutMethods(ms.rest, cs)
  }

  predicate WithoutMethod(mm: Method, cs: set<Construct>)
    decreases mm
  {
    Without(mm.specializers, cs) && WithoutBody(mm.body, cs)
  }

  /** Without assignments and calls of values a program is tame. */
  lemma {:induction false} PlainIsTame(t: Tables, e: Expr, cs: set<Construct>)
    requires Without(e, cs) && Assignment in cs && ValuesCall in cs
    ensures Tame(t, e) && !CheckedEarly(e)
    decreases e
  {
    match e
    case Call(f, args) => PlainIsTame(t, f, cs); PlainArgsTame(t, args, cs);
    case Binary(_, l, r) => PlainIsTame(t, l, cs); PlainIsTame(t, r, cs);
    case Dot(a, f) => PlainIsTame(t, a, cs); PlainIsTame(t, f, cs);
    case MethodRef(mm) => PlainMethodTame(t, mm, cs);
    case BodyExpr(b) => PlainBodyTame(t, b, cs);
    case If(c, a, b) => PlainIsTame(t, c, cs); PlainBodyTame(t, a, cs); PlainBodyTame(t, b, cs);
    case Loop(b) => PlainBodyTame(t, b, cs);
    case _ =>
  }

  lemma {:induction false} PlainArgsTame(t: Tables, args: Exprs, cs: set<Construct>)
    requires WithoutArgs(args, cs) && Assignment in cs && ValuesCall in cs
    ensures TameArgs(t, args)
    decreases args
  {
    if args.Arg? { PlainIsTame(t, args.expr, cs); PlainArgsTame(t, args.rest, cs); }
  }

  lemma {:induction false} PlainBodyTame(t: Tables, b: Body, cs: set<Construct>)
    requires WithoutBody(b, cs) && Assignment in cs && ValuesCall in cs
    ensures TameBody(t, b) && !CheckedEarlyLast(b)
    decreases b
  {
    match b
    case Last(e) => PlainIsTame(t, e, cs);
    case Then(e, rest) => PlainIsTame(t, e, cs); PlainBodyTame(t, rest, cs);
    case Let(_, _, init, _, _, body) => PlainIsTame(t, init, cs); PlainBodyTame(t, body, cs);
    case Local(ms, _, _, body) => PlainMethodsTame(t, ms, cs); PlainBodyTame(t, body, cs);
  }

  lemma {:induction false} PlainMethodsTame(t: Tables, ms: Methods, cs: set<Construct>)
    requires WithoutMethods(ms, cs) && Assignment in cs && ValuesCall in cs
    ensures TameMethods(t, ms)
    decreases ms
  {
    if ms.AMethod? { PlainMethodTame(t, ms.method_, cs); PlainMethodsTame(t, ms.rest, cs); }
  }

  lemma {:induction false} PlainMethodTame(t: Tables, mm: Method, cs: set<Construct>)
    requires WithoutMethod(mm, cs) && Assignment in cs && ValuesCall in cs
    ensures TameMethod(t, mm)
    decreases mm
  {
    PlainIsTame(t, mm.specializers, cs);
    PlainBodyTame(t, mm.body, cs);
  }

  /** What asks for no rounds can stand anywhere. */
  lemma {:induction false} PlainIsLooped(e: Expr, tail: bool, cs: set<Construct>)
    requires Without(e, cs) && ARepeat in cs
    ensures WellLooped(e, tail)
    decreases e
  {
    match e
    case Call(f, args) => PlainIsLooped(f, false, cs); PlainArgsLooped(args, cs);
    case Binary(_, l, r) => PlainIsLooped(l, false, cs); PlainIsLooped(r, false, cs);
    case Values(f, args) => PlainIsLooped(f, false, cs); PlainArgsLooped(args, cs);
    case Dot(a, f) => PlainIsLooped(a, false, cs); PlainIsLooped(f, false, cs);
    case MethodRef(mm) => PlainMethodLooped(mm, cs);
    case BodyExpr(b) => PlainBodyLooped(b, tail, cs);
    case If(c, a, b) => PlainIsLooped(c, false, cs); PlainBodyLooped(a, tail, cs); PlainBodyLooped(b, tail, cs);
    case Set(_, _, v) => PlainIsLooped(v, false, cs);
    case Loop(b) => PlainBodyLooped(b, true, cs);
    case _ =>
  }

  lemma {:induction false} PlainArgsLooped(args: Exprs, cs: set<Construct>)
    requires WithoutArgs(args, cs) && ARepeat in cs
    ensures WellLoopedArgs(args)
    decreases args
  {
    if args.Arg? { PlainIsLooped(args.expr, false, cs); PlainArgsLooped(args.rest, cs); }
  }

  lemma {:induction false} PlainBodyLooped(b: Body, tail: bool, cs: set<Construct>)
    requires WithoutBody(b, cs) && ARepeat in cs
    ensures WellLoopedBody(b, tail)
    decreases b
  {
    match b
    case Last(e) => PlainIsLooped(e, tail, cs);
    case Then(e, rest) => PlainIsLooped(e, tail, cs); PlainBodyLooped(rest, tail, cs);
    case Let(_, _, init, _, _, body) => PlainIsLooped(init, false, cs); PlainBodyLooped(body, tail, cs);
    case Local(ms, _, _, body) => PlainMethodsLooped(ms, cs); PlainBodyLooped(body, tail, cs);
  }

  lemma {:induction false} PlainMethodsLooped(ms: Methods, cs: set<Construct>)
    requires WithoutMethods(ms, cs) && ARepeat in cs
    ensures WellLoopedMethods(ms)
    decreases ms
  {
    if ms.AMethod? { PlainMethodLooped(ms.method_, cs); PlainMethodsLooped(ms.rest, cs); }
  }

  lemma {:induction false} PlainMethodLooped(mm: Method, cs: set<Construct>)
    requires WithoutMethod(mm, cs) && ARepeat in cs
    ensures WellLoopedMethod(mm)
    decreases mm
  {
    PlainIsLooped(mm.specializers, false, cs);
    PlainBodyLooped(mm.body, false, cs);
  }
}
