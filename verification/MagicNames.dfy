/**
 Calls of magic functions are told by the name of the function alone, whatever the name means
 where the call is.
 */
module MagicNames {
  import opened Wrappers
  import opened Programs
  import opened Semantics
  import opened WholeProgram
  import Assumptions
  import Surprises

  function MagicOf(symbol: string): Option<Magic> {
    match symbol
    case "+" => Some(0)
    case "-" => Some(1)
    case "<" => Some(2)
    case "<=" => Some(3)
    case "=" => Some(4)
    case "==" => Some(5)
    case "~=" => Some(6)
    case ">=" => Some(7)
    case ">" => Some(8)
    case "check-type" => Some(9)
    case _ => None
  }

  datatype Kind = Plain | OfTwo(op: Magic) | OfValues

  // What a call looks like. Magic functions are called for two arguments only.
  function KindOf(f: Expr, args: Exprs): (k: Kind)
    ensures k.OfTwo? ==> args.Arg? && args.rest.Arg? && args.rest.rest.NoArgs?
    ensures !k.Plain? ==> f.Var?
  {
    if !f.Var? then Plain
    else if f.id.symbol == "values" then OfValues
    else if MagicOf(f.id.symbol).Some? && args.Arg? && args.rest.Arg? && args.rest.rest.NoArgs? then
      OfTwo(MagicOf(f.id.symbol).value)
    else Plain
  }

  /** A call is taken for one of values by the name alone, and for one of another magic function by
      the name and two arguments. */
  lemma KindsOfCalls(id: Id, ref: Ref, args: Exprs)
    ensures KindOf(Var(id, ref), args).OfValues? <==> id.symbol == "values"
    ensures KindOf(Var(id, ref), args).OfTwo? <==>
              id.symbol in ["+", "-", "<", "<=", "=", "==", "~=", ">=", ">", "check-type"]
              && exists a, b :: args == Arg(a, Arg(b, NoArgs))
  {
    if args.Arg? && args.rest.Arg? && args.rest.rest.NoArgs? { assert args == Arg(args.expr, Arg(args.rest.expr, NoArgs)); }
  }

  function Among(ids: seq<Id>): set<Id> {
    set id | id in ids
  }

  /** A program with its calls of magic functions found: all that look like it, or, if the reading
      is lexical, those of names that are not bound where the call is. */
  function Reading(e: Expr, lexical: bool, bound: set<Id>): Expr
    decreases e
  {
    match e
    case Call(f, args) =>
      var kind := if lexical && f.Var? && f.id in bound then Plain else KindOf(f, args);
      (match kind
       case Plain => Call(Reading(f, lexical, bound), ReadingArgs(args, lexical, bound))
       case OfTwo(op) => Binary(op, Reading(args.expr, lexical, bound), Reading(args.rest.expr, lexical, bound))
       case OfValues => Values(Reading(f, lexical, bound), ReadingArgs(args, lexical, bound)))
    case Binary(op, l, r) => Binary(op, Reading(l, lexical, bound), Reading(r, lexical, bound))
    case Values(f, args) => Values(Reading(f, lexical, bound), ReadingArgs(args, lexical, bound))
    case Dot(a, f) => Dot(Reading(a, lexical, bound), Reading(f, lexical, bound))
    case MethodRef(mm) => MethodRef(ReadingMethod(mm, lexical, bound))
    case BodyExpr(b) => BodyExpr(ReadingBody(b, lexical, bound))
    case If(c, a, b) => If(Reading(c, lexical, bound), ReadingBody(a, lexical, bound), ReadingBody(b, lexical, bound))
    case Set(id, ref, v) => Set(id, ref, Reading(v, lexical, bound))
    case Loop(b) => Loop(ReadingBody(b, lexical, bound))
    case _ => e
  }

  function ReadingArgs(args: Exprs, lexical: bool, bound: set<Id>): Exprs
    decreases args
  {
    if args.NoArgs? then NoArgs else Arg(Reading(args.expr, lexical, bound), ReadingArgs(args.rest, lexical, bound))
  }

  function ReadingBody(b: Body, lexical: bool, bound: set<Id>): Body
    decreases b
  {
    match b
    case Last(e) => Last(Reading(e, lexical, bound))
    case Then(e, rest) => Then(Reading(e, lexical, bound), ReadingBody(rest, lexical, bound))
    case Let(vars, restVar, init, first, offset, body) =>
      Let(vars, restVar, Reading(init, lexical, bound), first, offset,
          ReadingBody(body, lexical, bound + Among(LetVars(vars, restVar))))
    case Local(ms, first, offset, body) =>
      var inner := bound + Among(Names(ms));
      Local(ReadingMethods(ms, lexical, inner), first, offset, ReadingBody(body, lexical, inner))
  }

  function ReadingMethods(ms: Methods, lexical: bool, bound: set<Id>): Methods
    decreases ms
  {
    if ms.NoMethods? then NoMethods
    else AMethod(ReadingMethod(ms.method_, lexical, bound), ReadingMethods(ms.rest, lexical, bound))
  }

  function ReadingMethod(mm: Method, lexical: bool, bound: set<Id>): Method
    decreases mm
  {
    mm.(specializers := Reading(mm.specializers, lexical, bound), body := ReadingBody(mm.body, lexical, bound + Among(mm.Bound())))
  }

  /** Somewhere a name is bound and is called as if it were that of a magic function. */
  predicate Shadowed(e: Expr, bound: set<Id>)
    decreases e
  {
    match e
    case Call(f, args) => (f.Var? && f.id in bound && !KindOf(f, args).Plain?) || Shadowed(f, bound) || ShadowedArgs(args, bound)
    case Binary(_, l, r) => Shadowed(l, bound) || Shadowed(r, bound)
    case Values(f, args) => Shadowed(f, bound) || ShadowedArgs(args, bound)
    case Dot(a, f) => Shadowed(a, bound) || Shadowed(f, bound)
    case MethodRef(mm) => ShadowedMethod(mm, bound)
    case BodyExpr(b) => ShadowedBody(b, bound)
    case If(c, a, b) => Shadowed(c, bound) || ShadowedBody(a, bound) || ShadowedBody(b, bound)
    case Set(_, _, v) => Shadowed(v, bound)
    case Loop(b) => ShadowedBody(b, bound)
    case _ => false
  }

  predicate ShadowedArgs(args: Exprs, bound: set<Id>)
    decreases args
  {
    args.Arg? && (Shadowed(args.expr, bound) || ShadowedArgs(args.rest, bound))
  }

  predicate ShadowedBody(b: Body, bound: set<Id>)
    decreases b
  {
    match b
    case Last(e) => Shadowed(e, bound)
    case Then(e, rest) => Shadowed(e, bound) || ShadowedBody(rest, bound)
    case Let(vars, restVar, init, _, _, body) =>
      Shadowed(init, bound) || ShadowedBody(body, bound + Among(LetVars(vars, restVar)))
    case Local(ms, _, _, body) => ShadowedMethods(ms, bound + Among(Names(ms))) || ShadowedBody(body, bound + Among(Names(ms)))
  }

  predicate ShadowedMethods(ms: Methods, bound: set<Id>)
    decreases ms
  {
    ms.AMethod? && (ShadowedMethod(ms.method_, bound) || ShadowedMethods(ms.rest, bound))
  }

  predicate ShadowedMethod(mm: Method, bound: set<Id>)
    decreases mm
  {
    Shadowed(mm.specializers, bound) || ShadowedBody(mm.body, bound + Among(mm.Bound()))
  }

  /** The compiler finds the calls of magic functions that scoping allows exactly if no such name is
      bound where it is called. */
  lemma {:induction false} ReadRightly(e: Expr, bound: set<Id>)
    ensures Reading(e, false, bound) == Reading(e, true, bound) <==> !Shadowed(e, bound)
    decreases e
  {
    match e
    case Call(f, args) => CallRead(e, bound);
    case Binary(_, l, r) => ReadRightly(l, bound); ReadRightly(r, bound);
    case Values(f, args) => ReadRightly(f, bound); ArgsRead(args, bound);
    case Dot(a, f) => ReadRightly(a, bound); ReadRightly(f, bound);
    case MethodRef(mm) => MethodRead(mm, bound);
    case BodyExpr(b) => BodyRead(b, bound);
    case If(c, a, b) => ReadRightly(c, bound); BodyRead(a, bound); BodyRead(b, bound);
    case Set(_, _, v) => ReadRightly(v, bound);
    case Loop(b) => BodyRead(b, bound);
    case _ =>
  }

  lemma {:induction false} CallRead(e: Expr, bound: set<Id>)
    requires e.Call?
    ensures Reading(e, false, bound) == Reading(e, true, bound) <==> !Shadowed(e, bound)
    decreases e, 0
  {
    hide MagicOf;
    ReadRightly(e.func, bound);
    ArgsRead(e.args, bound);
    if KindOf(e.func, e.args).OfTwo? {
      ReadRightly(e.args.expr, bound);
      ReadRightly(e.args.rest.expr, bound);
      assert !ShadowedArgs(e.args.rest.rest, bound);
      assert ShadowedArgs(e.args.rest, bound) <==> Shadowed(e.args.rest.expr, bound);
      assert ShadowedArgs(e.args, bound) <==> Shadowed(e.args.expr, bound) || Shadowed(e.args.rest.expr, bound);
    }
  }

  lemma {:induction false} ArgsRead(args: Exprs, bound: set<Id>)
    ensures ReadingArgs(args, false, bound) == ReadingArgs(args, true, bound) <==> !ShadowedArgs(args, bound)
    decreases args
  {
    if args.Arg? { ReadRightly(args.expr, bound); ArgsRead(args.rest, bound); }
  }

  lemma {:induction false} BodyRead(b: Body, bound: set<Id>)
    ensures ReadingBody(b, false, bound) == ReadingBody(b, true, bound) <==> !ShadowedBody(b, bound)
    decreases b
  {
    match b
    case Last(e) => ReadRightly(e, bound);
    case Then(e, rest) => ReadRightly(e, bound); BodyRead(rest, bound);
    case Let(vars, restVar, init, _, _, body) => ReadRightly(init, bound); BodyRead(body, bound + Among(LetVars(vars, restVar)));
    case Local(ms, _, _, body) => MethodsRead(ms, bound + Among(Names(ms))); BodyRead(body, bound + Among(Names(ms)));
  }

  lemma {:induction false} MethodsRead(ms: Methods, bound: set<Id>)
    ensures ReadingMethods(ms, false, bound) == ReadingMethods(ms, true, bound) <==> !ShadowedMethods(ms, bound)
    decreases ms
  {
    if ms.AMethod? { MethodRead(ms.method_, bound); MethodsRead(ms.rest, bound); }
  }

  lemma {:induction false} MethodRead(mm: Method, bound: set<Id>)
    ensures ReadingMethod(mm, false, bound) == ReadingMethod(mm, true, bound) <==> !ShadowedMethod(mm, bound)
    decreases mm
  {
    ReadRightly(mm.specializers, bound);
    BodyRead(mm.body, bound + Among(mm.Bound()));
  }

  /** A program as it was written: if it calls no magic name where that is bound, its byte code does
      what scoping says it means. */
  method AnalyzeSource(mm: Method) returns (r: Method, t: Tables)
    ensures EraseMethod(r) == EraseMethod(ReadingMethod(mm, false, {}))
    ensures !ShadowedMethod(mm, {}) ==>
              forall m: Meaning, s, fuel: nat :: m.Good() && m.assumed.None? && Initial(s) ==>
                var o := Apply(m, Closure(ReadingMethod(mm, true, {}), []), [], s, fuel);
                o.Done? || Assumptions.TameMethod(t, r) ==> EndsAlike(m, t, r, s, o, fuel)
  {
    hide ReadingMethod, EndsAlike, Apply, Initial, EraseMethod, ShadowedMethod, Assumptions.TameMethod, Meaning.Good;
    r, t := AnalyzeProgram(ReadingMethod(mm, false, {}));
    MethodRead(mm, {});
  }

  // let \+ = values; 1 + 2
  const PLUS := Id("+", false)
  const ONE_TWO := Arg(Lit(IntLit(1)), Arg(Lit(IntLit(2)), NoArgs))
  const LOCAL_PLUS := BodyExpr(Let([PLUS], None, Lit(OtherLit(0)), 0, 0, Last(Call(Var(PLUS, UNANALYZED), ONE_TWO))))

  /** The sum has the values 1 and 2, but as the compiler reads it, it is a builtin addition, which
      fails here. */
  lemma LocalPlus(s: State)
    ensures Shadowed(LOCAL_PLUS, {})
    ensures var s' := s.(mem := s.mem + [Prim(OtherLit(0))]);
            && Eval(Surprises.Example(), Reading(LOCAL_PLUS, true, {}), [], s, 0) == Done([Prim(IntLit(1)), Prim(IntLit(2))], s')
            && Eval(Surprises.Example(), Reading(LOCAL_PLUS, false, {}), [], s, 0) == Exit(s')
  {
    hide Eval, EvalBody;
    ReadPlus();
    CallsLocal(s);
    Adds(s);
  }

  lemma ReadPlus()
    ensures Shadowed(LOCAL_PLUS, {}) && Reading(LOCAL_PLUS, true, {}) == LOCAL_PLUS
    ensures Reading(LOCAL_PLUS, false, {}) ==
            BodyExpr(Let([PLUS], None, Lit(OtherLit(0)), 0, 0, Last(Binary(0, Lit(IntLit(1)), Lit(IntLit(2))))))
  {
    var sum, inner: set<Id> := Call(Var(PLUS, UNANALYZED), ONE_TWO), {} + Among([PLUS]);
    assert LetVars([PLUS], None) == [PLUS];
    assert PLUS in inner && KindOf(Var(PLUS, UNANALYZED), ONE_TWO) == OfTwo(0);
    assert ReadingArgs(Arg(Lit(IntLit(2)), NoArgs), true, inner) == Arg(Lit(IntLit(2)), NoArgs);
    assert Reading(sum, true, inner) == sum && Shadowed(sum, inner);
    assert Reading(sum, false, inner) == Binary(0, Lit(IntLit(1)), Lit(IntLit(2)));
    assert ReadingBody(Last(sum), false, inner) == Last(Binary(0, Lit(IntLit(1)), Lit(IntLit(2))));
    assert Reading(Lit(OtherLit(0)), false, {}) == Lit(OtherLit(0));
    assert ReadingBody(LOCAL_PLUS.body, true, {}) == LOCAL_PLUS.body && ShadowedBody(LOCAL_PLUS.body, {});
  }

  // Inside the let.
  lemma InsideLet(m: Meaning, s: State, b: Body)
    ensures Eval(m, BodyExpr(Let([PLUS], None, Lit(OtherLit(0)), 0, 0, b)), [], s, 0)
         == EvalBody(m, b, [Entry(PLUS, |s.mem|)], s.(mem := s.mem + [Prim(OtherLit(0))]), 0)
  {
    hide Wanted, EntriesDown, LetVars;
    var v := Prim(OtherLit(0));
    LetParts(|s.mem|, v);
    assert Eval(m, Lit(OtherLit(0)), [], s, 0) == Done([v], s);
    assert EvalBody(m, Let([PLUS], None, Lit(OtherLit(0)), 0, 0, b), [], s, 0)
        == EvalBody(m, b, EntriesDown(LetVars([PLUS], None), |s.mem|) + [], s.(mem := s.mem + Wanted([v], 1, false)), 0);
  }

  lemma LetParts(n: nat, v: Value)
    ensures EntriesDown(LetVars([PLUS], None), n) + [] == [Entry(PLUS, n)] && Wanted([v], 1, false) == [v]
  {
    assert LetVars([PLUS], None) == [PLUS];
    assert EntriesDown([PLUS], n) == [Entry(PLUS, n)];
  }

  lemma CallsLocal(s: State)
    ensures Eval(Surprises.Example(), LOCAL_PLUS, [], s, 0)
         == Done([Prim(IntLit(1)), Prim(IntLit(2))], s.(mem := s.mem + [Prim(OtherLit(0))]))
  {
    hide Eval;
    var m, env, s' := Surprises.Example(), [Entry(PLUS, |s.mem|)], s.(mem := s.mem + [Prim(OtherLit(0))]);
    InsideLet(m, s, Last(Call(Var(PLUS, UNANALYZED), ONE_TWO)));
    assert Lookup(env, PLUS) == Some(|s.mem|);
    CallsValues(env, |s.mem|, s');
  }

  lemma CallsValues(env: seq<Entry>, loc: nat, s: State)
    requires Lookup(env, PLUS) == Some(loc) && loc < |s.mem| && s.mem[loc] == Prim(OtherLit(0))
    ensures Eval(Surprises.Example(), Call(Var(PLUS, UNANALYZED), ONE_TWO), env, s, 0)
         == Done([Prim(IntLit(1)), Prim(IntLit(2))], s)
  {
    hide Views, Picked, EvalArgs, Apply;
    assert Eval(Surprises.Example(), Var(PLUS, UNANALYZED), env, s, 0) == Done([Prim(OtherLit(0))], s);
    OneAndTwo(env, s);
    AppliesValues([Prim(IntLit(1)), Prim(IntLit(2))], s);
  }

  lemma OneAndTwo(env: seq<Entry>, s: State)
    ensures EvalArgs(Surprises.Example(), ONE_TWO, env, s, 0) == Args([Prim(IntLit(1)), Prim(IntLit(2))], s)
  {
    var m := Surprises.Example();
    assert EvalArgs(m, NoArgs, env, s, 0) == Args([], s);
    assert EvalArgs(m, Arg(Lit(IntLit(2)), NoArgs), env, s, 0) == Args([Prim(IntLit(2))], s);
  }

  lemma AppliesValues(vs: seq<Value>, s: State)
    ensures Apply(Surprises.Example(), Prim(OtherLit(0)), vs, s, 0) == Done(vs, s)
  {
    assert Picked(Surprises.Example().builtin(OtherLit(0), Views(vs), s.world).picks, vs) == vs;
  }

  lemma Adds(s: State)
    ensures Eval(Surprises.Example(), BodyExpr(Let([PLUS], None, Lit(OtherLit(0)), 0, 0, Last(Binary(0, Lit(IntLit(1)), Lit(IntLit(2)))))), [], s, 0)
         == Exit(s.(mem := s.mem + [Prim(OtherLit(0))]))
  {
    hide Eval;
    InsideLet(Surprises.Example(), s, Last(Binary(0, Lit(IntLit(1)), Lit(IntLit(2)))));
    AdditionFails([Entry(PLUS, |s.mem|)], s.(mem := s.mem + [Prim(OtherLit(0))]));
  }

  lemma AdditionFails(env: seq<Entry>, s: State)
    ensures Eval(Surprises.Example(), Binary(0, Lit(IntLit(1)), Lit(IntLit(2))), env, s, 0) == Exit(s)
  {
    hide Views;
    assert Eval(Surprises.Example(), Lit(IntLit(1)), env, s, 0) == Done([Prim(IntLit(1))], s);
    assert Eval(Surprises.Example(), Lit(IntLit(2)), env, s, 0) == Done([Prim(IntLit(2))], s);
  }
}
