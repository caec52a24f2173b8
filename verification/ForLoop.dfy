/**
 What the for expander makes of a loop, and that it means the loop.

 The variables of the loop get their values at the start of every round; the values for the next
 round are worked out after the body, inside the variables that the body binds.
 */
module ForLoops {
  import opened Wrappers
  import opened Programs
  import opened Semantics
  import opened StackDepth

  datatype Constituent = Bind(vars: seq<Id>, restVar: Option<Id>, init: Expr) | Do(expr: Expr)

  // What the clauses of a loop come to: variables for all rounds, variables of a round, tests
  // whether it is the last one, more variables, and how to go on; and the parts written out.
  datatype ForParts = ForParts(
    outer: seq<Constituent>,
    middle: seq<Constituent>,
    tests: Option<Expr>,
    inner: seq<Constituent>,
    until: Option<Expr>,
    body: Option<Body>,
    steps: seq<Constituent>,
    finally: Option<Body>)

  const FALSE_BODY := Last(Lit(FalseLit))

  function Chain(cs: seq<Constituent>, rest: Body): Body {
    if cs == [] then rest
    else
      match cs[0]
      case Bind(vars, restVar, init) => Let(vars, restVar, init, 0, 0, Chain(cs[1..], rest))
      case Do(e) => Then(e, Chain(cs[1..], rest))
  }

  // What is added to a body comes inside its bindings.
  function Append(b: Body, rest: Body): Body {
    match b
    case Last(e) => Then(e, rest)
    case Then(e, b') => Then(e, Append(b', rest))
    case Let(vars, restVar, init, first, offset, b') => Let(vars, restVar, init, first, offset, Append(b', rest))
    case Local(ms, first, offset, b') => Local(ms, first, offset, Append(b', rest))
  }

  function MakeBodyExpr(b: Body): Expr {
    if b.Last? then b.expr else BodyExpr(b)
  }

  function Unless(test: Option<Expr>, b: Body): Expr {
    if test.Some? then If(test.value, FALSE_BODY, b) else MakeBodyExpr(b)
  }

  function StepBody(p: ForParts): Body {
    var steps := Chain(p.steps, Last(Repeat));
    if p.body.Some? then Append(p.body.value, steps) else steps
  }

  function InnerBody(p: ForParts): Body {
    Chain(p.inner, Last(Unless(p.until, StepBody(p))))
  }

  function MiddleBody(p: ForParts): Body {
    var round := Unless(p.tests, InnerBody(p));
    Chain(p.middle, if p.finally.Some? then Then(round, Last(MakeBodyExpr(p.finally.value))) else Last(round))
  }

  function ForExpansion(p: ForParts): Expr {
    MakeBodyExpr(Chain(p.outer, Last(Loop(MiddleBody(p)))))
  }

  /** A loop with one part of each kind: the variables for all rounds around the loop; in the loop
      those of a round, the tests, more variables, the until clause, the body, the steps, and the
      repeat; and what is said to be finally at the end of the loop's body. */
  lemma ForShape(t: Id, x: Id, y: Id, start: Expr, e: Expr, tests: Expr, f: Expr, until: Expr, body: Expr, step: Expr, last: Expr)
    ensures ForExpansion(ForParts([Bind([t], None, start)], [Bind([x], None, e)], Some(tests), [Bind([y], None, f)], Some(until),
                                  Some(Last(body)), [Do(step)], Some(Last(last)))) ==
            BodyExpr(Let([t], None, start, 0, 0, Last(Loop(
              Let([x], None, e, 0, 0,
                Then(If(tests, Last(Lit(FalseLit)),
                        Let([y], None, f, 0, 0, Last(If(until, Last(Lit(FalseLit)), Then(body, Then(step, Last(Repeat))))))),
                     Last(last)))))))
  {
    ChainOne(Do(step), Last(Repeat));
    ChainOne(Bind([y], None, f), Last(If(until, FALSE_BODY, Then(body, Then(step, Last(Repeat))))));
    var p := ForParts([Bind([t], None, start)], [Bind([x], None, e)], Some(tests), [Bind([y], None, f)], Some(until),
                      Some(Last(body)), [Do(step)], Some(Last(last)));
    ChainOne(Bind([x], None, e), Then(Unless(p.tests, InnerBody(p)), Last(last)));
    ChainOne(Bind([t], None, start), Last(Loop(MiddleBody(p))));
  }

  lemma ChainOne(c: Constituent, rest: Body)
    ensures Chain([c], rest) == if c.Bind? then Let(c.vars, c.restVar, c.init, 0, 0, rest) else Then(c.expr, rest)
  {
    assert [c][1..] == [];
  }

  // The parts ask for no round of their own.
  predicate Quiet(cs: seq<Constituent>) {
    forall i :: 0 <= i < |cs| ==> WellLooped(if cs[i].Bind? then cs[i].init else cs[i].expr, false)
  }

  predicate QuietParts(p: ForParts) {
    && Quiet(p.outer) && Quiet(p.middle) && Quiet(p.inner) && Quiet(p.steps)
    && (p.tests.Some? ==> WellLooped(p.tests.value, false)) && (p.until.Some? ==> WellLooped(p.until.value, false))
    && (p.body.Some? ==> WellLoopedBody(p.body.value, false))
    && (p.finally.Some? ==> WellLoopedBody(p.finally.value, false))
  }

  lemma {:induction false} MoreRoom(e: Expr)
    requires WellLooped(e, false)
    ensures WellLooped(e, true)
    decreases e
  {
    match e
    case BodyExpr(b) => MoreRoomBody(b);
    case If(_, a, b) => MoreRoomBody(a); MoreRoomBody(b);
    case _ =>
  }

  lemma {:induction false} MoreRoomBody(b: Body)
    requires WellLoopedBody(b, false)
    ensures WellLoopedBody(b, true)
    decreases b
  {
    match b
    case Last(e) => MoreRoom(e);
    case Then(e, rest) => MoreRoom(e); MoreRoomBody(rest);
    case Let(_, _, _, _, _, b') => MoreRoomBody(b');
    case Local(_, _, _, b') => MoreRoomBody(b');
  }

  lemma {:induction false} ChainLooped(cs: seq<Constituent>, rest: Body, tail: bool)
    requires Quiet(cs) && WellLoopedBody(rest, tail)
    ensures WellLoopedBody(Chain(cs, rest), tail)
  {
    if cs != [] {
      assert Quiet(cs[1..]);
      ChainLooped(cs[1..], rest, tail);
      if cs[0].Do? { MoreRoom(cs[0].expr); }
    }
  }

  lemma {:induction false} AppendLooped(b: Body, rest: Body)
    requires WellLoopedBody(b, false) && WellLoopedBody(rest, true)
    ensures WellLoopedBody(Append(b, rest), true)
    decreases b
  {
    match b
    case Last(e) => MoreRoom(e);
    case Then(e, b') => MoreRoom(e); AppendLooped(b', rest);
    case Let(_, _, _, _, _, b') => AppendLooped(b', rest);
    case Local(_, _, _, b') => AppendLooped(b', rest);
  }

  /** Every loop that the expander makes repeats where its round has nothing on the stack. */
  lemma ForWellLooped(p: ForParts, tail: bool)
    requires QuietParts(p)
    ensures WellLooped(ForExpansion(p), tail)
  {
    hide Quiet;
    ChainLooped(p.steps, Last(Repeat), true);
    if p.body.Some? { AppendLooped(p.body.value, Chain(p.steps, Last(Repeat))); }
    ChainLooped(p.inner, Last(Unless(p.until, StepBody(p))), true);
    var round := Unless(p.tests, InnerBody(p));
    if p.finally.Some? { MoreRoomBody(p.finally.value); }
    ChainLooped(p.middle, if p.finally.Some? then Then(round, Last(MakeBodyExpr(p.finally.value))) else Last(round), true);
    ChainLooped(p.outer, Last(Loop(MiddleBody(p))), tail);
  }

  // What a loop means.

  // Constituents, and what follows them.
  datatype Chained = Into(env: seq<Entry>, state: State) | Halted(outcome: Outcome)

  function EvalChain(m: Meaning, cs: seq<Constituent>, env: seq<Entry>, s: State, fuel: nat): Chained {
    if cs == [] then Into(env, s)
    else
      match cs[0]
      case Bind(vars, restVar, init) =>
        (match Eval(m, init, env, s, fuel)
         case Done(vs, s1) =>
           EvalChain(m, cs[1..], EntriesDown(LetVars(vars, restVar), |s1.mem|) + env,
                     s1.(mem := s1.mem + Wanted(vs, |vars|, restVar.Some?)), fuel)
         case o => Halted(NoLoop(o)))
      case Do(e) =>
        (match Eval(m, e, env, s, fuel)
         case Done(_, s1) => EvalChain(m, cs[1..], env, s1, fuel)
         case o => Halted(o))
  }

  function EvalInto(m: Meaning, b: Body, env: seq<Entry>, s: State, fuel: nat): Chained
    decreases b
  {
    match b
    case Last(e) =>
      (match Eval(m, e, env, s, fuel)
       case Done(_, s1) => Into(env, s1)
       case o => Halted(o))
    case Then(e, rest) =>
      (match Eval(m, e, env, s, fuel)
       case Done(_, s1) => EvalInto(m, rest, env, s1, fuel)
       case o => Halted(o))
    case Let(vars, restVar, init, _, _, rest) =>
      (match Eval(m, init, env, s, fuel)
       case Done(vs, s1) =>
         EvalInto(m, rest, EntriesDown(LetVars(vars, restVar), |s1.mem|) + env,
                  s1.(mem := s1.mem + Wanted(vs, |vars|, restVar.Some?)), fuel)
       case o => Halted(NoLoop(o)))
    case Local(ms, _, _, rest) =>
      var env' := EntriesUp(Names(ms), |s.mem|) + env;
      match EvalMethods(m, ms, |s.mem|, env', s.(mem := s.mem + seq(|Names(ms)|, _ => Unset)), fuel)
      case Done(_, s1) => EvalInto(m, rest, env', s1, fuel)
      case o => Halted(o)
  }

  // A round is the last one, or there is another, or something stops the loop.
  datatype Round = Ended(state: State) | Another(state: State) | Stops(outcome: Outcome)

  // A test that is true makes it the last one.
  function EvalTest(m: Meaning, test: Option<Expr>, env: seq<Entry>, s: State, fuel: nat): Round {
    if test.None? then Another(s)
    else
      match Eval(m, test.value, env, s, fuel)
      case Done(vs, s1) => if First(vs) != FALSE then Ended(s1) else Another(s1)
      case o => Stops(NoLoop(o))
  }

  // The body, and the values for the next round.
  function EvalSteps(m: Meaning, p: ForParts, env: seq<Entry>, s: State, fuel: nat): Round {
    var c := if p.body.Some? then EvalInto(m, p.body.value, env, s, fuel) else Into(env, s);
    if c.Halted? then Stops(c.outcome)
    else
      match EvalChain(m, p.steps, c.env, c.state, fuel)
      case Halted(o) => Stops(o)
      case Into(_, s1) => Another(s1)
  }

  function EvalRound(m: Meaning, p: ForParts, env: seq<Entry>, s: State, fuel: nat): Round {
    var r := EvalTest(m, p.tests, env, s, fuel);
    if !r.Another? then r
    else
      match EvalChain(m, p.inner, env, r.state, fuel)
      case Halted(o) => Stops(o)
      case Into(env1, s1) =>
        var r1 := EvalTest(m, p.until, env1, s1, fuel);
        if r1.Another? then EvalSteps(m, p, env1, r1.state, fuel) else r1
  }

  // After the last round, what is said to be finally.
  function EvalFor(m: Meaning, p: ForParts, env: seq<Entry>, s: State, fuel: nat): Outcome
    decreases fuel
  {
    match EvalChain(m, p.middle, env, s, fuel)
    case Halted(o) => o
    case Into(env1, s1) =>
      match EvalRound(m, p, env1, s1, fuel)
      case Stops(o) => o
      case Ended(s2) => if p.finally.Some? then EvalBody(m, p.finally.value, env1, s2, fuel) else Done([FALSE], s2)
      case Another(s2) => if fuel == 0 then Timeout else EvalFor(m, p, env, s2, fuel - 1)
  }

  function Followed(m: Meaning, c: Chained, rest: Body, fuel: nat): Outcome {
    match c
    case Into(env, s) => EvalBody(m, rest, env, s, fuel)
    case Halted(o) => o
  }

  lemma {:induction false} ChainMeans(m: Meaning, cs: seq<Constituent>, rest: Body, env: seq<Entry>, s: State, fuel: nat)
    ensures EvalBody(m, Chain(cs, rest), env, s, fuel) == Followed(m, EvalChain(m, cs, env, s, fuel), rest, fuel)
    decreases |cs|
  {
    hide Eval;
    if cs != [] {
      var o := Eval(m, if cs[0].Bind? then cs[0].init else cs[0].expr, env, s, fuel);
      if o.Done? {
        var env', s' := AfterOne(cs[0], o, env);
        ChainMeans(m, cs[1..], rest, env', s', fuel);
      }
    }
  }

  // Where the next constituent starts.
  lemma AfterOne(c: Constituent, o: Outcome, env: seq<Entry>) returns (env': seq<Entry>, s': State)
    requires o.Done?
    ensures c.Do? ==> env' == env && s' == o.state
    ensures c.Bind? ==>
              && env' == EntriesDown(LetVars(c.vars, c.restVar), |o.state.mem|) + env
              && s' == o.state.(mem := o.state.mem + Wanted(o.values, |c.vars|, c.restVar.Some?))
  {
    env', s' := env, o.state;
    if c.Bind? {
      env' := EntriesDown(LetVars(c.vars, c.restVar), |o.state.mem|) + env;
      s' := o.state.(mem := o.state.mem + Wanted(o.values, |c.vars|, c.restVar.Some?));
    }
  }

  lemma {:induction false} AppendMeans(m: Meaning, b: Body, rest: Body, env: seq<Entry>, s: State, fuel: nat)
    ensures EvalBody(m, Append(b, rest), env, s, fuel) == Followed(m, EvalInto(m, b, env, s, fuel), rest, fuel)
    decreases b
  {
    hide Eval, EvalMethods;
    match b
    case Last(_) =>
    case Then(e, b') =>
      var o := Eval(m, e, env, s, fuel);
      if o.Done? { AppendMeans(m, b', rest, env, o.state, fuel); }
    case Let(vars, restVar, init, _, _, b') =>
      var o := Eval(m, init, env, s, fuel);
      if o.Done? {
        AppendMeans(m, b', rest, EntriesDown(LetVars(vars, restVar), |o.state.mem|) + env,
                    o.state.(mem := o.state.mem + Wanted(o.values, |vars|, restVar.Some?)), fuel);
      }
    case Local(ms, _, _, b') =>
      var env' := EntriesUp(Names(ms), |s.mem|) + env;
      var o := EvalMethods(m, ms, |s.mem|, env', s.(mem := s.mem + seq(|Names(ms)|, _ => Unset)), fuel);
      if o.Done? { AppendMeans(m, b', rest, env', o.state, fuel); }
  }

  lemma MakeBodyMeans(m: Meaning, b: Body, env: seq<Entry>, s: State, fuel: nat)
    ensures Eval(m, MakeBodyExpr(b), env, s, fuel) == EvalBody(m, b, env, s, fuel)
  {
  }

  // What a round comes to as an outcome.
  function Asked(r: Round): Outcome {
    match r
    case Ended(s) => Done([FALSE], s)
    case Another(s) => Again(s)
    case Stops(o) => o
  }

  lemma UnlessMeans(m: Meaning, test: Option<Expr>, b: Body, env: seq<Entry>, s: State, fuel: nat)
    ensures var r := EvalTest(m, test, env, s, fuel);
            Eval(m, Unless(test, b), env, s, fuel) == if r.Another? then EvalBody(m, b, env, r.state, fuel) else Asked(r)
  {
    MakeBodyMeans(m, b, env, s, fuel);
    if test.Some? {
      var o := Eval(m, test.value, env, s, fuel);
      if o.Done? {
        assert EvalBody(m, FALSE_BODY, env, o.state, fuel) == Done([FALSE], o.state);
      }
    }
  }

  lemma StepsMean(m: Meaning, p: ForParts, env: seq<Entry>, s: State, fuel: nat)
    ensures EvalBody(m, StepBody(p), env, s, fuel) == Asked(EvalSteps(m, p, env, s, fuel))
  {
    hide Chain, Append, EvalChain, EvalInto;
    var steps := Chain(p.steps, Last(Repeat));
    var c := if p.body.Some? then EvalInto(m, p.body.value, env, s, fuel) else Into(env, s);
    if p.body.Some? { AppendMeans(m, p.body.value, steps, env, s, fuel); }
    if c.Into? {
      ChainMeans(m, p.steps, Last(Repeat), c.env, c.state, fuel);
      var c2 := EvalChain(m, p.steps, c.env, c.state, fuel);
      if c2.Into? { assert EvalBody(m, Last(Repeat), c2.env, c2.state, fuel) == Again(c2.state); }
    }
  }

  lemma RoundMeans(m: Meaning, p: ForParts, env: seq<Entry>, s: State, fuel: nat)
    ensures Eval(m, Unless(p.tests, InnerBody(p)), env, s, fuel) == Asked(EvalRound(m, p, env, s, fuel))
  {
    hide Chain, EvalChain, EvalTest, Unless, StepBody, EvalSteps;
    UnlessMeans(m, p.tests, InnerBody(p), env, s, fuel);
    var r := EvalTest(m, p.tests, env, s, fuel);
    if r.Another? {
      var e := Unless(p.until, StepBody(p));
      ChainMeans(m, p.inner, Last(e), env, r.state, fuel);
      var c := EvalChain(m, p.inner, env, r.state, fuel);
      if c.Into? {
        assert EvalBody(m, Last(e), c.env, c.state, fuel) == Eval(m, e, c.env, c.state, fuel);
        UnlessMeans(m, p.until, StepBody(p), c.env, c.state, fuel);
        var r2 := EvalTest(m, p.until, c.env, c.state, fuel);
        if r2.Another? { StepsMean(m, p, c.env, r2.state, fuel); }
      }
    }
  }

  // Parts that ask for no round come to none.

  lemma {:induction false} NeverAgain(m: Meaning, e: Expr, env: seq<Entry>, s: State, fuel: nat)
    requires WellLooped(e, false)
    ensures !Eval(m, e, env, s, fuel).Again?
    decreases fuel, e
  {
    match e
    case BodyExpr(b) => NeverAgainBody(m, b, env, s, fuel);
    case If(c, a, b) =>
      var o := Eval(m, c, env, s, fuel);
      if o.Done? {
        if First(o.values) != FALSE { NeverAgainBody(m, a, env, o.state, fuel); } else { NeverAgainBody(m, b, env, o.state, fuel); }
      }
    case Loop(b) =>
      var o := EvalBody(m, b, env, s, fuel);
      if o.Again? && fuel > 0 { NeverAgain(m, e, env, o.state, fuel - 1); }
    case Call(f, args) =>
      var o := Eval(m, f, env, s, fuel);
      if o.Done? {
        ArgsNeverAgain(m, args, env, o.state, fuel);
        var oa := EvalArgs(m, args, env, o.state, fuel);
        if oa.Args? { CallNeverAgain(m, First(o.values), oa.values, oa.state, fuel); }
      }
    case Dot(a, f) =>
      var o := Eval(m, a, env, s, fuel);
      if o.Done? {
        var o2 := Eval(m, f, env, o.state, fuel);
        if o2.Done? { CallNeverAgain(m, First(o2.values), [First(o.values)], o2.state, fuel); }
      }
    case Values(_, args) => ArgsNeverAgain(m, args, env, s, fuel);
    case _ =>
  }

  lemma CallNeverAgain(m: Meaning, f: Value, args: seq<Value>, s: State, fuel: nat)
    ensures !Apply(m, f, args, s, fuel).Again?
  {
    hide EvalBody;
  }

  lemma {:induction false} ArgsNeverAgain(m: Meaning, args: Exprs, env: seq<Entry>, s: State, fuel: nat)
    ensures var o := EvalArgs(m, args, env, s, fuel); o.Stop? ==> !o.outcome.Again?
    decreases args
  {
    hide Eval;
    if args.Arg? {
      var o := Eval(m, args.expr, env, s, fuel);
      if o.Done? { ArgsNeverAgain(m, args.rest, env, o.state, fuel); }
    }
  }

  lemma {:induction false} NeverAgainBody(m: Meaning, b: Body, env: seq<Entry>, s: State, fuel: nat)
    requires WellLoopedBody(b, false)
    ensures !EvalBody(m, b, env, s, fuel).Again?
    decreases fuel, b
  {
    hide Eval, EvalMethods;
    match b
    case Last(e) => NeverAgain(m, e, env, s, fuel);
    case Then(e, rest) =>
      NeverAgain(m, e, env, s, fuel);
      var o := Eval(m, e, env, s, fuel);
      if o.Done? { NeverAgainBody(m, rest, env, o.state, fuel); }
    case Let(vars, restVar, init, _, _, rest) =>
      var o := Eval(m, init, env, s, fuel);
      if o.Done? {
        NeverAgainBody(m, rest, EntriesDown(LetVars(vars, restVar), |o.state.mem|) + env,
                       o.state.(mem := o.state.mem + Wanted(o.values, |vars|, restVar.Some?)), fuel);
      }
    case Local(ms, _, _, rest) =>
      var env' := EntriesUp(Names(ms), |s.mem|) + env;
      var s1 := s.(mem := s.mem + seq(|Names(ms)|, _ => Unset));
      MethodsNeverAgain(m, ms, |s.mem|, env', s1, fuel);
      var o := EvalMethods(m, ms, |s.mem|, env', s1, fuel);
      if o.Done? { NeverAgainBody(m, rest, env', o.state, fuel); }
  }

  lemma {:induction false} MethodsNeverAgain(m: Meaning, ms: Methods, loc: nat, env: seq<Entry>, s: State, fuel: nat)
    ensures !EvalMethods(m, ms, loc, env, s, fuel).Again?
    decreases ms
  {
    hide Eval;
    if ms.AMethod? {
      var o := EvalMethod(m, ms.method_, env, s, fuel);
      if o.Done? { MethodsNeverAgain(m, ms.rest, loc + 1, env, Store(o.state, loc, First(o.values)), fuel); }
    }
  }

  lemma {:induction false} ChainQuiet(m: Meaning, cs: seq<Constituent>, env: seq<Entry>, s: State, fuel: nat)
    requires Quiet(cs)
    ensures var c := EvalChain(m, cs, env, s, fuel); c.Halted? ==> !c.outcome.Again? && !c.outcome.Done?
    decreases |cs|
  {
    hide Eval, WellLooped;
    if cs != [] {
      var e := if cs[0].Bind? then cs[0].init else cs[0].expr;
      NeverAgain(m, e, env, s, fuel);
      var o := Eval(m, e, env, s, fuel);
      if o.Done? {
        var env', s' := AfterOne(cs[0], o, env);
        assert Quiet(cs[1..]);
        ChainQuiet(m, cs[1..], env', s', fuel);
      }
    }
  }

  lemma {:induction false} IntoQuiet(m: Meaning, b: Body, env: seq<Entry>, s: State, fuel: nat)
    requires WellLoopedBody(b, false)
    ensures var c := EvalInto(m, b, env, s, fuel); c.Halted? ==> !c.outcome.Again? && !c.outcome.Done?
    decreases b
  {
    hide Eval, EvalMethods, WellLooped;
    match b
    case Last(e) => NeverAgain(m, e, env, s, fuel);
    case Then(e, rest) =>
      NeverAgain(m, e, env, s, fuel);
      var o := Eval(m, e, env, s, fuel);
      if o.Done? { IntoQuiet(m, rest, env, o.state, fuel); }
    case Let(vars, restVar, init, _, _, rest) =>
      var o := Eval(m, init, env, s, fuel);
      if o.Done? {
        IntoQuiet(m, rest, EntriesDown(LetVars(vars, restVar), |o.state.mem|) + env,
                  o.state.(mem := o.state.mem + Wanted(o.values, |vars|, restVar.Some?)), fuel);
      }
    case Local(ms, _, _, rest) =>
      var env' := EntriesUp(Names(ms), |s.mem|) + env;
      var s1 := s.(mem := s.mem + seq(|Names(ms)|, _ => Unset));
      MethodsNeverAgain(m, ms, |s.mem|, env', s1, fuel);
      var o := EvalMethods(m, ms, |s.mem|, env', s1, fuel);
      if o.Done? { IntoQuiet(m, rest, env', o.state, fuel); }
  }

  lemma RoundQuiet(m: Meaning, p: ForParts, env: seq<Entry>, s: State, fuel: nat)
    requires QuietParts(p)
    ensures var r := EvalRound(m, p, env, s, fuel); r.Stops? ==> !r.outcome.Again? && !r.outcome.Done?
  {
    hide Eval, WellLooped, Quiet, EvalChain, EvalInto;
    var r := EvalTest(m, p.tests, env, s, fuel);
    if r.Another? {
      ChainQuiet(m, p.inner, env, r.state, fuel);
      var c := EvalChain(m, p.inner, env, r.state, fuel);
      if c.Into? {
        var r2 := EvalTest(m, p.until, c.env, c.state, fuel);
        if r2.Another? {
          if p.body.Some? { IntoQuiet(m, p.body.value, c.env, r2.state, fuel); }
          var c2 := if p.body.Some? then EvalInto(m, p.body.value, c.env, r2.state, fuel) else Into(c.env, r2.state);
          if c2.Into? { ChainQuiet(m, p.steps, c2.env, c2.state, fuel); }
        }
      }
    }
  }

  // One time through the loop that the expander makes.
  function MiddleRound(m: Meaning, p: ForParts, env: seq<Entry>, s: State, fuel: nat): Outcome {
    match EvalChain(m, p.middle, env, s, fuel)
    case Halted(o) => o
    case Into(env1, s1) =>
      match EvalRound(m, p, env1, s1, fuel)
      case Stops(o) => o
      case Ended(s2) => if p.finally.Some? then EvalBody(m, p.finally.value, env1, s2, fuel) else Done([FALSE], s2)
      case Another(s2) => Again(s2)
  }

  lemma MiddleMeans(m: Meaning, p: ForParts, env: seq<Entry>, s: State, fuel: nat)
    requires QuietParts(p)
    ensures EvalBody(m, MiddleBody(p), env, s, fuel) == MiddleRound(m, p, env, s, fuel)
  {
    hide Eval, WellLooped, Quiet, EvalChain, Chain, EvalRound, Unless, InnerBody;
    var round := Unless(p.tests, InnerBody(p));
    var last := if p.finally.Some? then Then(round, Last(MakeBodyExpr(p.finally.value))) else Last(round);
    ChainMeans(m, p.middle, last, env, s, fuel);
    var c := EvalChain(m, p.middle, env, s, fuel);
    if c.Into? {
      RoundMeans(m, p, c.env, c.state, fuel);
      RoundQuiet(m, p, c.env, c.state, fuel);
      var r := EvalRound(m, p, c.env, c.state, fuel);
      if p.finally.Some? {
        if r.Ended? {
          MakeBodyMeans(m, p.finally.value, c.env, r.state, fuel);
          assert EvalBody(m, Last(MakeBodyExpr(p.finally.value)), c.env, r.state, fuel)
              == Eval(m, MakeBodyExpr(p.finally.value), c.env, r.state, fuel);
        }
      }
      assert EvalBody(m, Last(round), c.env, c.state, fuel) == Eval(m, round, c.env, c.state, fuel);
    }
  }

  /** The loop that the expander makes does what a for loop is to do, round by round. */
  lemma {:induction false} LoopMeans(m: Meaning, p: ForParts, env: seq<Entry>, s: State, fuel: nat)
    requires QuietParts(p)
    ensures Eval(m, Loop(MiddleBody(p)), env, s, fuel) == EvalFor(m, p, env, s, fuel)
    decreases fuel
  {
    hide EvalBody, QuietParts, EvalChain, EvalRound, MiddleBody;
    MiddleMeans(m, p, env, s, fuel);
    var o := MiddleRound(m, p, env, s, fuel);
    if o.Again? {
      MiddleQuiet(m, p, env, s, fuel);
      if fuel > 0 { LoopMeans(m, p, env, o.state, fuel - 1); }
    }
  }

  // Another round is asked for only by the loop itself.
  lemma MiddleQuiet(m: Meaning, p: ForParts, env: seq<Entry>, s: State, fuel: nat)
    requires QuietParts(p) && MiddleRound(m, p, env, s, fuel).Again?
    ensures var c := EvalChain(m, p.middle, env, s, fuel);
            c.Into? && EvalRound(m, p, c.env, c.state, fuel).Another?
  {
    hide Eval, WellLooped, Quiet, EvalChain, EvalRound;
    ChainQuiet(m, p.middle, env, s, fuel);
    var c := EvalChain(m, p.middle, env, s, fuel);
    if c.Into? {
      RoundQuiet(m, p, c.env, c.state, fuel);
      var r := EvalRound(m, p, c.env, c.state, fuel);
      if r.Ended? && p.finally.Some? { NeverAgainBody(m, p.finally.value, c.env, r.state, fuel); }
    }
  }

  /** A for loop and what it is expanded to mean the same. */
  lemma ForMeans(m: Meaning, p: ForParts, env: seq<Entry>, s: State, fuel: nat)
    requires QuietParts(p)
    ensures var c := EvalChain(m, p.outer, env, s, fuel);
            Eval(m, ForExpansion(p), env, s, fuel) ==
            if c.Into? then EvalFor(m, p, c.env, c.state, fuel) else c.outcome
  {
    hide Eval, QuietParts, EvalChain, Chain, MiddleBody, EvalFor;
    var loop := Last(Loop(MiddleBody(p)));
    MakeBodyMeans(m, Chain(p.outer, loop), env, s, fuel);
    ChainMeans(m, p.outer, loop, env, s, fuel);
    var c := EvalChain(m, p.outer, env, s, fuel);
    if c.Into? {
      LoopMeans(m, p, c.env, c.state, fuel);
      assert EvalBody(m, loop, c.env, c.state, fuel) == Eval(m, Loop(MiddleBody(p)), c.env, c.state, fuel);
    }
  }
}
