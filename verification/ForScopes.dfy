/**
 What the body of a for loop binds, and the values for the next round.

 The expander works these out after the body and inside its bindings, not inside those of the
 loop only. It makes no difference as long as they mention nothing that the body binds.
 */
module ForScopes {
  import opened Wrappers
  import opened Programs
  import opened Semantics
  import opened ForLoops
  import Surprises

  // A round whose steps are outside the body.
  function StepsApart(m: Meaning, p: ForParts, env: seq<Entry>, s: State, fuel: nat): Round {
    var c := if p.body.Some? then EvalInto(m, p.body.value, env, s, fuel) else Into(env, s);
    if c.Halted? then Stops(c.outcome)
    else
      match EvalChain(m, p.steps, env, c.state, fuel)
      case Halted(o) => Stops(o)
      case Into(_, s1) => Another(s1)
  }

  function RoundApart(m: Meaning, p: ForParts, env: seq<Entry>, s: State, fuel: nat): Round {
    var r := EvalTest(m, p.tests, env, s, fuel);
    if !r.Another? then r
    else
      match EvalChain(m, p.inner, env, r.state, fuel)
      case Halted(o) => Stops(o)
      case Into(env1, s1) =>
        var r1 := EvalTest(m, p.until, env1, s1, fuel);
        if r1.Another? then StepsApart(m, p, env1, r1.state, fuel) else r1
  }

  function ForApart(m: Meaning, p: ForParts, env: seq<Entry>, s: State, fuel: nat): Outcome
    decreases fuel
  {
    match EvalChain(m, p.middle, env, s, fuel)
    case Halted(o) => o
    case Into(env1, s1) =>
      match RoundApart(m, p, env1, s1, fuel)
      case Stops(o) => o
      case Ended(s2) => if p.finally.Some? then EvalBody(m, p.finally.value, env1, s2, fuel) else Done([FALSE], s2)
      case Another(s2) => if fuel == 0 then Timeout else ForApart(m, p, env, s2, fuel - 1)
  }

  // What a body binds for what comes after it.
  function TopNames(b: Body): set<Id> {
    match b
    case Last(_) => {}
    case Then(_, rest) => TopNames(rest)
    case Let(vars, restVar, _, _, _, body) => (set id | id in LetVars(vars, restVar)) + TopNames(body)
    case Local(ms, _, _, body) => (set id | id in Names(ms)) + TopNames(body)
  }

  // An expression mentions none of the names, and makes no method that would keep them.
  predicate Apart(e: Expr, names: set<Id>)
    decreases e
  {
    match e
    case Var(id, _) => id !in names
    case Lit(_) => true
    case Call(f, args) => Apart(f, names) && ArgsApart(args, names)
    case Binary(_, l, r) => Apart(l, names) && Apart(r, names)
    case Values(f, args) => Apart(f, names) && ArgsApart(args, names)
    case Dot(a, f) => Apart(a, names) && Apart(f, names)
    case MethodRef(_) => false
    case BodyExpr(b) => BodyApart(b, names)
    case If(c, a, b) => Apart(c, names) && BodyApart(a, names) && BodyApart(b, names)
    case Set(id, _, v) => id !in names && Apart(v, names)
    case Loop(b) => BodyApart(b, names)
    case Repeat => true
  }

  predicate ArgsApart(args: Exprs, names: set<Id>)
    decreases args
  {
    args.Arg? ==> Apart(args.expr, names) && ArgsApart(args.rest, names)
  }

  predicate BodyApart(b: Body, names: set<Id>)
    decreases b
  {
    match b
    case Last(e) => Apart(e, names)
    case Then(e, rest) => Apart(e, names) && BodyApart(rest, names)
    case Let(_, _, init, _, _, body) => Apart(init, names) && BodyApart(body, names)
    case Local(_, _, _, _) => false
  }

  predicate ChainApart(cs: seq<Constituent>, names: set<Id>) {
    forall i :: 0 <= i < |cs| ==> Apart(if cs[i].Bind? then cs[i].init else cs[i].expr, names)
  }

  // Environments that find the same for all other names.
  ghost predicate AgreeBut(env: seq<Entry>, env': seq<Entry>, names: set<Id>) {
    forall id :: id !in names ==> Lookup(env, id) == Lookup(env', id)
  }

  lemma {:induction false} LookupConcat(a: seq<Entry>, b: seq<Entry>, id: Id)
    ensures Lookup(a + b, id) == if Lookup(a, id).Some? then Lookup(a, id) else Lookup(b, id)
  {
    if a == [] {
      assert a + b == b;
    } else {
      assert (a + b)[1..] == a[1..] + b;
      LookupConcat(a[1..], b, id);
    }
  }

  lemma AgreeMore(a: seq<Entry>, env: seq<Entry>, env': seq<Entry>, names: set<Id>)
    requires AgreeBut(env, env', names)
    ensures AgreeBut(a + env, a + env', names)
  {
    forall id | id !in names ensures Lookup(a + env, id) == Lookup(a + env', id) {
      LookupConcat(a, env, id);
      LookupConcat(a, env', id);
    }
  }

  // An expression does not see what it does not mention.

  lemma {:induction false} Unseen(m: Meaning, e: Expr, env: seq<Entry>, env': seq<Entry>, names: set<Id>, s: State, fuel: nat)
    requires Apart(e, names) && AgreeBut(env, env', names)
    ensures Eval(m, e, env, s, fuel) == Eval(m, e, env', s, fuel)
    decreases fuel, e
  {
    hide Apply, Lookup;
    match e
    case Var(_, _) =>
    case Lit(_) =>
    case Call(f, args) =>
      Unseen(m, f, env, env', names, s, fuel);
      var o := Eval(m, f, env, s, fuel);
      if o.Done? { ArgsUnseen(m, args, env, env', names, o.state, fuel); }
    case Binary(_, l, r) =>
      Unseen(m, l, env, env', names, s, fuel);
      var o := Eval(m, l, env, s, fuel);
      if o.Done? { Unseen(m, r, env, env', names, o.state, fuel); }
    case Values(f, args) => ArgsUnseen(m, args, env, env', names, s, fuel);
    case Dot(a, f) =>
      Unseen(m, a, env, env', names, s, fuel);
      var o := Eval(m, a, env, s, fuel);
      if o.Done? { Unseen(m, f, env, env', names, o.state, fuel); }
    case BodyExpr(b) => BodyUnseen(m, b, env, env', names, s, fuel);
    case If(c, a, b) =>
      Unseen(m, c, env, env', names, s, fuel);
      var o := Eval(m, c, env, s, fuel);
      if o.Done? {
        BodyUnseen(m, a, env, env', names, o.state, fuel);
        BodyUnseen(m, b, env, env', names, o.state, fuel);
      }
    case Set(_, _, v) => Unseen(m, v, env, env', names, s, fuel);
    case Loop(b) =>
      BodyUnseen(m, b, env, env', names, s, fuel);
      var o := EvalBody(m, b, env, s, fuel);
      if o.Again? && fuel > 0 { Unseen(m, e, env, env', names, o.state, fuel - 1); }
    case Repeat =>
  }

  lemma {:induction false} ArgsUnseen(m: Meaning, args: Exprs, env: seq<Entry>, env': seq<Entry>, names: set<Id>, s: State, fuel: nat)
    requires ArgsApart(args, names) && AgreeBut(env, env', names)
    ensures EvalArgs(m, args, env, s, fuel) == EvalArgs(m, args, env', s, fuel)
    decreases fuel, args
  {
    hide Eval, Lookup;
    if args.Arg? {
      Unseen(m, args.expr, env, env', names, s, fuel);
      var o := Eval(m, args.expr, env, s, fuel);
      if o.Done? { ArgsUnseen(m, args.rest, env, env', names, o.state, fuel); }
    }
  }

  lemma {:induction false} BodyUnseen(m: Meaning, b: Body, env: seq<Entry>, env': seq<Entry>, names: set<Id>, s: State, fuel: nat)
    requires BodyApart(b, names) && AgreeBut(env, env', names)
    ensures EvalBody(m, b, env, s, fuel) == EvalBody(m, b, env', s, fuel)
    decreases fuel, b
  {
    hide Eval, Lookup, AgreeBut;
    match b
    case Last(e) => Unseen(m, e, env, env', names, s, fuel);
    case Then(e, rest) =>
      Unseen(m, e, env, env', names, s, fuel);
      var o := Eval(m, e, env, s, fuel);
      if o.Done? { BodyUnseen(m, rest, env, env', names, o.state, fuel); }
    case Let(vars, restVar, init, _, _, body) =>
      Unseen(m, init, env, env', names, s, fuel);
      var o := Eval(m, init, env, s, fuel);
      if o.Done? {
        var new_ := EntriesDown(LetVars(vars, restVar), |o.state.mem|);
        AgreeMore(new_, env, env', names);
        BodyUnseen(m, body, new_ + env, new_ + env', names, o.state.(mem := o.state.mem + Wanted(o.values, |vars|, restVar.Some?)), fuel);
      }
  }

  // The same steps in two environments come to the same.
  predicate SameSteps(c: Chained, c': Chained) {
    if c.Into? then c'.Into? && c'.state == c.state else c' == c
  }

  lemma {:induction false} ChainUnseen(m: Meaning, cs: seq<Constituent>, env: seq<Entry>, env': seq<Entry>, names: set<Id>, s: State, fuel: nat)
    requires ChainApart(cs, names) && AgreeBut(env, env', names)
    ensures SameSteps(EvalChain(m, cs, env, s, fuel), EvalChain(m, cs, env', s, fuel))
    decreases |cs|
  {
    hide Eval, Lookup, AgreeBut, Apart;
    if cs != [] {
      var e := if cs[0].Bind? then cs[0].init else cs[0].expr;
      Unseen(m, e, env, env', names, s, fuel);
      var o := Eval(m, e, env, s, fuel);
      if o.Done? {
        var env1, s1 := AfterOne(cs[0], o, env);
        var env2, s2 := AfterOne(cs[0], o, env');
        assert ChainApart(cs[1..], names);
        if cs[0].Bind? { AgreeMore(EntriesDown(LetVars(cs[0].vars, cs[0].restVar), |o.state.mem|), env, env', names); }
        ChainUnseen(m, cs[1..], env1, env2, names, s1, fuel);
      }
    }
  }

  // After a body, all names that it does not bind are found as before.
  lemma {:induction false} IntoAgrees(m: Meaning, b: Body, env: seq<Entry>, s: State, fuel: nat)
    ensures var c := EvalInto(m, b, env, s, fuel); c.Into? ==> AgreeBut(c.env, env, TopNames(b))
    decreases b
  {
    hide Eval, EvalMethods, Lookup;
    match b
    case Last(_) =>
    case Then(e, rest) =>
      var o := Eval(m, e, env, s, fuel);
      if o.Done? { IntoAgrees(m, rest, env, o.state, fuel); }
    case Let(vars, restVar, init, _, _, rest) =>
      var o := Eval(m, init, env, s, fuel);
      if o.Done? {
        var ids := LetVars(vars, restVar);
        IntoAgrees(m, rest, EntriesDown(ids, |o.state.mem|) + env, o.state.(mem := o.state.mem + Wanted(o.values, |vars|, restVar.Some?)), fuel);
        NewNames(EntriesDown(ids, |o.state.mem|), env, set id | id in ids);
      }
    case Local(ms, _, _, rest) =>
      var env' := EntriesUp(Names(ms), |s.mem|) + env;
      var o := EvalMethods(m, ms, |s.mem|, env', s.(mem := s.mem + seq(|Names(ms)|, _ => Unset)), fuel);
      if o.Done? {
        IntoAgrees(m, rest, env', o.state, fuel);
        NewNames(EntriesUp(Names(ms), |s.mem|), env, set id | id in Names(ms));
      }
  }

  lemma NewNames(a: seq<Entry>, env: seq<Entry>, names: set<Id>)
    requires forall i :: 0 <= i < |a| ==> a[i].id in names
    ensures AgreeBut(a + env, env, names)
  {
    forall id | id !in names ensures Lookup(a + env, id) == Lookup(env, id) {
      LookupConcat(a, env, id);
      NotFound(a, id);
    }
  }

  lemma {:induction false} NotFound(a: seq<Entry>, id: Id)
    requires forall i :: 0 <= i < |a| ==> a[i].id != id
    ensures Lookup(a, id).None?
  {
    if a != [] { NotFound(a[1..], id); }
  }

  lemma StepsAlike(m: Meaning, p: ForParts, env: seq<Entry>, s: State, fuel: nat)
    requires p.body.Some? ==> ChainApart(p.steps, TopNames(p.body.value))
    ensures StepsApart(m, p, env, s, fuel) == EvalSteps(m, p, env, s, fuel)
  {
    hide EvalInto, EvalChain, AgreeBut, ChainApart;
    if p.body.Some? {
      var c := EvalInto(m, p.body.value, env, s, fuel);
      IntoAgrees(m, p.body.value, env, s, fuel);
      if c.Into? { ChainUnseen(m, p.steps, c.env, env, TopNames(p.body.value), c.state, fuel); }
    }
  }

  /** If the values for the next round mention nothing that the body binds, they could as well be
      worked out outside the body. */
  lemma {:induction false} ScopesAlike(m: Meaning, p: ForParts, env: seq<Entry>, s: State, fuel: nat)
    requires p.body.Some? ==> ChainApart(p.steps, TopNames(p.body.value))
    ensures ForApart(m, p, env, s, fuel) == EvalFor(m, p, env, s, fuel)
    decreases fuel
  {
    hide EvalInto, EvalChain, EvalSteps, StepsApart, EvalTest, ChainApart, EvalBody;
    var c := EvalChain(m, p.middle, env, s, fuel);
    if c.Into? {
      var r := EvalTest(m, p.tests, c.env, c.state, fuel);
      if r.Another? {
        var c1 := EvalChain(m, p.inner, c.env, r.state, fuel);
        if c1.Into? {
          var r1 := EvalTest(m, p.until, c1.env, c1.state, fuel);
          if r1.Another? { StepsAlike(m, p, c1.env, r1.state, fuel); }
        }
      }
      var round := EvalRound(m, p, c.env, c.state, fuel);
      if round.Another? && fuel > 0 { ScopesAlike(m, p, env, round.state, fuel - 1); }
    }
  }

  // for (x = #f then x, until: x) let x = #t; x end, with t for the value of the next round
  const X := Id("x", false)
  const T := Id("t", false)
  const CAPTURED := ForParts([], [Bind([X], None, Var(T, UNANALYZED))], None, [], Some(Var(X, UNANALYZED)),
                             Some(Let([X], None, Lit(TrueLit), 0, 0, Last(Var(X, UNANALYZED)))),
                             [Do(Set(T, UNANALYZED, Var(X, UNANALYZED)))], None)

  const TRUE := Prim(TrueLit)
  const ENV := [Entry(T, 0)]

  /** As the expander has it, the next value is that of the x in the body, and the loop ends. In
      the scope of the loop, x stays false forever. */
  lemma CapturedStep(s: State, fuel: nat)
    requires s.mem == [FALSE]
    ensures QuietParts(CAPTURED)
    ensures EvalFor(Surprises.Example(), CAPTURED, ENV, s, 1).Done?
    ensures ForApart(Surprises.Example(), CAPTURED, ENV, s, fuel) == Timeout
  {
    EndsSoon(s);
    NeverEnds(s, fuel);
  }

  // The start of a round: x gets the value of t.
  lemma RoundStarts(s: State, v: Value, fuel: nat)
    requires |s.mem| > 0 && s.mem[0] == v && v in {TRUE, FALSE}
    ensures var m, p, env1, s1 := Surprises.Example(), CAPTURED, [Entry(X, |s.mem|)] + ENV, s.(mem := s.mem + [v]);
            && EvalChain(m, p.middle, ENV, s, fuel) == Into(env1, s1)
            && EvalTest(m, p.until, env1, s1, fuel) == if v == TRUE then Ended(s1) else Another(s1)
  {
    var m, p, n := Surprises.Example(), CAPTURED, |s.mem|;
    var env1, s1 := [Entry(X, n)] + ENV, s.(mem := s.mem + [v]);
    assert LetVars([X], None) == [X];
    assert EntriesDown([X], n) == [Entry(X, n)] && Wanted([v], 1, false) == [v];
    assert Lookup(ENV, T) == Some(0) && Lookup(env1, X) == Some(n);
    assert p.middle[1..] == [];
    assert Eval(m, Var(T, UNANALYZED), ENV, s, fuel) == Done([v], s);
    assert EvalChain(m, [], env1, s1, fuel) == Into(env1, s1);
    assert Eval(m, Var(X, UNANALYZED), env1, s1, fuel) == Done([v], s1);
  }

  // The body binds another x.
  lemma BodyBinds(env: seq<Entry>, s: State, fuel: nat)
    ensures EvalInto(Surprises.Example(), CAPTURED.body.value, env, s, fuel)
         == Into([Entry(X, |s.mem|)] + env, s.(mem := s.mem + [TRUE]))
  {
    var m, env', s' := Surprises.Example(), [Entry(X, |s.mem|)] + env, s.(mem := s.mem + [TRUE]);
    assert LetVars([X], None) == [X];
    assert EntriesDown([X], |s.mem|) == [Entry(X, |s.mem|)] && Wanted([TRUE], 1, false) == [TRUE];
    assert Lookup(env', X) == Some(|s.mem|);
    assert EvalInto(m, Last(Var(X, UNANALYZED)), env', s', fuel) == Into(env', s');
  }

  // A round from a state in which t is false.
  lemma CapturedRound(s: State, fuel: nat) returns (s1: State, s2: State, s3: State)
    requires |s.mem| > 0 && s.mem[0] == FALSE
    ensures var m, p, env1 := Surprises.Example(), CAPTURED, [Entry(X, |s.mem|)] + ENV;
            && EvalChain(m, p.middle, ENV, s, fuel) == Into(env1, s1)
            && EvalTest(m, p.tests, env1, s1, fuel) == Another(s1)
            && EvalChain(m, p.inner, env1, s1, fuel) == Into(env1, s1)
            && EvalTest(m, p.until, env1, s1, fuel) == Another(s1)
            && EvalSteps(m, p, env1, s1, fuel) == Another(s2)
            && StepsApart(m, p, env1, s1, fuel) == Another(s3)
    ensures |s2.mem| > 0 && s2.mem[0] == TRUE && |s3.mem| > 0 && s3.mem[0] == FALSE
  {
    hide Eval;
    var n := |s.mem|;
    var env1, env2 := [Entry(X, n)] + ENV, [Entry(X, n + 1)] + ([Entry(X, n)] + ENV);
    s1 := s.(mem := s.mem + [FALSE]);
    var s' := s1.(mem := s1.mem + [TRUE]);
    s2, s3 := s'.(mem := s'.mem[0 := TRUE]), s'.(mem := s'.mem[0 := FALSE]);
    RoundStarts(s, FALSE, fuel);
    BodyBinds(env1, s1, fuel);
    FindsBoth(n);
    SetsT(env2, s', TRUE, fuel);
    SetsT(env1, s', FALSE, fuel);
  }

  lemma FindsBoth(n: nat)
    ensures var env1, env2 := [Entry(X, n)] + ENV, [Entry(X, n + 1)] + ([Entry(X, n)] + ENV);
            && Lookup(env1, X) == Some(n) && Lookup(env1, T) == Some(0)
            && Lookup(env2, X) == Some(n + 1) && Lookup(env2, T) == Some(0)
  {
    var env1, env2 := [Entry(X, n)] + ENV, [Entry(X, n + 1)] + ([Entry(X, n)] + ENV);
    assert Lookup(ENV, T) == Some(0) && env1[1..] == ENV && env2[1..] == env1;
  }

  lemma SetsT(env: seq<Entry>, s: State, v: Value, fuel: nat)
    requires Lookup(env, T) == Some(0) && |s.mem| > 0 && v in {TRUE, FALSE}
    requires Lookup(env, X).Some? && Lookup(env, X).value < |s.mem| && s.mem[Lookup(env, X).value] == v
    ensures EvalChain(Surprises.Example(), CAPTURED.steps, env, s, fuel) == Into(env, s.(mem := s.mem[0 := v]))
  {
    var m, s' := Surprises.Example(), s.(mem := s.mem[0 := v]);
    assert CAPTURED.steps[1..] == [];
    assert Eval(m, Var(X, UNANALYZED), env, s, fuel) == Done([v], s);
    assert Eval(m, Set(T, UNANALYZED, Var(X, UNANALYZED)), env, s, fuel) == Done([v], s');
    assert EvalChain(m, [], env, s', fuel) == Into(env, s');
  }

  lemma {:induction false} NeverEnds(s: State, fuel: nat)
    requires |s.mem| > 0 && s.mem[0] == FALSE
    ensures ForApart(Surprises.Example(), CAPTURED, ENV, s, fuel) == Timeout
    decreases fuel
  {
    hide EvalChain, EvalTest, StepsApart;
    var _, _, s3 := CapturedRound(s, fuel);
    if fuel > 0 { NeverEnds(s3, fuel - 1); }
  }

  lemma EndsSoon(s: State)
    requires |s.mem| > 0 && s.mem[0] == FALSE
    ensures EvalFor(Surprises.Example(), CAPTURED, ENV, s, 1).Done?
  {
    hide EvalChain, EvalTest, EvalSteps;
    var _, s2, _ := CapturedRound(s, 1);
    LastRound(s2, 0);
  }

  lemma LastRound(s: State, fuel: nat)
    requires |s.mem| > 0 && s.mem[0] == TRUE
    ensures EvalFor(Surprises.Example(), CAPTURED, ENV, s, fuel).Done?
  {
    hide Eval;
    var m, p, n := Surprises.Example(), CAPTURED, |s.mem|;
    var env1, s1 := [Entry(X, n)] + ENV, s.(mem := s.mem + [TRUE]);
    RoundStarts(s, TRUE, fuel);
    assert EvalRound(m, p, env1, s1, fuel) == Ended(s1);
  }
}
