/**
 Three programs that are not tame, and what becomes of them: calls that the compiler does not
 check, or checks too early.
 */
module Surprises {
  import opened Wrappers
  import opened Bytecode
  import opened Programs
  import opened Growth
  import opened Analysis
  import opened Semantics
  import opened Slots
  import opened Codegen
  import opened Machine
  import opened Execution
  import opened Assumptions
  import opened WholeProgram
  import Correctness

  // The only function of the language is values; what the machine takes for one returns nothing.
  function Example(): Meaning {
    Meaning(l => l == OtherLit(0),
            (l, views, w) => if l == OtherLit(0) then Reply(seq(|views|, i requires 0 <= i < |views| => Argument(i)), w) else Reply([], w),
            (op, views, w) => Fails(w), OtherLit(0), k => FALSE, None)
  }

  const F := Id("f", false)
  const THREE := IntLit(3)

  // local method f () #f end; f := 3; f()
  const LOCAL_F := Method(F, [], None, [], None, Lit(NilLit), Last(Lit(FalseLit)), 2)
  const REF_F := Ref(Some(0), 1, 0)
  const ASSIGNS_F := Method(Id("", true), [], None, [], None, Lit(NilLit),
                            Local(AMethod(LOCAL_F, NoMethods), 0, 0,
                                  Then(Set(F, REF_F, Lit(THREE)), Last(Call(Var(F, REF_F), NoArgs)))), 1)
  const TABLES := Tables([Binding(F, 1, true, false, true, false, 0)],
                         [MethodInfo(0, 0, [], 1, [], 0), MethodInfo(0, 0, [], 1, [], 1), MethodInfo(1, 1, [0], 1, [], 0)])

  lemma AssignsScoped()
    ensures GoodEnv(TABLES, TOP) && ScopedMethod(TABLES, ASSIGNS_F, TOP) && !TameMethod(TABLES, ASSIGNS_F)
  {
    hide GoodEnv, RightMethod, ScopedBody;
    assert GoodEnv(TABLES, TOP) by { EmptyEnvGood(TABLES); }
    assert RightMethod(TABLES, ASSIGNS_F, TOP) by { AssignsRight(); }
    assert ScopedBody(TABLES, ASSIGNS_F.body, BodyEnv(TABLES, ASSIGNS_F)) by { AssignsBodyScoped(); }
  }

  lemma EmptyEnvGood(t: Tables)
    requires t.methods != [] && t.methods[0] == MethodInfo(0, 0, [], 1, [], 0)
    ensures GoodEnv(t, TOP)
  {
  }

  lemma AssignsRight()
    ensures RightMethod(TABLES, ASSIGNS_F, TOP)
  {
    assert ASSIGNS_F.Params() == [] && ASSIGNS_F.Bound() == [];
  }

  lemma AssignsBodyScoped()
    ensures ScopedBody(TABLES, ASSIGNS_F.body, BodyEnv(TABLES, ASSIGNS_F))
  {
    hide RightMethod, GoodEnv, ScopedBody, ScopedMethods, BodyEnv;
    assert BodyEnv(TABLES, ASSIGNS_F) == Lexenv(1, [], 0) by { AssignsEnv(); }
    LocalScoped();
    RestScoped();
    BindsF();
    LocalParts(TABLES, ASSIGNS_F.body, Lexenv(1, [], 0), Lexenv(1, [0], 1));
  }

  lemma AssignsEnv()
    ensures BodyEnv(TABLES, ASSIGNS_F) == Lexenv(1, [], 0)
  {
    assert ASSIGNS_F.Bound() == [];
    assert Down(0, 0) + [] == [];
  }

  lemma BindsF()
    ensures NewBindings(TABLES, 0, [F], 1, false, 0) && LocalFunctions(TABLES, 0, 1) && RoomFor(TABLES, 1, 1)
    ensures Names(AMethod(LOCAL_F, NoMethods)) == [F]
    ensures LocalEnv(Lexenv(1, [], 0), 0, 1) == Lexenv(1, [0], 1)
  {
    assert Up(0, 1) + [] == [0];
  }

  lemma LocalParts(t: Tables, b: Body, lex: Lexenv, lex': Lexenv)
    requires b.Local? && b.offset == lex.depth && Older(lex.bindings, b.first) && lex' == LocalEnv(lex, b.first, |Names(b.methods)|)
    requires NewBindings(t, b.first, Names(b.methods), lex.method_, false, b.offset)
    requires LocalFunctions(t, b.first, |Names(b.methods)|) && RoomFor(t, lex.method_, b.offset + |Names(b.methods)|)
    requires ScopedMethods(t, b.methods, lex') && ScopedBody(t, b.body, lex')
    ensures ScopedBody(t, b, lex)
  {
  }

  lemma LocalScoped()
    ensures ScopedMethods(TABLES, AMethod(LOCAL_F, NoMethods), Lexenv(1, [0], 1))
  {
    assert LOCAL_F.Params() == [] && LOCAL_F.Bound() == [];
  }

  lemma RestScoped()
    ensures ScopedBody(TABLES, ASSIGNS_F.body.body, Lexenv(1, [0], 1))
  {
    assert Find(TABLES, [0], F) == Some(0);
  }

  /** The program calls 3, which is an error; its byte code does not notice, and returns what the
      machine makes of 3. */
  lemma AssignedLocalMethod(s: State)
    requires Initial(s)
    ensures GoodEnv(TABLES, TOP) && ScopedMethod(TABLES, ASSIGNS_F, TOP) && !TameMethod(TABLES, ASSIGNS_F)
    ensures Example().Good()
    ensures Apply(Example(), Closure(ASSIGNS_F, []), [], s, 1) == Exit(s.(mem := [Prim(THREE)]))
    ensures CallEndsIn(Example(), TABLES, Flat(ASSIGNS_F, []), [], s, Gives(Returned([], s)))
    ensures !EndsAlike(Example(), TABLES, ASSIGNS_F, s, Apply(Example(), Closure(ASSIGNS_F, []), [], s, 1), 1)
  {
    hide GoodEnv, ScopedMethod, TameMethod, Apply, CallEndsIn, Initial, SeenAlike, Meaning.Good, EndsAlike;
    AssignsScoped();
    AssignsExits(s);
    AssignsReturns(s);
    ExampleGood();
    NotAlike(Example(), TABLES, ASSIGNS_F, s, Exit(s.(mem := [Prim(THREE)])), Returned([], s), 1);
  }

  // A failure that the machine does not come to.
  lemma {:induction false} NotAlike(m: Meaning, t: Tables, mm: Method, s: State, o: Outcome, r: Result, fuel: nat)
    requires o.Exit? && CallEndsIn(m, t, Flat(mm, []), [], s, Gives(r)) && r != OutOfFuel
    requires r.Failed? ==> !SeenAlike(o.state, r.state)
    ensures !EndsAlike(m, t, mm, s, o, fuel)
  {
    hide CallEndsIn, SeenAlike;
    EndsOnce(m, t, mm, s, r);
  }

  lemma ExampleGood()
    ensures Example().Good()
  {
  }

  // Where a program has come to an end, it has not come to another.
  lemma {:induction false} EndsOnce(m: Meaning, t: Tables, mm: Method, s: State, r: Result)
    requires CallEndsIn(m, t, Flat(mm, []), [], s, Gives(r)) && r != OutOfFuel
    ensures forall r' :: CallEndsIn(m, t, Flat(mm, []), [], s, Gives(r')) ==> r' == r
    ensures exists n: nat :: !CallEndsIn(m, t, Flat(mm, []), [], s, Lasts(n))
  {
    hide Enter;
    var n: nat :| CallEndsBy(m, t, Flat(mm, []), [], s, r, n);
    forall r' | CallEndsIn(m, t, Flat(mm, []), [], s, Gives(r')) ensures r' == r {
      var n': nat :| CallEndsBy(m, t, Flat(mm, []), [], s, r', n');
      assert Enter(m, t, Flat(mm, []), [], s, n + n') == r;
    }
    assert Enter(m, t, Flat(mm, []), [], s, n) == r;
    assert !CallEndsIn(m, t, Flat(mm, []), [], s, Lasts(n));
  }

  lemma AssignsExits(s: State)
    requires Initial(s)
    ensures Apply(Example(), Closure(ASSIGNS_F, []), [], s, 1) == Exit(s.(mem := [Prim(THREE)]))
  {
    hide EvalBody, ParamValues;
    LocalExits(s);
    assert s.mem + BoundValues(ASSIGNS_F, []) == [];
    assert EntriesDown(ASSIGNS_F.Bound(), 0) + [] == [];
    assert ParamValues(ASSIGNS_F, []) == Some([]) by { NoParams(ASSIGNS_F); }
  }

  lemma LocalExits(s: State)
    requires Initial(s)
    ensures EvalBody(Example(), ASSIGNS_F.body, [], s, 0) == Exit(s.(mem := [Prim(THREE)]))
  {
    hide EvalMethods;
    var m, ms := Example(), AMethod(LOCAL_F, NoMethods);
    var env, s1 := [Entry(F, 0)], s.(mem := [Unset]);
    assert EntriesUp([F], 0) + [] == env && [] + seq(1, _ => Unset) == [Unset];
    assert Names(ms) == [F];
    assert EvalMethods(m, ms, 0, env, s1, 0) == Done([], s.(mem := [Closure(LOCAL_F, env)])) by { LocalMade(env, s1); }
    assert EvalBody(m, ASSIGNS_F.body.body, env, s.(mem := [Closure(LOCAL_F, env)]), 0) == Exit(s.(mem := [Prim(THREE)])) by {
      RestExits(env, s.(mem := [Closure(LOCAL_F, env)]));
    }
  }

  lemma LocalMade(env: seq<Entry>, s: State)
    requires s.mem == [Unset]
    ensures EvalMethods(Example(), AMethod(LOCAL_F, NoMethods), 0, env, s, 0) == Done([], s.(mem := [Closure(LOCAL_F, env)]))
  {
    var m, f := Example(), Closure(LOCAL_F, env);
    assert EvalMethod(m, LOCAL_F, env, s, 0) == Done([f], s);
    assert Store(s, 0, f) == s.(mem := [f]);
    assert EvalMethods(m, NoMethods, 1, env, s.(mem := [f]), 0) == Done([], s.(mem := [f]));
  }

  lemma RestExits(env: seq<Entry>, s: State)
    requires env == [Entry(F, 0)] && |s.mem| == 1
    ensures EvalBody(Example(), ASSIGNS_F.body.body, env, s, 0) == Exit(s.(mem := [Prim(THREE)]))
  {
    var m := Example();
    var s' := s.(mem := [Prim(THREE)]);
    assert Lookup(env, F) == Some(0);
    assert Store(s, 0, Prim(THREE)) == s';
    assert Eval(m, Set(F, REF_F, Lit(THREE)), env, s, 0) == Done([Prim(THREE)], s');
    assert Eval(m, Var(F, REF_F), env, s', 0) == Done([Prim(THREE)], s');
    assert Eval(m, Call(Var(F, REF_F), NoArgs), env, s', 0) == Exit(s');
  }

  const CODE := [OpArg(PUSH_CONSTANT, 0), Op(PUSH_NIL), Op(PUSH_NIL), Op(PUSH_TRUE), MakeMethod(0), OpArg(POP_LOCAL, 0),
                 PushByte(3), OpArg(POP_LOCAL, 0), OpArg(PUSH_LOCAL, 0), OpArg(CALL_TAIL, 0)]

  lemma AssignsCode()
    ensures GenMethod(TABLES, ASSIGNS_F) == Code(CODE, [MethodConst(LOCAL_F)])
  {
    hide Size, GenMethods, Gen;
    var t := TABLES;
    assert GenBoxes(t, 0, 0) == [];
    assert Names(AMethod(LOCAL_F, NoMethods)) == [F];
    assert GenCells(t, 0, 1) == [];
    forall pos: nat, loop: nat
      ensures GenMethods(t, AMethod(LOCAL_F, NoMethods), 0, [], pos, loop) == Code(CODE[..6], [MethodConst(LOCAL_F)])
    {
      LocalCode(pos, loop);
    }
    forall cs, pos: nat, loop: nat ensures GenBody(t, ASSIGNS_F.body.body, Tail, cs, pos, loop) == Code(CODE[6..], cs) {
      RestCode(cs, pos, loop);
    }
    assert CODE[..6] + CODE[6..] == CODE;
  }

  lemma RestCode(cs: seq<Constant>, pos: nat, loop: nat)
    ensures GenBody(TABLES, ASSIGNS_F.body.body, Tail, cs, pos, loop) == Code(CODE[6..], cs)
  {
    hide Size;
    var t := TABLES;
    assert Gen(t, Set(F, REF_F, Lit(THREE)), NOTHING, cs, pos, loop) == Code([PushByte(3), OpArg(POP_LOCAL, 0)], cs);
    assert forall p: nat :: Gen(t, Call(Var(F, REF_F), NoArgs), Tail, cs, p, loop) == Code([OpArg(PUSH_LOCAL, 0), OpArg(CALL_TAIL, 0)], cs);
  }

  lemma LocalCode(pos: nat, loop: nat)
    ensures GenMethods(TABLES, AMethod(LOCAL_F, NoMethods), 0, [], pos, loop) == Code(CODE[..6], [MethodConst(LOCAL_F)])
  {
    hide Size;
    assert PushTaken(TABLES, []) == [];
    assert GenMethodRef(TABLES, LOCAL_F, SINGLE, [], pos, loop) == Code(CODE[..5], [MethodConst(LOCAL_F)]);
  }

  lemma AssignsReturns(s: State)
    ensures CallEndsIn(Example(), TABLES, Flat(ASSIGNS_F, []), [], s, Gives(Returned([], s)))
  {
    hide Ends, Step, Exec, GenMethod, NewFrame, EndsIn, CallEndsIn, ParamValues;
    AssignsCode();
    var m, t := Example(), TABLES;
    var j := Job(m, t, Code(CODE, [MethodConst(LOCAL_F)]), Gives(Returned([], s)));
    var fr := NewFrame(m, t, Flat(ASSIGNS_F, []), [], [], 1);
    assert |fr.locals| == 1 by { OneLocal(); }
    assert ParamValues(ASSIGNS_F, []) == Some([]) by { NoParams(ASSIGNS_F); }
    AssignsSteps(j, fr, s);
    Started(j, 0, fr, s);
    Correctness.EnterMethod(m, t, Flat(ASSIGNS_F, []), [], s, [], j.r);
  }

  lemma OneLocal()
    ensures |NewFrame(Example(), TABLES, Flat(ASSIGNS_F, []), [], [], 1).locals| == 1
  {
  }

  lemma NoParams(mm: Method)
    requires mm.required == [] && mm.restVar.None? && mm.keys == [] && mm.next.None?
    ensures ParamValues(mm, []) == Some([])
  {
  }

  lemma Started(j: Job, pc: nat, fr: Frame, s: State)
    requires Ends(j, pc, [], fr, s)
    ensures EndsIn(j.m, j.t, j.code, Config(pc, [], fr, s), j.r)
  {
    hide EndsIn;
  }

  // Up to where the local method is made, and then its assignment and its call.
  lemma AssignsSteps(j: Job, fr: Frame, s: State)
    requires j == Job(Example(), TABLES, Code(CODE, [MethodConst(LOCAL_F)]), Gives(Returned([], s))) && |fr.locals| == 1
    ensures Ends(j, 0, [], fr, s)
  {
    hide Ends, Step, Exec, Peek, Poke, OpEffect, ArgEffect, Goes;
    var f, nil := Flat(LOCAL_F, []), Prim(NilLit);
    AssignmentSteps(j, fr, s);
    MethodMade(j, fr, s);
    assert [f, nil, nil] + [Prim(TrueLit)] == [f, nil, nil, Prim(TrueLit)];
    PushConstRuns(j, 3, PUSH_TRUE, Prim(TrueLit), [f, nil, nil], fr, s);
    assert [f, nil] + [nil] == [f, nil, nil];
    PushConstRuns(j, 2, PUSH_NIL, nil, [f, nil], fr, s);
    assert [f] + [nil] == [f, nil];
    PushConstRuns(j, 1, PUSH_NIL, nil, [f], fr, s);
    DescriptionPushed(j, fr, s);
  }

  lemma MethodMade(j: Job, fr: Frame, s: State)
    requires j.t == TABLES && j.code.instrs == CODE && Ends(j, 5, [Flat(LOCAL_F, [])], fr, s)
    ensures Ends(j, 4, [Flat(LOCAL_F, []), Prim(NilLit), Prim(NilLit), Prim(TrueLit)], fr, s)
  {
    hide Ends, Step, Exec;
    var made := [Flat(LOCAL_F, []), Prim(NilLit), Prim(NilLit), Prim(TrueLit)];
    assert made[..0] == [] && [] + made == made && [] + [Flat(LOCAL_F, [])] == [Flat(LOCAL_F, [])];
    MakeStepRuns(j, 4, LOCAL_F, [], made, [], fr, s);
  }

  lemma DescriptionPushed(j: Job, fr: Frame, s: State)
    requires j.code == Code(CODE, [MethodConst(LOCAL_F)]) && Ends(j, 1, [Flat(LOCAL_F, [])], fr, s)
    ensures Ends(j, 0, [], fr, s)
  {
    hide Ends, Step, Exec;
    var none: seq<Value> := [];
    assert none + none == none && none + [Flat(LOCAL_F, [])] == [Flat(LOCAL_F, [])];
    ArgRuns(j, 0, PUSH_CONSTANT, 0, [], [], [Flat(LOCAL_F, [])], fr, fr, s, s);
  }

  lemma AssignmentSteps(j: Job, fr: Frame, s: State)
    requires j == Job(Example(), TABLES, Code(CODE, [MethodConst(LOCAL_F)]), Gives(Returned([], s))) && |fr.locals| == 1
    ensures Ends(j, 5, [Flat(LOCAL_F, [])], fr, s)
  {
    hide Ends, Step, Exec, Peek, Poke, OpEffect, ArgEffect;
    var v, f := Prim(THREE), Flat(LOCAL_F, []);
    var p := LocalPlace(0);
    var fr1 := Poke(fr, p, f);
    var fr2 := Poke(fr1, p, v);
    assert Peek(fr2, p) == v by { PokedTwice(fr, f, v); }
    LastCall(j, v, fr2, s);
    assert [] + [v] == [v] && [] + [f] == [f];
    PushRuns(j, 8, p, [], fr2, s);
    PopRuns(j, 7, p, [], v, fr1, s);
    PushIntRuns(j, 6, 3, [], fr1, s);
    PopRuns(j, 5, p, [], f, fr, s);
  }

  lemma PokedTwice(fr: Frame, f: Value, v: Value)
    requires |fr.locals| == 1
    ensures Peek(Poke(Poke(fr, LocalPlace(0), f), LocalPlace(0), v), LocalPlace(0)) == v
  {
  }

  // What is called is not a function, but nothing looks.
  lemma LastCall(j: Job, v: Value, fr: Frame, s: State)
    requires j.m == Example() && j.code.instrs == CODE && v == Prim(THREE) && j.r == Gives(Returned([], s))
    ensures Ends(j, 9, [v], fr, s)
  {
    hide Step, Exec;
    StepIs(j.m, j.t, j.code, 9, OpArg(CALL_TAIL, 0), [], [v], fr, s);
    assert [v][1..] == [] && [] + [v] == [v];
    forall k: nat ensures Enter(j.m, j.t, v, [], s, k) == Returned([], s) {
      assert Views([]) == [];
      assert Picked([], []) == [];
    }
    assert CallEndsBy(j.m, j.t, v, [], s, Returned([], s), 0);
    TailCallEnds(j.m, j.t, j.code, Config(9, [v], fr, s), v, [], j.r);
  }

  // A program of one expression, without variables of its own.
  function Program(e: Expr): Method {
    Method(Id("", true), [], None, [], None, Lit(NilLit), Last(e), 1)
  }

  const NO_TABLES := Tables([], [MethodInfo(0, 0, [], 1, [], 0), MethodInfo(0, 0, [], 1, [], 0)])

  lemma ProgramScoped(e: Expr)
    requires Scoped(NO_TABLES, e, Lexenv(1, [], 0))
    ensures GoodEnv(NO_TABLES, TOP) && ScopedMethod(NO_TABLES, Program(e), TOP)
  {
    hide GoodEnv, RightMethod, ScopedBody, Scoped;
    var t, mm := NO_TABLES, Program(e);
    assert GoodEnv(t, TOP) by { EmptyEnvGood(t); }
    assert RightMethod(t, mm, TOP) by { ProgramRight(e); }
    assert ScopedBody(t, mm.body, BodyEnv(t, mm)) by { ProgramBodyScoped(e); }
    assert Scoped(t, mm.specializers, TOP) by { NilScoped(); }
  }

  lemma NilScoped()
    ensures Scoped(NO_TABLES, Lit(NilLit), TOP)
  {
  }

  lemma ProgramRight(e: Expr)
    ensures RightMethod(NO_TABLES, Program(e), TOP)
  {
    assert Program(e).Params() == [] && Program(e).Bound() == [];
  }

  lemma ProgramBodyScoped(e: Expr)
    requires Scoped(NO_TABLES, e, Lexenv(1, [], 0))
    ensures ScopedBody(NO_TABLES, Program(e).body, BodyEnv(NO_TABLES, Program(e)))
  {
    hide Scoped;
    assert BodyEnv(NO_TABLES, Program(e)) == Lexenv(1, [], 0);
  }

  // It does what the expression does.
  lemma ProgramMeans(e: Expr, s: State, fuel: nat)
    requires Initial(s)
    ensures var o := Eval(Example(), e, [], s, fuel);
            Apply(Example(), Closure(Program(e), []), [], s, fuel + 1) == if o.Again? then Wrong else o
  {
    hide Eval, Initial;
    assert s.mem == [] by { NoStore(s); }
    assert s.mem + BoundValues(Program(e), []) == [];
    assert EntriesDown(Program(e).Bound(), 0) + [] == [];
    assert ParamValues(Program(e), []) == Some([]);
    assert EvalBody(Example(), Program(e).body, [], s, fuel) == Eval(Example(), e, [], s, fuel);
  }

  lemma NoStore(s: State)
    requires Initial(s)
    ensures s.mem == []
  {
  }

  // Code that looks first whether 3 is a function.
  predicate LooksAtThree(l: seq<Instr>) {
    |l| > 1 && l[0] == PushByte(3) && l[1] == Op(CHECK_TYPE_FUNCTION)
  }

  lemma ThreeFails(e: Expr, s: State)
    requires LooksAtThree(GenMethod(NO_TABLES, Program(e)).instrs)
    ensures CallEndsIn(Example(), NO_TABLES, Flat(Program(e), []), [], s, Gives(Failed(s)))
  {
    hide Ends, Step, Exec, GenMethod, NewFrame, EndsIn, CallEndsIn, ParamValues;
    var m, t, mm := Example(), NO_TABLES, Program(e);
    var j := Job(m, t, GenMethod(t, mm), Gives(Failed(s)));
    var fr := NewFrame(m, t, Flat(mm, []), [], [], 1);
    assert ParamValues(mm, []) == Some([]) by { NoParams(mm); }
    assert [] + [Prim(THREE)] == [Prim(THREE)];
    CheckRuns(j, 1, [], Prim(THREE), fr, s);
    PushIntRuns(j, 0, 3, [], fr, s);
    Started(j, 0, fr, s);
    Correctness.EnterMethod(m, t, Flat(mm, []), [], s, [], j.r);
  }

  // The code of a call starts with that of the function.
  lemma CallCodeStarts(f: Expr)
    requires forall pos: nat, loop: nat :: LooksAtThree(Gen(NO_TABLES, f, Func, [], pos, loop).instrs)
    ensures LooksAtThree(GenMethod(NO_TABLES, Program(Call(f, NoArgs))).instrs)
  {
    hide Size, LooksAtThree;
    assert GenBoxes(NO_TABLES, 0, 0) == [];
    forall pos: nat, loop: nat ensures LooksAtThree(Gen(NO_TABLES, Call(f, NoArgs), Tail, [], pos, loop).instrs) {
      var fc := Gen(NO_TABLES, f, Func, [], pos, loop).instrs;
      assert LooksAtThree(fc);
      MoreCode(fc, CallCode(0, Tail));
      assert fc + [] == fc;
    }
    var code := Gen(NO_TABLES, Call(f, NoArgs), Tail, [], Size([]), 0).instrs;
    assert LooksAtThree(code) && [] + code == code;
  }

  lemma MoreCode(a: seq<Instr>, b: seq<Instr>)
    requires LooksAtThree(a)
    ensures LooksAtThree(a + b)
  {
  }

  // values(3, for (;;) end)()
  const VALUES := Id("values", false)
  const ENDLESS := Loop(Last(Repeat))
  const TWO_VALUES := Programs.Values(Var(VALUES, Ref(None, 1, 0)), Arg(Lit(THREE), Arg(ENDLESS, NoArgs)))
  const CALLS_VALUES := Program(Call(TWO_VALUES, NoArgs))

  /** The program never ends; its byte code fails, as it looks at 3 before the loop. */
  lemma HastyCall(s: State)
    requires Initial(s) && VALUES in s.globals && s.globals[VALUES] == Prim(OtherLit(0))
    ensures GoodEnv(NO_TABLES, TOP) && ScopedMethod(NO_TABLES, CALLS_VALUES, TOP) && !TameMethod(NO_TABLES, CALLS_VALUES)
    ensures Example().Good()
    ensures forall fuel: nat :: Apply(Example(), Closure(CALLS_VALUES, []), [], s, fuel).Timeout?
    ensures CallEndsIn(Example(), NO_TABLES, Flat(CALLS_VALUES, []), [], s, Gives(Failed(s)))
    ensures exists fuel: nat :: !EndsAlike(Example(), NO_TABLES, CALLS_VALUES, s,
                                           Apply(Example(), Closure(CALLS_VALUES, []), [], s, fuel), fuel)
  {
    hide GoodEnv, ScopedMethod, TameMethod, Apply, CallEndsIn, Initial, Scoped, Eval, Meaning.Good, LooksAtThree, Gen, EndsAlike;
    var m, t := Example(), NO_TABLES;
    ExampleGood();
    CallsNotTame();
    assert Scoped(t, Call(TWO_VALUES, NoArgs), Lexenv(1, [], 0)) by { CallsScoped(); }
    ProgramScoped(Call(TWO_VALUES, NoArgs));
    assert Apply(m, Closure(CALLS_VALUES, []), [], s, 0).Timeout? by { CallsNoFuel(s); }
    forall fuel: nat ensures Apply(m, Closure(CALLS_VALUES, []), [], s, fuel).Timeout? {
      if fuel > 0 {
        ValuesTimeout(s, fuel - 1);
        ProgramMeans(Call(TWO_VALUES, NoArgs), s, fuel - 1);
      }
    }
    forall pos: nat, loop: nat ensures LooksAtThree(Gen(t, TWO_VALUES, Func, [], pos, loop).instrs) { TwoValuesCode(pos, loop); }
    CallCodeStarts(TWO_VALUES);
    ThreeFails(Call(TWO_VALUES, NoArgs), s);
    var fuel := NotLasting(m, t, CALLS_VALUES, s, Failed(s));
    assert !EndsAlike(m, t, CALLS_VALUES, s, Apply(m, Closure(CALLS_VALUES, []), [], s, fuel), fuel);
  }

  lemma {:induction false} NotLasting(m: Meaning, t: Tables, mm: Method, s: State, r: Result) returns (fuel: nat)
    requires CallEndsIn(m, t, Flat(mm, []), [], s, Gives(r)) && r != OutOfFuel
    ensures !EndsAlike(m, t, mm, s, Timeout, fuel)
  {
    hide CallEndsIn;
    EndsOnce(m, t, mm, s, r);
    var n: nat :| !CallEndsIn(m, t, Flat(mm, []), [], s, Lasts(n));
    fuel := n + 1;
  }

  lemma CallsNotTame()
    ensures !TameMethod(NO_TABLES, CALLS_VALUES)
  {
  }

  lemma CallsScoped()
    ensures Scoped(NO_TABLES, Call(TWO_VALUES, NoArgs), Lexenv(1, [], 0))
  {
  }

  lemma {:induction false} EndlessTimeout(env: seq<Entry>, s: State, fuel: nat)
    ensures Eval(Example(), ENDLESS, env, s, fuel) == Timeout
    decreases fuel
  {
    assert EvalBody(Example(), Last(Repeat), env, s, fuel) == Again(s);
    if fuel > 0 { EndlessTimeout(env, s, fuel - 1); }
  }

  lemma CallsNoFuel(s: State)
    ensures Apply(Example(), Closure(CALLS_VALUES, []), [], s, 0).Timeout?
  {
    NoParams(CALLS_VALUES);
  }

  lemma ValuesTimeout(s: State, fuel: nat)
    requires Initial(s) && VALUES in s.globals && s.globals[VALUES] == Prim(OtherLit(0))
    ensures Eval(Example(), Call(TWO_VALUES, NoArgs), [], s, fuel) == Timeout
  {
    var m := Example();
    EndlessTimeout([], s, fuel);
    assert EvalArgs(m, Arg(ENDLESS, NoArgs), [], s, fuel) == Stop(Timeout);
    assert Eval(m, Lit(THREE), [], s, fuel) == Done([Prim(THREE)], s);
    assert EvalArgs(m, Arg(Lit(THREE), Arg(ENDLESS, NoArgs)), [], s, fuel) == Stop(Timeout);
    assert Eval(m, TWO_VALUES, [], s, fuel) == Timeout;
  }

  lemma TwoValuesCode(pos: nat, loop: nat)
    ensures LooksAtThree(Gen(NO_TABLES, TWO_VALUES, Func, [], pos, loop).instrs)
  {
    hide Size;
    assert Gen(NO_TABLES, Lit(THREE), Func, [], pos, loop).instrs == [PushByte(3), Op(CHECK_TYPE_FUNCTION)];
    assert Gen(NO_TABLES, TWO_VALUES, Func, [], pos, loop) == GenValues(NO_TABLES, TWO_VALUES, Func, [], pos, loop);
  }

  // (g := 3)()
  const G := Id("g", false)
  const SETS_G := Set(G, Ref(None, 1, 0), Lit(THREE))
  const CALLS_SET := Program(Call(SETS_G, NoArgs))

  /** The program assigns g and fails; its byte code fails before it assigns g. */
  lemma LateAssignment(s: State)
    requires Initial(s) && (G in s.globals ==> s.globals[G] != Prim(THREE))
    ensures GoodEnv(NO_TABLES, TOP) && ScopedMethod(NO_TABLES, CALLS_SET, TOP) && !TameMethod(NO_TABLES, CALLS_SET)
    ensures Example().Good()
    ensures Apply(Example(), Closure(CALLS_SET, []), [], s, 1) == Exit(s.(globals := s.globals[G := Prim(THREE)]))
    ensures CallEndsIn(Example(), NO_TABLES, Flat(CALLS_SET, []), [], s, Gives(Failed(s)))
    ensures !EndsAlike(Example(), NO_TABLES, CALLS_SET, s, Apply(Example(), Closure(CALLS_SET, []), [], s, 1), 1)
  {
    hide GoodEnv, ScopedMethod, TameMethod, Apply, CallEndsIn, Initial, Scoped, Eval, Meaning.Good, LooksAtThree, Gen, SeenAlike, EndsAlike;
    var m, t := Example(), NO_TABLES;
    SetNotTame();
    var s' := s.(globals := s.globals[G := Prim(THREE)]);
    ExampleGood();
    assert Scoped(t, Call(SETS_G, NoArgs), Lexenv(1, [], 0)) by { SetScoped(); }
    ProgramScoped(Call(SETS_G, NoArgs));
    assert Eval(m, Call(SETS_G, NoArgs), [], s, 0) == Exit(s') by { SetExits(s); }
    ProgramMeans(Call(SETS_G, NoArgs), s, 0);
    forall pos: nat, loop: nat ensures LooksAtThree(Gen(t, SETS_G, Func, [], pos, loop).instrs) { SetCode(pos, loop); }
    CallCodeStarts(SETS_G);
    ThreeFails(Call(SETS_G, NoArgs), s);
    assert !SeenAlike(s', s) by { SeesAssignment(s); }
    NotAlike(m, t, CALLS_SET, s, Exit(s'), Failed(s), 1);
  }

  lemma SetNotTame()
    ensures !TameMethod(NO_TABLES, CALLS_SET)
  {
  }

  lemma SetScoped()
    ensures Scoped(NO_TABLES, Call(SETS_G, NoArgs), Lexenv(1, [], 0))
  {
  }

  lemma SetExits(s: State)
    ensures Eval(Example(), Call(SETS_G, NoArgs), [], s, 0) == Exit(s.(globals := s.globals[G := Prim(THREE)]))
  {
    assert Eval(Example(), SETS_G, [], s, 0) == Done([Prim(THREE)], s.(globals := s.globals[G := Prim(THREE)]));
  }

  lemma SetCode(pos: nat, loop: nat)
    ensures LooksAtThree(Gen(NO_TABLES, SETS_G, Func, [], pos, loop).instrs)
  {
    hide Size;
    assert Gen(NO_TABLES, Lit(THREE), Func, [], pos, loop).instrs == [PushByte(3), Op(CHECK_TYPE_FUNCTION)];
  }

  lemma SeesAssignment(s: State)
    requires Initial(s) && (G in s.globals ==> s.globals[G] != Prim(THREE))
    ensures !SeenAlike(s.(globals := s.globals[G := Prim(THREE)]), s)
  {
  }
}
