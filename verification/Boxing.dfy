/**
 The compiled program computes what the program means: every reference, through its slot, its
 copy of a slot or its value cell, gets the value that shared environments give.
 */
module Boxing {
  import opened Wrappers
  import opened Programs
  import opened Growth
  import opened Analysis
  import opened Semantics
  import opened Slots
  import opened Relation
  import opened Variables

  // A point of the program, and the point of the compiled program that it corresponds to.
  ghost predicate At(t: Tables, w: Link, lex: Lexenv, env: seq<Entry>, fr: Frame, s: State, u: State) {
    GoodEnv(t, lex) && StateR(t, w, s, u) && FrameR(t, w, lex, env, fr, s)
  }

  // A later point in the same frame.
  ghost predicate After(t: Tables, w: Link, w': Link, lex: Lexenv, env: seq<Entry>, s: State, fr': Frame, s': State, u': State) {
    && GoodEnv(t, lex) && |lex.bindings| == |env|
    && Steps(t, w, w', Own(t, lex, env), s, s', u') && FrameR(t, w', lex, env, fr', s')
  }

  /** The outcome of the compiled program corresponds, unless the program uses a local method
      before it has been made. */
  ghost predicate Sims(t: Tables, w: Link, w': Link, lex: Lexenv, env: seq<Entry>, s: State, o: Outcome, r: Ran) {
    match o
    case Done(vs, s') =>
      && r.outcome.Done? && AllR(t, w', vs, r.outcome.values)
      && After(t, w, w', lex, env, s, r.frame, s', r.outcome.state)
    case Again(s') => r.outcome.Again? && After(t, w, w', lex, env, s, r.frame, s', r.outcome.state)
    case Exit(s') => r.outcome.Exit? && SeenAlike(s', r.outcome.state)
    case Timeout => r.outcome.Timeout?
    case Wrong => true
  }

  ghost predicate SimsArgs(t: Tables, w: Link, w': Link, lex: Lexenv, env: seq<Entry>, s: State, o: ArgsOutcome, r: RanArgs) {
    match o
    case Args(vs, s') =>
      && r.outcome.Args? && AllR(t, w', vs, r.outcome.values)
      && After(t, w, w', lex, env, s, r.frame, s', r.outcome.state)
    case Stop(x) =>
      && !x.Done?
      && (x.Wrong? ||
          (r.outcome.Stop? && !r.outcome.outcome.Done? && Sims(t, w, w', lex, env, s, x, Ran(r.outcome.outcome, r.frame))))
  }

  // The same for calls, which have no frame of the caller to look at.
  ghost predicate SimsCall(t: Tables, w: Link, w': Link, s: State, o: Outcome, o': Outcome) {
    match o
    case Done(vs, s') => o'.Done? && AllR(t, w', vs, o'.values) && Steps(t, w, w', {}, s, s', o'.state)
    case Again(_) => false
    case Exit(s') => o'.Exit? && SeenAlike(s', o'.state)
    case Timeout => o'.Timeout?
    case Wrong => true
  }

  lemma AfterNothing(t: Tables, w: Link, lex: Lexenv, env: seq<Entry>, fr: Frame, s: State, u: State)
    requires At(t, w, lex, env, fr, s, u)
    ensures After(t, w, w, lex, env, s, fr, s, u)
  {
    hide R, GoodEnv;
  }

  // After a step, the point that the next one starts from.
  lemma AtAfter(t: Tables, w: Link, w': Link, lex: Lexenv, env: seq<Entry>, s: State, fr': Frame, s': State, u': State)
    requires After(t, w, w', lex, env, s, fr', s', u')
    ensures At(t, w', lex, env, fr', s', u') && Extends(w, w')
  {
    hide R, GoodEnv, FrameR, StateR;
  }

  lemma AfterTransitive(t: Tables, w: Link, w1: Link, w2: Link, lex: Lexenv, env: seq<Entry>,
                        s: State, fr1: Frame, s1: State, u1: State, fr2: Frame, s2: State, u2: State)
    requires After(t, w, w1, lex, env, s, fr1, s1, u1) && After(t, w1, w2, lex, env, s1, fr2, s2, u2)
    ensures After(t, w, w2, lex, env, s, fr2, s2, u2)
  {
    hide R, GoodEnv, FrameR, Steps;
    EnvInRange(t, lex);
    StepsTransitive(t, w, w1, w2, Own(t, lex, env), s, s1, u1, s2, u2);
  }

  // Going on after a step.
  lemma Chain(t: Tables, w: Link, w1: Link, w2: Link, lex: Lexenv, env: seq<Entry>,
              s: State, fr1: Frame, s1: State, u1: State, o: Outcome, r: Ran)
    requires After(t, w, w1, lex, env, s, fr1, s1, u1) && Sims(t, w1, w2, lex, env, s1, o, r)
    ensures Sims(t, w, w2, lex, env, s, o, r)
  {
    hide After, AllR;
    match o
    case Done(_, s2) => AfterTransitive(t, w, w1, w2, lex, env, s, fr1, s1, u1, r.frame, s2, r.outcome.state);
    case Again(s2) => AfterTransitive(t, w, w1, w2, lex, env, s, fr1, s1, u1, r.frame, s2, r.outcome.state);
    case _ =>
  }

  // Going on with a call.
  lemma CallChain(t: Tables, w: Link, w1: Link, w2: Link, lex: Lexenv, env: seq<Entry>,
                  s: State, fr1: Frame, s1: State, u1: State, o: Outcome, o': Outcome)
    requires After(t, w, w1, lex, env, s, fr1, s1, u1) && SimsCall(t, w1, w2, s1, o, o')
    ensures Sims(t, w, w2, lex, env, s, o, Ran(o', fr1))
  {
    hide AllR, Steps, FrameR, GoodEnv;
    if o.Done? {
      EnvInRange(t, lex);
      FrameStays(t, w1, w2, lex, env, fr1, s1, o.state, o'.state);
      OwnMore(t, w1, w2, Own(t, lex, env), s1, o.state, o'.state);
      StepsTransitive(t, w, w1, w2, Own(t, lex, env), s, s1, u1, o.state, o'.state);
    }
  }

  lemma OwnMore(t: Tables, w: Link, w': Link, own: set<nat>, s: State, s': State, u': State)
    requires Steps(t, w, w', {}, s, s', u')
    ensures Steps(t, w, w', own, s, s', u')
  {
    hide R, StateR;
  }

  // References.

  lemma ReadSim(t: Tables, w: Link, lex: Lexenv, env: seq<Entry>, fr: Frame, s: State, u: State, id: Id, ref: Ref)
    requires At(t, w, lex, env, fr, s, u) && ValidIndex(t, lex.bindings) && RightRef(t, lex, id, ref)
    ensures ref.binding.None? <==> Lookup(env, id).None?
    ensures ref.binding.Some? ==>
              var loc := Lookup(env, id).value;
              loc < |s.mem| && (s.mem[loc].Unset? || R(t, w, s.mem[loc], ReadVar(t, ref, fr, u)))
  {
    hide R, GoodEnv, Peek;
    var i := LookupFits(t, lex.bindings, env, |s.mem|, id);
    if ref.binding.Some? {
      assert VarR(t, w, lex.method_, lex.bindings[i], env[i].loc, fr, s);
      SlotRead(t, w, ref, env[i].loc, fr, s, u);
    }
  }

  lemma SlotRead(t: Tables, w: Link, ref: Ref, loc: nat, fr: Frame, s: State, u: State)
    requires ref.binding.Some? && ref.binding.value < |t.bindings| && StateR(t, w, s, u) && loc < |s.mem|
    requires VarR(t, w, ref.home, ref.binding.value, loc, fr, s)
    requires t.bindings[ref.binding.value].home != ref.home ==>
               t.bindings[ref.binding.value].closedOver && ClosesOver(t, ref.home, ref.binding.value, ref.over)
    ensures s.mem[loc].Unset? || R(t, w, s.mem[loc], ReadVar(t, ref, fr, u))
  {
    hide R, Peek;
    var b := ref.binding.value;
    var slot := Peek(fr, RefPlace(t, b, ref));
    if t.bindings[b].closedOver {
      assert Holds(t, w, b, loc, slot);
    }
  }

  lemma WriteSim(t: Tables, w: Link, lex: Lexenv, env: seq<Entry>, fr: Frame, s: State, u: State, id: Id, ref: Ref, v: Value, v': Value)
    requires At(t, w, lex, env, fr, s, u) && ValidIndex(t, lex.bindings) && RightRef(t, lex, id, ref) && R(t, w, v, v')
    requires ref.binding.Some? ==> t.bindings[ref.binding.value].isSet
    ensures var (fr', u') := if ref.binding.Some? then WriteVar(t, ref, v', fr, u) else (fr, u.(globals := u.globals[id := v']));
            After(t, w, w, lex, env, s, fr', Assign(env, id, v, s), u')
  {
    hide R, GoodEnv, Peek, Poke, FrameR, Steps;
    FrameFitsEnv(t, w, lex, env, fr, s);
    var i := LookupFits(t, lex.bindings, env, |s.mem|, id);
    if ref.binding.Some? {
      var b, loc := ref.binding.value, env[i].loc;
      FrameVar(t, w, lex, env, fr, s, i);
      if t.bindings[b].home == lex.method_ && !t.bindings[b].closedOver {
        AssignPrivate(t, w, lex, env, fr, i, v, v', s, u);
        assert b == lex.bindings[i] && Assign(env, id, v, s) == Store(s, loc, v);
        assert WriteVar(t, ref, v', fr, u) == (Poke(fr, HomePlace(t, b), v'), u);
      } else {
        assert Holds(t, w, b, loc, Peek(fr, RefPlace(t, b, ref)));
        AssignCell(t, w, lex, env, fr, loc, v, v', s, u);
      }
    } else {
      GlobalSet(t, w, lex, env, fr, s, u, id, v, v');
    }
  }

  lemma FrameFitsEnv(t: Tables, w: Link, lex: Lexenv, env: seq<Entry>, fr: Frame, s: State)
    requires FrameR(t, w, lex, env, fr, s)
    ensures EnvFits(t, lex.bindings, env, |s.mem|) && |env| == |lex.bindings|
  {
  }

  lemma FrameVar(t: Tables, w: Link, lex: Lexenv, env: seq<Entry>, fr: Frame, s: State, i: nat)
    requires FrameR(t, w, lex, env, fr, s) && i < |env|
    ensures i < |lex.bindings| && VarR(t, w, lex.method_, lex.bindings[i], env[i].loc, fr, s)
  {
  }

  lemma GlobalSet(t: Tables, w: Link, lex: Lexenv, env: seq<Entry>, fr: Frame, s: State, u: State, id: Id, v: Value, v': Value)
    requires At(t, w, lex, env, fr, s, u) && R(t, w, v, v')
    ensures After(t, w, w, lex, env, s, fr, s.(globals := s.globals[id := v]), u.(globals := u.globals[id := v']))
  {
    hide R, GoodEnv, VarR;
    var s' := s.(globals := s.globals[id := v]);
    EnvInRange(t, lex);
    forall i | 0 <= i < |env| ensures VarR(t, w, lex.method_, lex.bindings[i], env[i].loc, fr, s') {
      VarInStore(t, w, lex.method_, lex.bindings[i], env[i].loc, fr, s, s');
    }
  }

  // Variables do not depend on global ones.
  lemma VarInStore(t: Tables, w: Link, m: nat, b: nat, loc: nat, fr: Frame, s: State, s': State)
    requires VarR(t, w, m, b, loc, fr, s) && s'.mem == s.mem
    ensures VarR(t, w, m, b, loc, fr, s')
  {
    hide R, Holds;
  }

  // The slots that a method takes with it.
  lemma TakenSim(t: Tables, w: Link, lex: Lexenv, env: seq<Entry>, fr: Frame, s: State, u: State, mm: Method)
    requires At(t, w, lex, env, fr, s, u) && ScopedMethod(t, mm, lex)
    ensures R(t, w, Closure(mm, env), Flat(mm, TakenSlots(t, mm.id, fr)))
  {
    hide GoodEnv, StateR, FrameR, ScopedBody, Scoped, RightCloses;
    var info, slots := t.methods[mm.id], TakenSlots(t, mm.id, fr);
    BodyEnvGood(t, mm, lex);
    SameRightMethod(t, mm, lex);
    OuterHomesRight(t, mm, lex);
    FrameFitsEnv(t, w, lex, env, fr, s);
    assert w.size == |s.mem| by { SizeOfStore(t, w, s, u); }
    forall i, k | 0 <= i < |env| && 0 <= k < |slots| && info.closes[k].binding == info.outer[i]
      ensures Holds(t, w, info.outer[i], env[i].loc, slots[|slots| - 1 - k])
    {
      FrameVar(t, w, lex, env, fr, s, i);
      TakenHolds(t, w, lex, mm.id, k, env[i].loc, fr, s);
    }
  }

  lemma OuterHomesRight(t: Tables, mm: Method, lex: Lexenv)
    requires GoodEnv(t, lex) && RightMethod(t, mm, lex)
    ensures OuterHomes(t, mm.id)
  {
    forall i | 0 <= i < |lex.bindings| ensures lex.bindings[i] < |t.bindings| && t.bindings[lex.bindings[i]].home != mm.id {
      EnclosesBelow(t, t.bindings[lex.bindings[i]].home, lex.method_);
    }
  }

  lemma SizeOfStore(t: Tables, w: Link, s: State, u: State)
    requires StateR(t, w, s, u)
    ensures w.size == |s.mem|
  {
  }

  lemma SameRightMethod(t: Tables, mm: Method, lex: Lexenv)
    requires RightMethod(t, mm, lex)
    ensures RightMethod(t, mm, OuterEnv(t, mm.id))
  {
  }

  lemma TakenHolds(t: Tables, w: Link, lex: Lexenv, m: nat, k: nat, loc: nat, fr: Frame, s: State)
    requires m < |t.methods| && RightCloses(t, m, lex) && k < |t.methods[m].closes|
    requires VarR(t, w, lex.method_, t.methods[m].closes[k].binding, loc, fr, s)
    ensures Holds(t, w, t.methods[m].closes[k].binding, loc, Peek(fr, OverPlace(t, t.methods[m].closes[k])))
  {
    hide R, Peek;
    assert RightClose(t, t.methods[m].closes[k], lex);
  }

  // The simulation. Each lemma steps the program and the compiled program side by side.

  lemma {:induction false} Sim(m: Meaning, t: Tables, e: Expr, w: Link, lex: Lexenv, env: seq<Entry>,
                               fr: Frame, s: State, u: State, fuel: nat) returns (w': Link)
    requires Scoped(t, e, lex) && At(t, w, lex, env, fr, s, u)
    ensures Sims(t, w, w', lex, env, s, Eval(m, e, env, s, fuel), Run(m, t, e, fr, u, fuel))
    decreases fuel, 1, e, 1
  {
    hide R, At, After, Sims, AllR;
    match e
    case Var(id, ref) => w' := w; VarSim(m, t, e, w, lex, env, fr, s, u, fuel);
    case Lit(l) => w' := w; LitSim(m, t, e, w, lex, env, fr, s, u, fuel);
    case Call(f, args) => w' := CallSim(m, t, e, w, lex, env, fr, s, u, fuel);
    case Binary(op, l, r) => w' := BinarySim(m, t, e, w, lex, env, fr, s, u, fuel);
    case Values(f, args) => w' := ValuesSim(m, t, e, w, lex, env, fr, s, u, fuel);
    case Dot(a, f) => w' := DotSim(m, t, e, w, lex, env, fr, s, u, fuel);
    case MethodRef(mm) => w' := MethodSim(m, t, mm, w, lex, env, fr, s, u, fuel);
    case BodyExpr(b) => w' := BodySim(m, t, b, w, lex, env, fr, s, u, fuel);
    case If(c, a, b) => w' := IfSim(m, t, e, w, lex, env, fr, s, u, fuel);
    case Set(id, ref, value) => w' := SetSim(m, t, e, w, lex, env, fr, s, u, fuel);
    case Loop(b) => w' := LoopSim(m, t, e, w, lex, env, fr, s, u, fuel);
    case Repeat => w' := w; RepeatSim(m, t, w, lex, env, fr, s, u, fuel);
  }

  lemma VarSim(m: Meaning, t: Tables, e: Expr, w: Link, lex: Lexenv, env: seq<Entry>,
               fr: Frame, s: State, u: State, fuel: nat)
    requires e.Var? && Scoped(t, e, lex) && At(t, w, lex, env, fr, s, u)
    ensures Sims(t, w, w, lex, env, s, Eval(m, e, env, s, fuel), Run(m, t, e, fr, u, fuel))
  {
    hide R, After, At, ReadVar, Callable, SeenAlike;
    ReadSim(t, w, lex, env, fr, s, u, e.id, e.ref);
    AfterNothing(t, w, lex, env, fr, s, u);
    GlobalGet(t, w, lex, env, fr, s, u);
    if e.ref.binding.Some? && !s.mem[Lookup(env, e.id).value].Unset? {
      CallableAlike(m, t, w, s.mem[Lookup(env, e.id).value], ReadVar(t, e.ref, fr, u));
    }
  }

  lemma GlobalGet(t: Tables, w: Link, lex: Lexenv, env: seq<Entry>, fr: Frame, s: State, u: State)
    requires At(t, w, lex, env, fr, s, u)
    ensures GlobalsR(t, w, s.globals, u.globals) && SeenAlike(s, u)
  {
    hide R, SeenAlike;
    StatesAlike(t, w, s, u);
  }

  lemma LitSim(m: Meaning, t: Tables, e: Expr, w: Link, lex: Lexenv, env: seq<Entry>,
               fr: Frame, s: State, u: State, fuel: nat)
    requires e.Lit? && At(t, w, lex, env, fr, s, u)
    ensures Sims(t, w, w, lex, env, s, Eval(m, e, env, s, fuel), Run(m, t, e, fr, u, fuel))
  {
    hide After, At;
    AfterNothing(t, w, lex, env, fr, s, u);
    assert R(t, w, Prim(e.literal), Prim(e.literal));
  }

  lemma RepeatSim(m: Meaning, t: Tables, w: Link, lex: Lexenv, env: seq<Entry>,
                  fr: Frame, s: State, u: State, fuel: nat)
    requires At(t, w, lex, env, fr, s, u)
    ensures Sims(t, w, w, lex, env, s, Eval(m, Repeat, env, s, fuel), Run(m, t, Repeat, fr, u, fuel))
  {
    hide After, At;
    AfterNothing(t, w, lex, env, fr, s, u);
  }

  lemma CallableAlike(m: Meaning, t: Tables, w: Link, f: Value, g: Value)
    requires R(t, w, f, g)
    ensures Callable(m, f) == Callable(m, g)
  {
  }

  // An evaluated function that can be called, or cannot.
  lemma CallableSim(m: Meaning, t: Tables, w: Link, fs: seq<Value>, gs: seq<Value>)
    requires AllR(t, w, fs, gs)
    ensures Callable(m, First(fs)) == Callable(m, First(gs)) && R(t, w, First(fs), First(gs))
  {
    FirstR(t, w, fs, gs);
  }

  lemma SeenAfter(t: Tables, w: Link, w': Link, lex: Lexenv, env: seq<Entry>, s: State, fr': Frame, s': State, u': State)
    requires After(t, w, w', lex, env, s, fr', s', u')
    ensures SeenAlike(s', u')
  {
    hide R, StateR, SeenAlike, FrameR, GoodEnv;
    StatesAlike(t, w', s', u');
  }

  lemma {:induction false} CallSim(m: Meaning, t: Tables, e: Expr, w: Link, lex: Lexenv, env: seq<Entry>,
                                   fr: Frame, s: State, u: State, fuel: nat) returns (w': Link)
    requires e.Call? && Scoped(t, e, lex) && At(t, w, lex, env, fr, s, u)
    ensures Sims(t, w, w', lex, env, s, Eval(m, e, env, s, fuel), Run(m, t, e, fr, u, fuel))
    decreases fuel, 1, e, 0
  {
    hide R, After, At, AllR, Callable, SimsCall;
    w' := Sim(m, t, e.func, w, lex, env, fr, s, u, fuel);
    var o, r := Eval(m, e.func, env, s, fuel), Run(m, t, e.func, fr, u, fuel);
    if o.Done? {
      var w1 := w';
      SeenAfter(t, w, w1, lex, env, s, r.frame, o.state, r.outcome.state);
      CallableSim(m, t, w1, o.values, r.outcome.values);
      if Callable(m, First(o.values)) {
        AtAfter(t, w, w1, lex, env, s, r.frame, o.state, r.outcome.state);
        var w2 := ArgsSim(m, t, e.args, w1, lex, env, r.frame, o.state, r.outcome.state, fuel);
        var o2 := EvalArgs(m, e.args, env, o.state, fuel);
        var r2 := RunArgs(m, t, e.args, r.frame, r.outcome.state, fuel);
        w' := w2;
        if o2.Args? {
          AfterTransitive(t, w, w1, w2, lex, env, s, r.frame, o.state, r.outcome.state, r2.frame, o2.state, r2.outcome.state);
          w' := InvokeSim(m, t, w1, w2, lex, env, s, First(o.values), First(r.outcome.values), r2.frame,
                          o2.values, r2.outcome.values, o2.state, r2.outcome.state, w, fuel)
             by { AtAfter(t, w1, w2, lex, env, o.state, r2.frame, o2.state, r2.outcome.state); }
        } else if r2.outcome.Stop? {
          Chain(t, w, w1, w2, lex, env, s, r.frame, o.state, r.outcome.state, o2.outcome, Ran(r2.outcome.outcome, r2.frame));
        }
      }
    }
  }

  // A call after the function and the arguments have been evaluated.
  lemma {:induction false} InvokeSim(m: Meaning, t: Tables, w1: Link, w2: Link, lex: Lexenv, env: seq<Entry>, s: State,
                                     f: Value, g: Value, fr2: Frame, vs: seq<Value>, us: seq<Value>, s2: State, u2: State,
                                     w: Link, fuel: nat) returns (w': Link)
    requires R(t, w1, f, g) && Extends(w1, w2) && AllR(t, w2, vs, us) && After(t, w, w2, lex, env, s, fr2, s2, u2)
    ensures Sims(t, w, w', lex, env, s, Apply(m, f, vs, s2, fuel), Ran(Invoke(m, t, g, us, u2, fuel), fr2))
    decreases fuel, 0, 2
  {
    hide R, AllR, StateR, FrameR, After, Apply, Invoke, SimsCall, Sims;
    RExtends(t, w1, w2, f, g);
    assert StateR(t, w2, s2, u2) by { StateAfter(t, w, w2, lex, env, s, fr2, s2, u2); }
    w' := ApplySim(m, t, w2, f, g, vs, us, s2, u2, fuel);
    CallChain(t, w, w2, w', lex, env, s, fr2, s2, u2, Apply(m, f, vs, s2, fuel), Invoke(m, t, g, us, u2, fuel));
  }

  lemma StateAfter(t: Tables, w: Link, w': Link, lex: Lexenv, env: seq<Entry>, s: State, fr': Frame, s': State, u': State)
    requires After(t, w, w', lex, env, s, fr', s', u')
    ensures StateR(t, w', s', u')
  {
  }

  lemma {:induction false} ArgsSim(m: Meaning, t: Tables, args: Exprs, w: Link, lex: Lexenv, env: seq<Entry>,
                                   fr: Frame, s: State, u: State, fuel: nat) returns (w': Link)
    requires ScopedArgs(t, args, lex) && At(t, w, lex, env, fr, s, u)
    ensures SimsArgs(t, w, w', lex, env, s, EvalArgs(m, args, env, s, fuel), RunArgs(m, t, args, fr, u, fuel))
    decreases fuel, 1, args, 1
  {
    hide R, After, At, GoodEnv, Steps, Eval, Run;
    w' := w;
    if args.NoArgs? {
      AfterNothing(t, w, lex, env, fr, s, u);
    } else {
      w' := Sim(m, t, args.expr, w, lex, env, fr, s, u, fuel);
      var o, r := Eval(m, args.expr, env, s, fuel), Run(m, t, args.expr, fr, u, fuel);
      if o.Done? {
        var w1 := w';
        AtAfter(t, w, w1, lex, env, s, r.frame, o.state, r.outcome.state);
        FirstR(t, w1, o.values, r.outcome.values);
        var w2 := ArgsSim(m, t, args.rest, w1, lex, env, r.frame, o.state, r.outcome.state, fuel);
        var o2 := EvalArgs(m, args.rest, env, o.state, fuel);
        var r2 := RunArgs(m, t, args.rest, r.frame, r.outcome.state, fuel);
        w' := w2;
        if o2.Args? {
          AfterTransitive(t, w, w1, w2, lex, env, s, r.frame, o.state, r.outcome.state, r2.frame, o2.state, r2.outcome.state);
          AtAfter(t, w1, w2, lex, env, o.state, r2.frame, o2.state, r2.outcome.state);
          RExtends(t, w1, w2, First(o.values), First(r.outcome.values));
        } else if r2.outcome.Stop? {
          Chain(t, w, w1, w2, lex, env, s, r.frame, o.state, r.outcome.state, o2.outcome, Ran(r2.outcome.outcome, r2.frame));
        }
      }
    }
  }

  lemma FailsAlike(t: Tables, w: Link, s: State, u: State, world: World)
    requires StateR(t, w, s, u)
    ensures SeenAlike(s.(world := world), u.(world := world))
  {
    hide StateR;
    StatesAlike(t, w, s, u);
  }

  // What a builtin replies.
  lemma ReplySim(t: Tables, w: Link, r: Reply, vs: seq<Value>, us: seq<Value>, s: State, u: State)
    requires StateR(t, w, s, u) && AllR(t, w, vs, us)
    ensures SimsCall(t, w, w, s, Replied(r, vs, s), Replied(r, us, u))
    ensures SimsCall(t, w, w, s, RepliedOne(r, vs, s), RepliedOne(r, us, u))
  {
    hide R, SeenAlike;
    if r.Fails? { FailsAlike(t, w, s, u, r.world); }
    if r.Reply? {
      PickedR(t, w, r.picks, vs, us);
      FirstR(t, w, Picked(r.picks, vs), Picked(r.picks, us));
    }
  }

  lemma {:induction false} BinarySim(m: Meaning, t: Tables, e: Expr, w: Link, lex: Lexenv, env: seq<Entry>,
                                     fr: Frame, s: State, u: State, fuel: nat) returns (w': Link)
    requires e.Binary? && Scoped(t, e, lex) && At(t, w, lex, env, fr, s, u)
    ensures Sims(t, w, w', lex, env, s, Eval(m, e, env, s, fuel), Run(m, t, e, fr, u, fuel))
    decreases fuel, 1, e, 0
  {
    hide R, After, At, AllR, SimsCall, RepliedOne;
    w' := Sim(m, t, e.left, w, lex, env, fr, s, u, fuel);
    var o, r := Eval(m, e.left, env, s, fuel), Run(m, t, e.left, fr, u, fuel);
    if o.Done? {
      var w1 := w';
      AtAfter(t, w, w1, lex, env, s, r.frame, o.state, r.outcome.state);
      w' := Sim(m, t, e.right, w1, lex, env, r.frame, o.state, r.outcome.state, fuel);
      var o2, r2 := Eval(m, e.right, env, o.state, fuel), Run(m, t, e.right, r.frame, r.outcome.state, fuel);
      if o2.Done? {
        AfterTransitive(t, w, w1, w', lex, env, s, r.frame, o.state, r.outcome.state, r2.frame, o2.state, r2.outcome.state);
        BinaryReply(m, t, e.op, w, w1, w', lex, env, s, o.state, o.values, r.outcome.values, o2.values, r2.outcome.values,
                    r.frame, r.outcome.state, r2.frame, o2.state, r2.outcome.state);
      } else {
        Chain(t, w, w1, w', lex, env, s, r.frame, o.state, r.outcome.state, o2, r2);
      }
    }
  }

  lemma BinaryReply(m: Meaning, t: Tables, op: Magic, w: Link, w1: Link, w2: Link, lex: Lexenv, env: seq<Entry>, s: State, s1: State,
                    vs: seq<Value>, us: seq<Value>, vs2: seq<Value>, us2: seq<Value>,
                    fr1: Frame, u1: State, fr2: Frame, s2: State, u2: State)
    requires After(t, w, w2, lex, env, s, fr2, s2, u2) && After(t, w1, w2, lex, env, s1, fr2, s2, u2)
    requires AllR(t, w1, vs, us) && AllR(t, w2, vs2, us2)
    ensures var args, args' := [First(vs), First(vs2)], [First(us), First(us2)];
            Sims(t, w, w2, lex, env, s, RepliedOne(m.binary(op, Views(args), s2.world), args, s2),
                 Ran(RepliedOne(m.binary(op, Views(args'), u2.world), args', u2), fr2))
  {
    hide R, After, SimsCall, Sims, StateR, Views;
    var args, args' := [First(vs), First(vs2)], [First(us), First(us2)];
    AtAfter(t, w1, w2, lex, env, s1, fr2, s2, u2);
    FirstR(t, w1, vs, us);
    RExtends(t, w1, w2, First(vs), First(us));
    FirstR(t, w2, vs2, us2);
    AllLookAlike(t, w2, args, args');
    SeenAfter(t, w, w2, lex, env, s, fr2, s2, u2);
    StateAfter(t, w, w2, lex, env, s, fr2, s2, u2);
    var reply := m.binary(op, Views(args), s2.world);
    ReplySim(t, w2, reply, args, args', s2, u2);
    CallChain(t, w, w2, w2, lex, env, s, fr2, s2, u2, RepliedOne(reply, args, s2), RepliedOne(reply, args', u2));
  }

  lemma {:induction false} ValuesSim(m: Meaning, t: Tables, e: Expr, w: Link, lex: Lexenv, env: seq<Entry>,
                                     fr: Frame, s: State, u: State, fuel: nat) returns (w': Link)
    requires e.Values? && Scoped(t, e, lex) && At(t, w, lex, env, fr, s, u)
    ensures Sims(t, w, w', lex, env, s, Eval(m, e, env, s, fuel), Run(m, t, e, fr, u, fuel))
    decreases fuel, 1, e, 0
  {
    hide R, After, At, AllR;
    FindsValuesSim(m, t, e.values, w, lex, env, fr, s, u);
    w' := ArgsSim(m, t, e.args, w, lex, env, fr, s, u, fuel);
  }

  lemma FindsValuesSim(m: Meaning, t: Tables, f: Expr, w: Link, lex: Lexenv, env: seq<Entry>, fr: Frame, s: State, u: State)
    requires Scoped(t, f, lex) && At(t, w, lex, env, fr, s, u)
    ensures IsValues(m, f, env, s) ==> FindsValues(m, f, u)
  {
    hide R, At;
    if f.Var? {
      ReadSim(t, w, lex, env, fr, s, u, f.id, f.ref);
      GlobalGet(t, w, lex, env, fr, s, u);
      if f.id in s.globals { PrimR(t, w, s.globals[f.id], u.globals[f.id]); }
    }
  }

  lemma {:induction false} DotSim(m: Meaning, t: Tables, e: Expr, w: Link, lex: Lexenv, env: seq<Entry>,
                                  fr: Frame, s: State, u: State, fuel: nat) returns (w': Link)
    requires e.Dot? && Scoped(t, e, lex) && At(t, w, lex, env, fr, s, u)
    ensures Sims(t, w, w', lex, env, s, Eval(m, e, env, s, fuel), Run(m, t, e, fr, u, fuel))
    decreases fuel, 1, e, 0
  {
    hide R, After, At, AllR, Callable, SimsCall;
    w' := Sim(m, t, e.arg, w, lex, env, fr, s, u, fuel);
    var o, r := Eval(m, e.arg, env, s, fuel), Run(m, t, e.arg, fr, u, fuel);
    if o.Done? {
      var w1 := w';
      AtAfter(t, w, w1, lex, env, s, r.frame, o.state, r.outcome.state);
      w' := Sim(m, t, e.func, w1, lex, env, r.frame, o.state, r.outcome.state, fuel);
      var o2, r2 := Eval(m, e.func, env, o.state, fuel), Run(m, t, e.func, r.frame, r.outcome.state, fuel);
      if o2.Done? {
        var w2 := w';
        AfterTransitive(t, w, w1, w2, lex, env, s, r.frame, o.state, r.outcome.state, r2.frame, o2.state, r2.outcome.state);
        SeenAfter(t, w, w2, lex, env, s, r2.frame, o2.state, r2.outcome.state);
        CallableSim(m, t, w2, o2.values, r2.outcome.values);
        if Callable(m, First(o2.values)) {
          OneR(t, w1, w2, o.values, r.outcome.values)
            by { AtAfter(t, w1, w2, lex, env, o.state, r2.frame, o2.state, r2.outcome.state); }
          ExtendsItself(w2);
          w' := InvokeSim(m, t, w2, w2, lex, env, s, First(o2.values), First(r2.outcome.values), r2.frame,
                          [First(o.values)], [First(r.outcome.values)], o2.state, r2.outcome.state, w, fuel);
        }
      } else {
        Chain(t, w, w1, w', lex, env, s, r.frame, o.state, r.outcome.state, o2, r2);
      }
    }
  }

  lemma ExtendsItself(w: Link)
    ensures Extends(w, w)
  {
  }

  lemma OneR(t: Tables, w: Link, w': Link, vs: seq<Value>, us: seq<Value>)
    requires AllR(t, w, vs, us) && Extends(w, w')
    ensures AllR(t, w', [First(vs)], [First(us)])
  {
    hide R;
    FirstR(t, w, vs, us);
    RExtends(t, w, w', First(vs), First(us));
  }

  lemma {:induction false} IfSim(m: Meaning, t: Tables, e: Expr, w: Link, lex: Lexenv, env: seq<Entry>,
                                 fr: Frame, s: State, u: State, fuel: nat) returns (w': Link)
    requires e.If? && Scoped(t, e, lex) && At(t, w, lex, env, fr, s, u)
    ensures Sims(t, w, w', lex, env, s, Eval(m, e, env, s, fuel), Run(m, t, e, fr, u, fuel))
    decreases fuel, 1, e, 0
  {
    hide R, After, At, AllR;
    w' := Sim(m, t, e.cond, w, lex, env, fr, s, u, fuel);
    var o, r := Eval(m, e.cond, env, s, fuel), Run(m, t, e.cond, fr, u, fuel);
    if o.Done? {
      var w1 := w';
      AtAfter(t, w, w1, lex, env, s, r.frame, o.state, r.outcome.state);
      FirstR(t, w1, o.values, r.outcome.values);
      LooksAlike(t, w1, First(o.values), First(r.outcome.values));
      var arm := if First(o.values) != FALSE then e.consequent else e.alternate;
      w' := BodySim(m, t, arm, w1, lex, env, r.frame, o.state, r.outcome.state, fuel);
      Chain(t, w, w1, w', lex, env, s, r.frame, o.state, r.outcome.state,
            EvalBody(m, arm, env, o.state, fuel), RunBody(m, t, arm, r.frame, r.outcome.state, fuel));
    }
  }

  lemma {:induction false} SetSim(m: Meaning, t: Tables, e: Expr, w: Link, lex: Lexenv, env: seq<Entry>,
                                  fr: Frame, s: State, u: State, fuel: nat) returns (w': Link)
    requires e.Set? && Scoped(t, e, lex) && At(t, w, lex, env, fr, s, u)
    ensures Sims(t, w, w', lex, env, s, Eval(m, e, env, s, fuel), Run(m, t, e, fr, u, fuel))
    decreases fuel, 1, e, 0
  {
    hide R, After, At, WriteVar, Assign, RightRef;
    w' := Sim(m, t, e.value, w, lex, env, fr, s, u, fuel);
    var o, r := Eval(m, e.value, env, s, fuel), Run(m, t, e.value, fr, u, fuel);
    if o.Done? {
      AtAfter(t, w, w', lex, env, s, r.frame, o.state, r.outcome.state);
      var v, v' := First(o.values), First(r.outcome.values);
      FirstR(t, w', o.values, r.outcome.values);
      WriteSim(t, w', lex, env, r.frame, o.state, r.outcome.state, e.id, e.ref, v, v');
      var (fr2, u2) := if e.ref.binding.Some? then WriteVar(t, e.ref, v', r.frame, r.outcome.state)
                       else (r.frame, r.outcome.state.(globals := r.outcome.state.globals[e.id := v']));
      AfterTransitive(t, w, w', w', lex, env, s, r.frame, o.state, r.outcome.state, fr2, Assign(env, e.id, v, o.state), u2);
    }
  }

  lemma {:induction false} LoopSim(m: Meaning, t: Tables, e: Expr, w: Link, lex: Lexenv, env: seq<Entry>,
                                   fr: Frame, s: State, u: State, fuel: nat) returns (w': Link)
    requires e.Loop? && Scoped(t, e, lex) && At(t, w, lex, env, fr, s, u)
    ensures Sims(t, w, w', lex, env, s, Eval(m, e, env, s, fuel), Run(m, t, e, fr, u, fuel))
    decreases fuel, 1, e, 0
  {
    hide R, After, At, AllR;
    w' := BodySim(m, t, e.body, w, lex, env, fr, s, u, fuel);
    var o, r := EvalBody(m, e.body, env, s, fuel), RunBody(m, t, e.body, fr, u, fuel);
    if o.Again? && fuel > 0 {
      var w1 := w';
      AtAfter(t, w, w1, lex, env, s, r.frame, o.state, r.outcome.state);
      w' := Sim(m, t, e, w1, lex, env, r.frame, o.state, r.outcome.state, fuel - 1);
      Chain(t, w, w1, w', lex, env, s, r.frame, o.state, r.outcome.state,
            Eval(m, e, env, o.state, fuel - 1), Run(m, t, e, r.frame, r.outcome.state, fuel - 1));
    }
  }

  lemma {:induction false} MethodSim(m: Meaning, t: Tables, mm: Method, w: Link, lex: Lexenv, env: seq<Entry>,
                                     fr: Frame, s: State, u: State, fuel: nat) returns (w': Link)
    requires ScopedMethod(t, mm, lex) && At(t, w, lex, env, fr, s, u)
    ensures Sims(t, w, w', lex, env, s, EvalMethod(m, mm, env, s, fuel), RunMethod(m, t, mm, fr, u, fuel))
    decreases fuel, 1, mm, 1
  {
    hide R, After, At, TakenSlots, RightMethod;
    TakenSim(t, w, lex, env, fr, s, u, mm);
    w' := Sim(m, t, mm.specializers, w, lex, env, fr, s, u, fuel);
    var o, r := Eval(m, mm.specializers, env, s, fuel), Run(m, t, mm.specializers, fr, u, fuel);
    if o.Done? {
      AtAfter(t, w, w', lex, env, s, r.frame, o.state, r.outcome.state);
      RExtends(t, w, w', Closure(mm, env), Flat(mm, TakenSlots(t, mm.id, fr)));
    }
  }

  lemma {:induction false} BodySim(m: Meaning, t: Tables, b: Body, w: Link, lex: Lexenv, env: seq<Entry>,
                                   fr: Frame, s: State, u: State, fuel: nat) returns (w': Link)
    requires ScopedBody(t, b, lex) && At(t, w, lex, env, fr, s, u)
    ensures Sims(t, w, w', lex, env, s, EvalBody(m, b, env, s, fuel), RunBody(m, t, b, fr, u, fuel))
    decreases fuel, 1, b, 1
  {
    hide R, After, At, AllR;
    match b
    case Last(e) => w' := Sim(m, t, e, w, lex, env, fr, s, u, fuel);
    case Then(e, rest) =>
      w' := Sim(m, t, e, w, lex, env, fr, s, u, fuel);
      var o, r := Eval(m, e, env, s, fuel), Run(m, t, e, fr, u, fuel);
      if o.Done? {
        var w1 := w';
        AtAfter(t, w, w1, lex, env, s, r.frame, o.state, r.outcome.state);
        w' := BodySim(m, t, rest, w1, lex, env, r.frame, o.state, r.outcome.state, fuel);
        Chain(t, w, w1, w', lex, env, s, r.frame, o.state, r.outcome.state,
              EvalBody(m, rest, env, o.state, fuel), RunBody(m, t, rest, r.frame, r.outcome.state, fuel));
      }
    case Let(_, _, _, _, _, _) => w' := LetSim(m, t, b, w, lex, env, fr, s, u, fuel);
    case Local(_, _, _, _) => w' := LocalSim(m, t, b, w, lex, env, fr, s, u, fuel);
  }

  // The environment in a let or in local methods.
  ghost predicate Inner(t: Tables, lex: Lexenv, env: seq<Entry>, lex': Lexenv, env': seq<Entry>, n: nat, base: nat) {
    && n <= |lex'.bindings| == |env'| && lex'.method_ == lex.method_
    && lex'.bindings[n..] == lex.bindings && env'[n..] == env
    && (forall i :: 0 <= i < n ==>
          && lex'.bindings[i] < |t.bindings| && t.bindings[lex'.bindings[i]].home == lex.method_
          && env'[i].id == t.bindings[lex'.bindings[i]].id
          && base <= env'[i].loc < base + n)
    && (forall i, j :: 0 <= i < j < n ==> env'[i].loc != env'[j].loc)
  }

  // Entering it.
  lemma EnterScope(t: Tables, w: Link, lex: Lexenv, env: seq<Entry>, lex': Lexenv, env': seq<Entry>,
                   fr: Frame, s: State, u: State, vs: seq<Value>)
    requires At(t, w, lex, env, fr, s, u) && GoodEnv(t, lex') && Inner(t, lex, env, lex', env', |vs|, |s.mem|)
    ensures var w', s' := w.(size := w.size + |vs|), s.(mem := s.mem + vs);
            && StateR(t, w', s', u) && PartR(t, w', lex', env', fr, s', 0, |vs|)
            && Extends(w, w') && OnlyFrom(w, w', |s.mem|)
            && NewEntries(t, lex', env', |vs|, |s.mem|)
  {
    hide R, GoodEnv, Holds, StateR;
    var n := |vs|;
    var w', s' := w.(size := w.size + n), s.(mem := s.mem + vs);
    SizeOfStore(t, w, s, u);
    StoreGrows(t, w, s, u, vs);
    EnvInRange(t, lex');
    InnerFits(t, lex, env, lex', env', n, |s.mem|) by { FrameFitsEnv(t, w, lex, env, fr, s); }
    forall i | n <= i < |env'| ensures VarR(t, w', lex.method_, lex'.bindings[i], env'[i].loc, fr, s') {
      assert lex'.bindings[i] == lex'.bindings[n..][i - n] && env'[i] == env'[n..][i - n];
      FrameVar(t, w, lex, env, fr, s, i - n);
      VarStays(t, w, w', lex.method_, lex'.bindings[i], env'[i].loc, fr, s, s');
    }
    forall i | 0 <= i < n ensures env'[i].loc !in w.cells && env'[i].loc !in w.frozen {
      BelowSize(t, w, s, u);
    }
  }

  lemma BelowSize(t: Tables, w: Link, s: State, u: State)
    requires StateR(t, w, s, u)
    ensures (forall l :: l in w.cells ==> l < |s.mem|) && (forall l :: l in w.frozen ==> l < |s.mem|)
  {
    hide R;
  }

  lemma InnerFits(t: Tables, lex: Lexenv, env: seq<Entry>, lex': Lexenv, env': seq<Entry>, n: nat, base: nat)
    requires Inner(t, lex, env, lex', env', n, base) && EnvFits(t, lex.bindings, env, base)
    ensures EnvFits(t, lex'.bindings, env', base + n)
  {
    forall i | 0 <= i < |env'|
      ensures lex'.bindings[i] < |t.bindings| && env'[i].id == t.bindings[lex'.bindings[i]].id && env'[i].loc < base + n
      ensures i >= n ==> env'[i] == env[i - n] && env'[i].loc < base
    {
      if i >= n {
        assert lex'.bindings[i] == lex'.bindings[n..][i - n] && env'[i] == env'[n..][i - n];
      }
    }
  }

  // Leaving it.
  lemma LeaveScope(t: Tables, w: Link, w2: Link, w3: Link, lex: Lexenv, env: seq<Entry>, lex': Lexenv, env': seq<Entry>,
                   n: nat, s: State, s2: State, fr': Frame, s': State, u': State)
    requires GoodEnv(t, lex) && w.size == |s.mem| <= |s2.mem| && s2.mem[..|s.mem|] == s.mem
    requires Inner(t, lex, env, lex', env', n, |s.mem|)
    requires Extends(w, w2) && OnlyFrom(w, w2, |s.mem|) && After(t, w2, w3, lex', env', s2, fr', s', u')
    ensures After(t, w, w3, lex, env, s, fr', s', u')
  {
    hide R, GoodEnv, Holds, StateR;
    EnvInRange(t, lex);
    forall l | 0 <= l < |s.mem| && l !in w.cells && l !in Own(t, lex, env) ensures s'.mem[l] == s.mem[l] {
      if l in Own(t, lex', env') { OwnInner(t, lex, env, lex', env', n, |s.mem|, l); }
      assert s2.mem[..|s.mem|][l] == s2.mem[l];
    }
    forall i | 0 <= i < |env| ensures VarR(t, w3, lex.method_, lex.bindings[i], env[i].loc, fr', s') {
      assert lex.bindings[i] == lex'.bindings[n + i] && env[i] == env'[n + i];
    }
    assert EnvFits(t, lex.bindings, env, |s'.mem|) by { OuterFits(t, lex, env, lex', env', n, |s.mem|, |s'.mem|); }
  }

  lemma OwnInner(t: Tables, lex: Lexenv, env: seq<Entry>, lex': Lexenv, env': seq<Entry>, n: nat, base: nat, l: nat)
    requires Inner(t, lex, env, lex', env', n, base) && ValidIndex(t, lex'.bindings) && ValidIndex(t, lex.bindings)
    requires l < base && l in Own(t, lex', env')
    ensures l in Own(t, lex, env)
  {
    var i :| 0 <= i < |env'| && t.bindings[lex'.bindings[i]].home == lex'.method_
             && !t.bindings[lex'.bindings[i]].closedOver && env'[i].loc == l;
    assert i >= n;
    assert lex'.bindings[i] == lex.bindings[i - n] && env'[i] == env[i - n];
  }

  lemma OuterFits(t: Tables, lex: Lexenv, env: seq<Entry>, lex': Lexenv, env': seq<Entry>, n: nat, base: nat, size: nat)
    requires Inner(t, lex, env, lex', env', n, base) && EnvFits(t, lex'.bindings, env', size)
    ensures EnvFits(t, lex.bindings, env, size)
  {
    forall i | 0 <= i < |env| ensures lex.bindings[i] == lex'.bindings[n + i] && env[i] == env'[n + i] {}
  }

  // Leaving it with an outcome.
  lemma LeaveWith(t: Tables, w: Link, w1: Link, w2: Link, w3: Link, lex: Lexenv, env: seq<Entry>, lex': Lexenv, env': seq<Entry>,
                  n: nat, s: State, fr1: Frame, s1: State, u1: State, s2: State, o: Outcome, r: Ran)
    requires After(t, w, w1, lex, env, s, fr1, s1, u1)
    requires |s1.mem| <= |s2.mem| && s2.mem[..|s1.mem|] == s1.mem
    requires Inner(t, lex, env, lex', env', n, |s1.mem|)
    requires Extends(w1, w2) && OnlyFrom(w1, w2, |s1.mem|) && Sims(t, w2, w3, lex', env', s2, o, r)
    ensures Sims(t, w, w3, lex, env, s, o, r)
  {
    hide R, GoodEnv, AllR, Inner, FrameR, Steps;
    assert w1.size == |s1.mem| by { StateAfter(t, w, w1, lex, env, s, fr1, s1, u1); SizeOfStore(t, w1, s1, u1); }
    if o.Done? || o.Again? {
      LeaveScope(t, w1, w2, w3, lex, env, lex', env', n, s1, s2, r.frame, o.state, r.outcome.state);
    }
    assert Sims(t, w1, w3, lex, env, s1, o, r);
    Chain(t, w, w1, w3, lex, env, s, fr1, s1, u1, o, r);
  }

  lemma LetInner(t: Tables, lex: Lexenv, env: seq<Entry>, first: nat, ids: seq<Id>, base: nat)
    requires NewBindings(t, first, ids, lex.method_, false, lex.depth) && |env| == |lex.bindings|
    ensures Inner(t, lex, env, LetEnv(lex, first, |ids|), EntriesDown(ids, base) + env, |ids|, base)
    ensures ListedDown(LetEnv(lex, first, |ids|).bindings, first, |ids|)
  {
    var n := |ids|;
    var lex', env' := LetEnv(lex, first, n), EntriesDown(ids, base) + env;
    forall i | 0 <= i < n
      ensures lex'.bindings[i] < |t.bindings| && t.bindings[lex'.bindings[i]].home == lex.method_
      ensures env'[i].id == t.bindings[lex'.bindings[i]].id
    {
      assert lex'.bindings[i] == first + (n - 1 - i) && t.bindings[first + (n - 1 - i)].id == ids[n - 1 - i];
    }
  }

  lemma {:induction false} LetSim(m: Meaning, t: Tables, b: Body, w: Link, lex: Lexenv, env: seq<Entry>,
                                  fr: Frame, s: State, u: State, fuel: nat) returns (w': Link)
    requires b.Let? && ScopedBody(t, b, lex) && At(t, w, lex, env, fr, s, u)
    ensures Sims(t, w, w', lex, env, s, EvalBody(m, b, env, s, fuel), RunBody(m, t, b, fr, u, fuel))
    decreases fuel, 1, b, 0
  {
    hide R, After, At, AllR, GoodEnv, NewBindings, RoomFor, Inner, PopAll, Wanted;
    w' := Sim(m, t, b.init, w, lex, env, fr, s, u, fuel);
    var o, r := Eval(m, b.init, env, s, fuel), Run(m, t, b.init, fr, u, fuel);
    if o.Done? {
      var w1 := w';
      var ids := LetVars(b.vars, b.restVar);
      var vs, us := Wanted(o.values, |b.vars|, b.restVar.Some?), Wanted(r.outcome.values, |b.vars|, b.restVar.Some?);
      AtAfter(t, w, w1, lex, env, s, r.frame, o.state, r.outcome.state);
      WantedR(t, w1, o.values, r.outcome.values, |b.vars|, b.restVar.Some?);
      var w2 := EnterLet(t, w1, lex, env, r.frame, o.state, r.outcome.state, b.first, ids, vs, us);
      var lex', env' := LetEnv(lex, b.first, |ids|), EntriesDown(ids, |o.state.mem|) + env;
      var s2 := o.state.(mem := o.state.mem + vs);
      var (fr2, u2) := PopAll(t, b.first, us, |us|, r.frame, r.outcome.state);
      w' := BodySim(m, t, b.body, w2, lex', env', fr2, s2, u2, fuel);
      assert s2.mem[..|o.state.mem|] == o.state.mem;
      LeaveWith(t, w, w1, w2, w', lex, env, lex', env', |ids|, s, r.frame, o.state, r.outcome.state, s2,
                EvalBody(m, b.body, env', s2, fuel), RunBody(m, t, b.body, fr2, u2, fuel));
    }
  }

  lemma EnterLet(t: Tables, w: Link, lex: Lexenv, env: seq<Entry>, fr: Frame, s: State, u: State,
                 first: nat, ids: seq<Id>, vs: seq<Value>, us: seq<Value>) returns (w': Link)
    requires At(t, w, lex, env, fr, s, u) && |ids| == |vs| && AllR(t, w, vs, us)
    requires NewBindings(t, first, ids, lex.method_, false, lex.depth) && Older(lex.bindings, first)
    requires RoomFor(t, lex.method_, lex.depth + |ids|)
    ensures var lex', env' := LetEnv(lex, first, |ids|), EntriesDown(ids, |s.mem|) + env;
            var (fr', u') := PopAll(t, first, us, |us|, fr, u);
            && At(t, w', lex', env', fr', s.(mem := s.mem + vs), u')
            && Inner(t, lex, env, lex', env', |ids|, |s.mem|)
            && Extends(w, w') && OnlyFrom(w, w', |s.mem|)
  {
    hide R, GoodEnv, StateR, PartR, NewBindings, RoomFor, Inner, PopAll, NewEntries, ListedDown;
    var n, lex', env' := |ids|, LetEnv(lex, first, |ids|), EntriesDown(ids, |s.mem|) + env;
    var w1, s1 := w.(size := w.size + n), s.(mem := s.mem + vs);
    FrameFitsEnv(t, w, lex, env, fr, s);
    LetEnvGood(t, lex, first, ids);
    LetInner(t, lex, env, first, ids, |s.mem|);
    EnterScope(t, w, lex, env, lex', env', fr, s, u, vs);
    NewValues(t, w, w1, s, vs, us, ids, env);
    w' := PopAllSim(t, w1, lex', env', fr, s1, u, first, us, n, |s.mem|);
  }

  // The new places have the new values.
  lemma NewValues(t: Tables, w: Link, w': Link, s: State, vs: seq<Value>, us: seq<Value>, ids: seq<Id>, env: seq<Entry>)
    requires AllR(t, w, vs, us) && Extends(w, w') && |ids| == |vs|
    ensures ValuesR(t, w', s.(mem := s.mem + vs), EntriesDown(ids, |s.mem|) + env, us)
  {
    hide R;
    AllRExtends(t, w, w', vs, us);
    var env', s' := EntriesDown(ids, |s.mem|) + env, s.(mem := s.mem + vs);
    forall i | 0 <= i < |us| ensures env'[i].loc < |s'.mem| && R(t, w', s'.mem[env'[i].loc], us[|us| - 1 - i]) {
      assert s'.mem[env'[i].loc] == vs[|vs| - 1 - i];
    }
  }

  lemma LocalInner(t: Tables, lex: Lexenv, env: seq<Entry>, first: nat, ids: seq<Id>, base: nat)
    requires NewBindings(t, first, ids, lex.method_, false, lex.depth) && |env| == |lex.bindings|
    requires LocalFunctions(t, first, |ids|)
    ensures Inner(t, lex, env, LocalEnv(lex, first, |ids|), EntriesUp(ids, base) + env, |ids|, base)
    ensures forall i :: 0 <= i < |ids| ==>
              var bs := LocalEnv(lex, first, |ids|).bindings; bs[i] == first + i && t.bindings[bs[i]].isSet
  {
    var n := |ids|;
    var lex', env' := LocalEnv(lex, first, n), EntriesUp(ids, base) + env;
    forall i | 0 <= i < n
      ensures lex'.bindings[i] < |t.bindings| && t.bindings[lex'.bindings[i]].home == lex.method_
      ensures env'[i].id == t.bindings[lex'.bindings[i]].id
    {
      assert lex'.bindings[i] == first + i && t.bindings[first + i].id == ids[i];
    }
  }

  lemma PartWhole(t: Tables, w: Link, lex: Lexenv, env: seq<Entry>, fr: Frame, s: State, n: nat)
    requires PartR(t, w, lex, env, fr, s, n, n)
    ensures FrameR(t, w, lex, env, fr, s)
  {
  }

  lemma NewPlaces(ids: seq<Id>, env: seq<Entry>, s: State, vs: seq<Value>)
    requires |ids| == |vs|
    ensures var env', mem := EntriesUp(ids, |s.mem|) + env, s.mem + vs;
            forall i :: 0 <= i < |ids| ==> env'[i].loc < |mem| && mem[env'[i].loc] == vs[i]
  {
  }

  lemma LinksFrom(w: Link, w1: Link, w2: Link, n: nat)
    requires Extends(w, w1) && OnlyFrom(w, w1, n) && Extends(w1, w2) && OnlyFrom(w1, w2, n)
    ensures Extends(w, w2) && OnlyFrom(w, w2, n)
  {
  }

  lemma EnterLocal(t: Tables, w: Link, lex: Lexenv, env: seq<Entry>, fr: Frame, s: State, u: State,
                   first: nat, ids: seq<Id>, vs: seq<Value>) returns (w': Link)
    requires At(t, w, lex, env, fr, s, u) && |ids| == |vs| && forall i :: 0 <= i < |vs| ==> vs[i].Unset?
    requires NewBindings(t, first, ids, lex.method_, false, lex.depth) && Older(lex.bindings, first)
    requires RoomFor(t, lex.method_, lex.depth + |ids|) && LocalFunctions(t, first, |ids|)
    ensures var lex', env' := LocalEnv(lex, first, |ids|), EntriesUp(ids, |s.mem|) + env;
            var (fr', u') := MakeCells(t, first, |ids|, fr, u);
            && At(t, w', lex', env', fr', s.(mem := s.mem + vs), u')
            && Inner(t, lex, env, lex', env', |ids|, |s.mem|)
            && Extends(w, w') && OnlyFrom(w, w', |s.mem|)
  {
    hide R, GoodEnv, StateR, PartR, NewBindings, RoomFor, Inner, MakeCells, NewEntries, LocalFunctions, VarR, Extends, OnlyFrom;
    var n, lex', env' := |ids|, LocalEnv(lex, first, |ids|), EntriesUp(ids, |s.mem|) + env;
    var w1, s1 := w.(size := w.size + n), s.(mem := s.mem + vs);
    FrameFitsEnv(t, w, lex, env, fr, s);
    LetEnvGood(t, lex, first, ids);
    LocalInner(t, lex, env, first, ids, |s.mem|);
    EnterScope(t, w, lex, env, lex', env', fr, s, u, vs);
    NewPlaces(ids, env, s, vs);
    w' := MakeCellsSim(t, w1, lex', env', fr, s1, u, first, n, n, |s.mem|);
    var (fr', u') := MakeCells(t, first, n, fr, u);
    PartWhole(t, w', lex', env', fr', s1, n);
    LinksFrom(w, w1, w', |s.mem|);
  }

  lemma {:induction false} LocalSim(m: Meaning, t: Tables, b: Body, w: Link, lex: Lexenv, env: seq<Entry>,
                                    fr: Frame, s: State, u: State, fuel: nat) returns (w': Link)
    requires b.Local? && ScopedBody(t, b, lex) && At(t, w, lex, env, fr, s, u)
    ensures Sims(t, w, w', lex, env, s, EvalBody(m, b, env, s, fuel), RunBody(m, t, b, fr, u, fuel))
    decreases fuel, 1, b, 0
  {
    hide R, After, At, AllR, GoodEnv, NewBindings, RoomFor, Inner, MakeCells, LocalFunctions;
    var ids := Names(b.methods);
    var vs := seq(|ids|, _ => Unset);
    var w2 := EnterLocal(t, w, lex, env, fr, s, u, b.first, ids, vs);
    var lex', env' := LocalEnv(lex, b.first, |ids|), EntriesUp(ids, |s.mem|) + env;
    var s2 := s.(mem := s.mem + vs);
    assert s2.mem[..|s.mem|] == s.mem;
    var (fr2, u2) := MakeCells(t, b.first, |ids|, fr, u);
    AfterNothing(t, w, lex, env, fr, s, u);
    LocalRun(t, lex, env, b.first, ids, |s.mem|);
    var w3 := MethodsSim(m, t, b.methods, w2, lex', env', fr2, s2, u2, fuel, 0, b.first, |s.mem|);
    var o, r := EvalMethods(m, b.methods, |s.mem|, env', s2, fuel), RunMethods(m, t, b.methods, b.first, fr2, u2, fuel);
    w' := w3;
    if o.Done? {
      AtAfter(t, w2, w3, lex', env', s2, r.frame, o.state, r.outcome.state);
      w' := BodySim(m, t, b.body, w3, lex', env', r.frame, o.state, r.outcome.state, fuel);
      Chain(t, w2, w3, w', lex', env', s2, r.frame, o.state, r.outcome.state,
            EvalBody(m, b.body, env', o.state, fuel), RunBody(m, t, b.body, r.frame, r.outcome.state, fuel));
    }
    LeaveWith(t, w, w, w2, w', lex, env, lex', env', |ids|, s, fr, s, u, s2,
              EvalBody(m, b, env, s, fuel), RunBody(m, t, b, fr, u, fuel)) by { ExtendsItself(w); }
  }

  // From index i on, the environment has the variables of local methods.
  ghost predicate Locals(t: Tables, lex: Lexenv, env: seq<Entry>, i: nat, n: nat, b: nat, loc: nat) {
    && i + n <= |lex.bindings| == |env|
    && forall k :: i <= k < i + n ==>
         && lex.bindings[k] == b + k - i && env[k].loc == loc + k - i
         && lex.bindings[k] < |t.bindings| && t.bindings[lex.bindings[k]].home == lex.method_ && t.bindings[lex.bindings[k]].isSet
  }

  lemma LocalRun(t: Tables, lex: Lexenv, env: seq<Entry>, first: nat, ids: seq<Id>, base: nat)
    requires NewBindings(t, first, ids, lex.method_, false, lex.depth) && LocalFunctions(t, first, |ids|)
    requires Inner(t, lex, env, LocalEnv(lex, first, |ids|), EntriesUp(ids, base) + env, |ids|, base)
    ensures Locals(t, LocalEnv(lex, first, |ids|), EntriesUp(ids, base) + env, 0, |ids|, first, base)
  {
  }

  lemma StoreSim(t: Tables, w: Link, lex: Lexenv, env: seq<Entry>, fr: Frame, s: State, u: State, i: nat, v: Value, v': Value)
    requires At(t, w, lex, env, fr, s, u) && R(t, w, v, v') && i < |lex.bindings| == |env|
    requires lex.bindings[i] < |t.bindings| && t.bindings[lex.bindings[i]].home == lex.method_ && t.bindings[lex.bindings[i]].isSet
    ensures var (fr', u') := StoreMethod(t, lex.bindings[i], v', fr, u);
            After(t, w, w, lex, env, s, fr', Store(s, env[i].loc, v), u')
  {
    hide R, GoodEnv, Peek, Poke, FrameR, Steps;
    EnvInRange(t, lex);
    FrameVar(t, w, lex, env, fr, s, i);
    var b, loc := lex.bindings[i], env[i].loc;
    if t.bindings[b].closedOver {
      assert Holds(t, w, b, loc, Peek(fr, HomePlace(t, b)));
      AssignCell(t, w, lex, env, fr, loc, v, v', s, u);
    } else {
      AssignPrivate(t, w, lex, env, fr, i, v, v', s, u);
    }
  }

  // The next local method has its variable in the environment.
  lemma NextLocal(t: Tables, lex: Lexenv, env: seq<Entry>, i: nat, n: nat, b: nat, loc: nat)
    requires Locals(t, lex, env, i, n, b, loc) && n > 0
    ensures i < |lex.bindings| == |env| && lex.bindings[i] == b < |t.bindings| && env[i].loc == loc
    ensures t.bindings[b].home == lex.method_ && t.bindings[b].isSet
    ensures Locals(t, lex, env, i + 1, n - 1, b + 1, loc + 1)
  {
  }

  lemma {:induction false} MethodsSim(m: Meaning, t: Tables, ms: Methods, w: Link, lex: Lexenv, env: seq<Entry>,
                                      fr: Frame, s: State, u: State, fuel: nat, i: nat, b: nat, loc: nat) returns (w': Link)
    requires ScopedMethods(t, ms, lex) && At(t, w, lex, env, fr, s, u) && Locals(t, lex, env, i, |Names(ms)|, b, loc)
    ensures Sims(t, w, w', lex, env, s, EvalMethods(m, ms, loc, env, s, fuel), RunMethods(m, t, ms, b, fr, u, fuel))
    decreases fuel, 1, ms, 1
  {
    hide R, After, At, StoreMethod, Store, EvalMethod, RunMethod, GoodEnv, Locals, ScopedMethod, Steps;
    w' := w;
    if ms.NoMethods? {
      AfterNothing(t, w, lex, env, fr, s, u);
    } else {
      w' := MethodSim(m, t, ms.method_, w, lex, env, fr, s, u, fuel);
      var o, r := EvalMethod(m, ms.method_, env, s, fuel), RunMethod(m, t, ms.method_, fr, u, fuel);
      if o.Done? {
        var w1 := w';
        AtAfter(t, w, w1, lex, env, s, r.frame, o.state, r.outcome.state);
        var v, v' := First(o.values), First(r.outcome.values);
        FirstR(t, w1, o.values, r.outcome.values);
        NextLocal(t, lex, env, i, |Names(ms)|, b, loc);
        StoreSim(t, w1, lex, env, r.frame, o.state, r.outcome.state, i, v, v');
        var (fr2, u2) := StoreMethod(t, b, v', r.frame, r.outcome.state);
        var s2 := Store(o.state, loc, v);
        AfterTransitive(t, w, w1, w1, lex, env, s, r.frame, o.state, r.outcome.state, fr2, s2, u2);
        AtAfter(t, w, w1, lex, env, s, fr2, s2, u2);
        w' := MethodsSim(m, t, ms.rest, w1, lex, env, fr2, s2, u2, fuel, i + 1, b + 1, loc + 1);
        Chain(t, w, w1, w', lex, env, s, fr2, s2, u2,
              EvalMethods(m, ms.rest, loc + 1, env, s2, fuel), RunMethods(m, t, ms.rest, b + 1, fr2, u2, fuel));
      }
    }
  }

  // The frame of a call: the parameters, and the variables that the method closes over.

  lemma NewFrameFits(m: Meaning, t: Tables, mm: Method, f: Value, params: seq<Value>, slots: seq<Value>)
    requires mm.id < |t.methods| && |params| == |mm.Params()| && |slots| == |t.methods[mm.id].closes|
    requires t.methods[mm.id].nargs == |mm.Params()| + 1 + |slots|
    ensures var fr := NewFrame(m, t, f, params, slots, mm.id);
            && FrameFits(t, mm.id, fr)
            && forall k :: 0 <= k < |slots| ==> Peek(fr, ArgPlace(k)) == slots[|slots| - 1 - k]
  {
    var fr := NewFrame(m, t, f, params, slots, mm.id);
    forall k | 0 <= k < |slots| ensures Peek(fr, ArgPlace(k)) == slots[|slots| - 1 - k] {
      assert fr.below[2 + |params| + (|slots| - 1 - k)] == slots[|slots| - 1 - k];
    }
  }

  lemma NewFrameParam(m: Meaning, t: Tables, mm: Method, f: Value, params: seq<Value>, slots: seq<Value>, j: nat)
    requires mm.id < |t.methods| && |params| == |mm.Params()|
    requires t.methods[mm.id].nargs == |mm.Params()| + 1 + |slots| && j < |BoundValues(mm, params)|
    ensures Peek(NewFrame(m, t, f, params, slots, mm.id), ArgPlace(t.methods[mm.id].nargs - j - 1)) == BoundValues(mm, params)[j]
  {
    var fr := NewFrame(m, t, f, params, slots, mm.id);
    assert fr.below[1 + j] == if j < |params| then params[j] else NO_NEXT;
  }

  // The environment of a body.
  lemma BodyInner(t: Tables, mm: Method, env: seq<Entry>, base: nat)
    requires GoodMethod(t, mm) && EnvFits(t, t.methods[mm.id].outer, env, base)
    ensures var lex, env', n := BodyEnv(t, mm), EntriesDown(mm.Bound(), base) + env, |mm.Bound()|;
            && EnvFits(t, lex.bindings, env', base + n) && NewEntries(t, lex, env', n, base)
            && ListedDown(lex.bindings, t.methods[mm.id].firstParam, n)
            && (forall i :: 0 <= i < n ==> HomePlace(t, lex.bindings[i]) == ArgPlace(t.methods[mm.id].nargs - (n - 1 - i) - 1))
            && (forall i :: n <= i < |env'| ==> lex.bindings[i] == t.methods[mm.id].outer[i - n] && env'[i] == env[i - n])
  {
    hide GoodEnv, ScopedBody, RightCloses;
    var lex, env', n := BodyEnv(t, mm), EntriesDown(mm.Bound(), base) + env, |mm.Bound()|;
    var first := t.methods[mm.id].firstParam;
    EnvInRange(t, lex);
    forall i | 0 <= i < n
      ensures t.bindings[lex.bindings[i]].home == mm.id && env'[i].id == t.bindings[lex.bindings[i]].id
      ensures HomePlace(t, lex.bindings[i]) == ArgPlace(t.methods[mm.id].nargs - (n - 1 - i) - 1)
    {
      assert lex.bindings[i] == first + (n - 1 - i) && t.bindings[first + (n - 1 - i)].id == mm.Bound()[n - 1 - i];
    }
  }

  // Entering a body.
  lemma EnterBody(m: Meaning, t: Tables, w: Link, mm: Method, env: seq<Entry>, g: Value, s: State, u: State,
                  params: seq<Value>, params': seq<Value>) returns (w': Link)
    requires StateR(t, w, s, u) && R(t, w, Closure(mm, env), g) && AllR(t, w, params, params') && |params| == |mm.Params()|
    ensures mm.id < |t.methods| && g.Flat? && ScopedBody(t, mm.body, BodyEnv(t, mm))
    ensures var lex, env' := BodyEnv(t, mm), EntriesDown(mm.Bound(), |s.mem|) + env;
            var (fr, u') := BoxParams(t, t.methods[mm.id].firstParam, |mm.Bound()|, NewFrame(m, t, g, params', g.slots, mm.id), u);
            && At(t, w', lex, env', fr, s.(mem := s.mem + BoundValues(mm, params)), u')
            && Extends(w, w') && OnlyFrom(w, w', |s.mem|)
  {
    hide GoodEnv, ScopedBody, StateR, BoxParams, NewFrame, RightCloses, NewEntries, ListedDown, Peek, PartR, AllR, BoundValues, Holds;
    var vs, us, n := BoundValues(mm, params), BoundValues(mm, params'), |mm.Bound()|;
    var lex, env' := BodyEnv(t, mm), EntriesDown(mm.Bound(), |s.mem|) + env;
    var w1, s1 := w.(size := w.size + n), s.(mem := s.mem + vs);
    var fr := NewFrame(m, t, g, params', g.slots, mm.id);
    BoundValuesR(t, w, mm, params, params');
    SizeOfStore(t, w, s, u);
    StoreGrows(t, w, s, u, vs);
    NewFrameFits(m, t, mm, g, params', g.slots);
    BodyInner(t, mm, env, |s.mem|);
    NewValues(t, w, w1, s, vs, us, mm.Bound(), env);
    FreshBody(t, w, w1, mm, env, g, fr, s, u, vs);
    forall i | 0 <= i < n ensures Peek(fr, HomePlace(t, lex.bindings[i])) == us[n - 1 - i] {
      NewFrameParam(m, t, mm, g, params', g.slots, n - 1 - i);
    }
    w' := BoxParamsSim(t, w1, lex, env', fr, s1, u, t.methods[mm.id].firstParam, us, n, |s.mem|);
  }

  lemma BoundValuesR(t: Tables, w: Link, mm: Method, params: seq<Value>, params': seq<Value>)
    requires AllR(t, w, params, params') && |params| == |mm.Params()|
    ensures AllR(t, w, BoundValues(mm, params), BoundValues(mm, params'))
    ensures |BoundValues(mm, params)| == |BoundValues(mm, params')| == |mm.Bound()| && |params'| == |params|
  {
    assert R(t, w, NO_NEXT, NO_NEXT);
  }

  // The new frame has the variables that the method closes over.
  lemma FreshBody(t: Tables, w: Link, w1: Link, mm: Method, env: seq<Entry>, g: Value, fr: Frame, s: State, u: State, vs: seq<Value>)
    requires StateR(t, w, s, u) && R(t, w, Closure(mm, env), g) && |vs| == |mm.Bound()| && w1 == w.(size := w.size + |vs|)
    requires FrameFits(t, mm.id, fr)
    requires forall k :: 0 <= k < |g.slots| ==> Peek(fr, ArgPlace(k)) == g.slots[|g.slots| - 1 - k]
    ensures PartR(t, w1, BodyEnv(t, mm), EntriesDown(mm.Bound(), |s.mem|) + env, fr, s.(mem := s.mem + vs), 0, |vs|)
  {
    hide GoodEnv, ScopedBody, RightCloses, Peek, StateR, NewEntries, ListedDown;
    var lex, env', n := BodyEnv(t, mm), EntriesDown(mm.Bound(), |s.mem|) + env, |vs|;
    SizeOfStore(t, w, s, u);
    BodyInner(t, mm, env, |s.mem|);
    BelowSize(t, w, s, u);
    forall i | n <= i < |env'| ensures VarR(t, w1, mm.id, lex.bindings[i], env'[i].loc, fr, s.(mem := s.mem + vs)) {
      CapturedVar(t, w, w1, mm, env, g, fr, i - n);
    }
  }

  lemma CapturedVar(t: Tables, w: Link, w1: Link, mm: Method, env: seq<Entry>, g: Value, fr: Frame, i: nat)
    requires R(t, w, Closure(mm, env), g) && i < |env| && Extends(w, w1)
    requires forall k :: 0 <= k < |g.slots| ==> Peek(fr, ArgPlace(k)) == g.slots[|g.slots| - 1 - k]
    ensures t.methods[mm.id].outer[i] < |t.bindings| && t.bindings[t.methods[mm.id].outer[i]].home != mm.id
    ensures forall k: nat :: ClosesOver(t, mm.id, t.methods[mm.id].outer[i], k) ==>
              Holds(t, w1, t.methods[mm.id].outer[i], env[i].loc, Peek(fr, ArgPlace(k)))
  {
    hide GoodEnv, ScopedBody, RightMethod, Peek;
    var b := t.methods[mm.id].outer[i];
    forall k: nat | ClosesOver(t, mm.id, b, k) ensures Holds(t, w1, b, env[i].loc, Peek(fr, ArgPlace(k))) {
      HoldsExtends(t, w, w1, b, env[i].loc, g.slots[|g.slots| - 1 - k]);
    }
  }

  // Only the callee's own variables and cells change.
  lemma LeaveBody(t: Tables, w: Link, w2: Link, w3: Link, mm: Method, env: seq<Entry>, s: State, s2: State, fr': Frame, s': State, u': State)
    requires GoodMethod(t, mm) && EnvFits(t, t.methods[mm.id].outer, env, |s.mem|) && w.size == |s.mem|
    requires |s.mem| <= |s2.mem| && s2.mem[..|s.mem|] == s.mem && Extends(w, w2) && OnlyFrom(w, w2, |s.mem|)
    requires After(t, w2, w3, BodyEnv(t, mm), EntriesDown(mm.Bound(), |s.mem|) + env, s2, fr', s', u')
    ensures Steps(t, w, w3, {}, s, s', u')
  {
    hide R, GoodEnv, ScopedBody, RightMethod, StateR, FrameR;
    var lex, env' := BodyEnv(t, mm), EntriesDown(mm.Bound(), |s.mem|) + env;
    BodyInner(t, mm, env, |s.mem|);
    EnvInRange(t, lex);
    forall l | 0 <= l < |s.mem| && l !in w.cells ensures s'.mem[l] == s.mem[l] {
      assert l !in Own(t, lex, env');
      assert s2.mem[..|s.mem|][l] == s2.mem[l];
    }
  }

  /** A call. */
  lemma {:induction false} ApplySim(m: Meaning, t: Tables, w: Link, f: Value, g: Value, vs: seq<Value>, us: seq<Value>,
                                    s: State, u: State, fuel: nat) returns (w': Link)
    requires R(t, w, f, g) && AllR(t, w, vs, us) && StateR(t, w, s, u)
    ensures SimsCall(t, w, w', s, Apply(m, f, vs, s, fuel), Invoke(m, t, g, us, u, fuel))
    decreases fuel, 0, 1
  {
    hide R, After, At, GoodEnv, StateR, ScopedBody, RightMethod, BoxParams, NewFrame, Steps;
    w' := w;
    match f
    case Prim(l) =>
      AllLookAlike(t, w, vs, us);
      StatesAlike(t, w, s, u);
      PrimR(t, w, f, g);
      ReplySim(t, w, m.builtin(l, Views(vs), s.world), vs, us, s, u);
    case Closure(mm, env) =>
      ClosureR(t, w, f, g);
      ParamValuesR(t, w, mm, vs, us);
      StatesAlike(t, w, s, u);
      if ParamValues(mm, vs).Some? && fuel > 0 {
        w' := BodyCallSim(m, t, w, mm, env, g, ParamValues(mm, vs).value, ParamValues(mm, us).value, s, u, fuel);
      }
    case _ =>
      OtherR(t, w, f, g);
      StatesAlike(t, w, s, u);
  }

  lemma PrimR(t: Tables, w: Link, f: Value, g: Value)
    requires R(t, w, f, g)
    ensures f.Prim? ==> g == f
  {
  }

  lemma ClosureR(t: Tables, w: Link, f: Value, g: Value)
    requires R(t, w, f, g) && f.Closure?
    ensures g.Flat? && g.method_ == f.method_ && GoodMethod(t, f.method_)
    ensures EnvFits(t, t.methods[f.method_.id].outer, f.env, w.size)
  {
  }

  lemma OtherR(t: Tables, w: Link, f: Value, g: Value)
    requires R(t, w, f, g) && !f.Prim? && !f.Closure?
    ensures g.Vector?
  {
  }

  lemma {:induction false} BodyCallSim(m: Meaning, t: Tables, w: Link, mm: Method, env: seq<Entry>, g: Value,
                                       params: seq<Value>, params': seq<Value>, s: State, u: State, fuel: nat) returns (w': Link)
    requires R(t, w, Closure(mm, env), g) && g.Flat? && g.method_ == mm && GoodMethod(t, mm)
    requires EnvFits(t, t.methods[mm.id].outer, env, w.size)
    requires AllR(t, w, params, params') && |params| == |mm.Params()| && StateR(t, w, s, u) && fuel > 0
    ensures var env', s2 := EntriesDown(mm.Bound(), |s.mem|) + env, s.(mem := s.mem + BoundValues(mm, params));
            var (fr, u2) := BoxParams(t, t.methods[mm.id].firstParam, |mm.Bound()|, NewFrame(m, t, g, params', g.slots, mm.id), u);
            var o, r := EvalBody(m, mm.body, env', s2, fuel - 1), RunBody(m, t, mm.body, fr, u2, fuel - 1);
            SimsCall(t, w, w', s, if o.Again? then Wrong else o, if r.outcome.Again? then Wrong else r.outcome)
    decreases fuel, 0, 0
  {
    hide R, After, At, GoodEnv, StateR, ScopedBody, RightMethod, BoxParams, NewFrame, EvalBody, RunBody, Steps;
    SizeOfStore(t, w, s, u);
    var lex, env' := BodyEnv(t, mm), EntriesDown(mm.Bound(), |s.mem|) + env;
    var s2 := s.(mem := s.mem + BoundValues(mm, params));
    var (fr, u2) := BoxParams(t, t.methods[mm.id].firstParam, |mm.Bound()|, NewFrame(m, t, g, params', g.slots, mm.id), u);
    var w2 := EnterBody(m, t, w, mm, env, g, s, u, params, params');
    w' := BodySim(m, t, mm.body, w2, lex, env', fr, s2, u2, fuel - 1);
    var o, r := EvalBody(m, mm.body, env', s2, fuel - 1), RunBody(m, t, mm.body, fr, u2, fuel - 1);
    assert s2.mem[..|s.mem|] == s.mem;
    if o.Done? {
      LeaveBody(t, w, w2, w', mm, env, s, s2, r.frame, o.state, r.outcome.state);
    }
  }
}
