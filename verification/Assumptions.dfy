/**
 When what the compiler takes for granted is so.

 A call of a local method is not checked. In the place of a function, the first of several values
 is checked before the others are evaluated, and an assigned value before it is assigned. A program
 that assigns nothing but methods to its local methods, and calls nothing that is checked early,
 means the same with and without these assumptions.
 */
module Assumptions {
  import opened Wrappers
  import opened Programs
  import opened Growth
  import opened Analysis
  import opened Semantics
  import opened Slots
  import opened Relation
  import opened Boxing

  // The language under the assumptions of the compiler.
  function Assuming(m: Meaning, t: Tables): Meaning {
    m.(assumed := Some((b: nat) => Noted(t, b).function_))
  }

  /** A local method is assigned only methods, and no function to be called is checked early. */
  predicate Tame(t: Tables, e: Expr)
    decreases e
  {
    match e
    case Var(_, _) => true
    case Lit(_) => true
    case Call(f, args) => !CheckedEarly(f) && Tame(t, f) && TameArgs(t, args)
    case Binary(_, l, r) => Tame(t, l) && Tame(t, r)
    case Values(f, args) => Tame(t, f) && TameArgs(t, args)
    case Dot(a, f) => !CheckedEarly(f) && Tame(t, a) && Tame(t, f)
    case MethodRef(mm) => TameMethod(t, mm)
    case BodyExpr(b) => TameBody(t, b)
    case If(c, a, b) => Tame(t, c) && TameBody(t, a) && TameBody(t, b)
    case Set(_, ref, v) => (ref.binding.Some? && Noted(t, ref.binding.value).function_ ==> v.MethodRef?) && Tame(t, v)
    case Loop(b) => TameBody(t, b)
    case Repeat => true
  }

  predicate TameArgs(t: Tables, args: Exprs)
    decreases args
  {
    args.Arg? ==> Tame(t, args.expr) && TameArgs(t, args.rest)
  }

  predicate TameBody(t: Tables, b: Body)
    decreases b
  {
    match b
    case Last(e) => Tame(t, e)
    case Then(e, rest) => Tame(t, e) && TameBody(t, rest)
    case Let(_, _, init, _, _, body) => Tame(t, init) && TameBody(t, body)
    case Local(ms, _, _, body) => TameMethods(t, ms) && TameBody(t, body)
  }

  predicate TameMethods(t: Tables, ms: Methods)
    decreases ms
  {
    ms.AMethod? ==> TameMethod(t, ms.method_) && TameMethods(t, ms.rest)
  }

  predicate TameMethod(t: Tables, mm: Method)
    decreases mm
  {
    Tame(t, mm.specializers) && TameBody(t, mm.body)
  }

  // The places of local methods in the store, and its size.
  datatype Places = Places(functions: set<nat>, size: nat)

  ghost predicate Later(p: Places, p': Places) {
    && p.size <= p'.size && p.functions <= p'.functions
    && forall l :: l in p'.functions ==> l in p.functions || l >= p.size
  }

  // The local methods of the environment have places for local methods.
  ghost predicate EnvOk(t: Tables, p: Places, bs: seq<nat>, env: seq<Entry>) {
    && EnvFits(t, bs, env, p.size)
    && forall i :: 0 <= i < |bs| ==> (t.bindings[bs[i]].function_ <==> env[i].loc in p.functions)
  }

  ghost predicate ValueOk(t: Tables, p: Places, v: Value)
    decreases v
  {
    match v
    case Vector(es) => forall i :: 0 <= i < |es| ==> ValueOk(t, p, es[i])
    case Closure(mm, env) => GoodMethod(t, mm) && TameBody(t, mm.body) && EnvOk(t, p, t.methods[mm.id].outer, env)
    case _ => true
  }

  ghost predicate AllOk(t: Tables, p: Places, vs: seq<Value>) {
    forall i :: 0 <= i < |vs| ==> ValueOk(t, p, vs[i])
  }

  // A place for a local method never holds anything else.
  ghost predicate StoreOk(t: Tables, p: Places, s: State) {
    && p.size == |s.mem| && AllOk(t, p, s.mem)
    && (forall id :: id in s.globals ==> ValueOk(t, p, s.globals[id]))
    && (forall l :: l in p.functions ==> l < |s.mem| && (s.mem[l].Unset? || s.mem[l].Closure?))
  }

  ghost predicate Here(t: Tables, p: Places, lex: Lexenv, env: seq<Entry>, s: State) {
    GoodEnv(t, lex) && EnvOk(t, p, lex.bindings, env) && StoreOk(t, p, s)
  }

  ghost predicate Kept(t: Tables, p: Places, p': Places, o: Outcome) {
    match o
    case Done(vs, s) => Later(p, p') && StoreOk(t, p', s) && AllOk(t, p', vs)
    case Again(s) => Later(p, p') && StoreOk(t, p', s)
    case _ => true
  }

  ghost predicate KeptArgs(t: Tables, p: Places, p': Places, o: ArgsOutcome) {
    match o
    case Args(vs, s) => Later(p, p') && StoreOk(t, p', s) && AllOk(t, p', vs)
    case Stop(x) => !x.Done? && !x.Again?
  }

  lemma LaterTransitive(p: Places, p1: Places, p2: Places)
    requires Later(p, p1) && Later(p1, p2)
    ensures Later(p, p2)
  {
  }

  lemma EnvLater(t: Tables, p: Places, p': Places, bs: seq<nat>, env: seq<Entry>)
    requires EnvOk(t, p, bs, env) && Later(p, p')
    ensures EnvOk(t, p', bs, env)
  {
  }

  lemma {:induction false} ValueLater(t: Tables, p: Places, p': Places, v: Value)
    requires ValueOk(t, p, v) && Later(p, p')
    ensures ValueOk(t, p', v)
    decreases v
  {
    hide GoodMethod, EnvOk, Later;
    match v
    case Vector(es) =>
      forall i | 0 <= i < |es| ensures ValueOk(t, p', es[i]) { ValueLater(t, p, p', es[i]); }
    case Closure(mm, env) =>
      BodyScoped(t, mm);
      EnvLater(t, p, p', t.methods[mm.id].outer, env);
    case _ =>
  }

  lemma AllLater(t: Tables, p: Places, p': Places, vs: seq<Value>)
    requires AllOk(t, p, vs) && Later(p, p')
    ensures AllOk(t, p', vs)
  {
    hide ValueOk, Later;
    forall i | 0 <= i < |vs| ensures ValueOk(t, p', vs[i]) { ValueLater(t, p, p', vs[i]); }
  }

  lemma HereLater(t: Tables, p: Places, p': Places, lex: Lexenv, env: seq<Entry>, s: State, s': State)
    requires Here(t, p, lex, env, s) && Later(p, p') && StoreOk(t, p', s')
    ensures Here(t, p', lex, env, s')
  {
    hide GoodEnv, StoreOk, EnvOk, Later;
    EnvLater(t, p, p', lex.bindings, env);
  }

  lemma FirstOk(t: Tables, p: Places, vs: seq<Value>)
    requires AllOk(t, p, vs)
    ensures ValueOk(t, p, First(vs)) && AllOk(t, p, [First(vs)])
  {
  }

  lemma PickedOk(t: Tables, p: Places, picks: seq<Pick>, vs: seq<Value>)
    requires AllOk(t, p, vs)
    ensures AllOk(t, p, Picked(picks, vs))
  {
  }

  lemma {:induction false} KeyValueOk(t: Tables, p: Places, k: Key, args: seq<Value>)
    requires AllOk(t, p, args)
    ensures ValueOk(t, p, KeyValue(k, args))
    decreases |args|
  {
    hide ValueOk;
    if |args| < 2 {
      PrimOk(t, p, k.default);
    } else {
      assert AllOk(t, p, args[2..]);
      KeyValueOk(t, p, k, args[2..]);
    }
  }

  lemma PrimOk(t: Tables, p: Places, l: Literal)
    ensures ValueOk(t, p, Prim(l))
  {
  }

  lemma VectorOk(t: Tables, p: Places, vs: seq<Value>)
    requires AllOk(t, p, vs)
    ensures ValueOk(t, p, Vector(vs))
  {
  }

  lemma ParamsOk(t: Tables, p: Places, mm: Method, args: seq<Value>)
    requires AllOk(t, p, args) && ParamValues(mm, args).Some?
    ensures AllOk(t, p, BoundValues(mm, ParamValues(mm, args).value))
  {
    hide ValueOk, KeyValue;
    var rest := args[|mm.required|..];
    assert AllOk(t, p, rest) && AllOk(t, p, args[..|mm.required|]);
    VectorOk(t, p, rest);
    PrimOk(t, p, NilLit);
    forall i | 0 <= i < |mm.keys| ensures ValueOk(t, p, KeyValue(mm.keys[i], rest)) { KeyValueOk(t, p, mm.keys[i], rest); }
  }

  lemma WantedOk(t: Tables, p: Places, vs: seq<Value>, n: nat, rest: bool)
    requires AllOk(t, p, vs)
    ensures AllOk(t, p, Wanted(vs, n, rest))
  {
    hide ValueOk;
    var more := if n <= |vs| then vs[n..] else [];
    assert AllOk(t, p, more);
    VectorOk(t, p, more);
    PrimOk(t, p, FalseLit);
  }

  // The program does the same, step by step.

  lemma {:induction false} Same(m: Meaning, t: Tables, e: Expr, p: Places, lex: Lexenv, env: seq<Entry>, s: State, fuel: nat)
      returns (p': Places)
    requires m.assumed.None? && Scoped(t, e, lex) && Tame(t, e) && Here(t, p, lex, env, s)
    ensures Eval(Assuming(m, t), e, env, s, fuel) == Eval(m, e, env, s, fuel)
    ensures Kept(t, p, p', Eval(m, e, env, s, fuel))
    decreases fuel, 1, e, 3
  {
    hide Here, Kept, AllOk, StoreOk;
    p' := p;
    match e
    case Var(id, ref) => VarSame(m, t, e, p, lex, env, s, fuel);
    case Lit(l) => LitSame(m, t, l, p, lex, env, s, fuel);
    case Call(_, _) => p' := CallSame(m, t, e, p, lex, env, s, fuel);
    case Binary(_, _, _) => p' := BinarySame(m, t, e, p, lex, env, s, fuel);
    case Values(_, _) => p' := ValuesSame(m, t, e, p, lex, env, s, fuel);
    case Dot(_, _) => p' := DotSame(m, t, e, p, lex, env, s, fuel);
    case MethodRef(mm) => p' := MethodSame(m, t, mm, p, lex, env, s, fuel);
    case BodyExpr(b) => p' := BodySame(m, t, b, p, lex, env, s, fuel);
    case If(_, _, _) => p' := IfSame(m, t, e, p, lex, env, s, fuel);
    case Set(_, _, _) => p' := SetSame(m, t, e, p, lex, env, s, fuel);
    case Loop(_) => p' := LoopSame(m, t, e, p, lex, env, s, fuel);
    case Repeat => NothingKept(t, p, lex, env, s);
  }

  lemma NothingKept(t: Tables, p: Places, lex: Lexenv, env: seq<Entry>, s: State)
    requires Here(t, p, lex, env, s)
    ensures Kept(t, p, p, Again(s)) && Kept(t, p, p, Done([], s))
  {
    hide ValueOk;
  }

  lemma VarSame(m: Meaning, t: Tables, e: Expr, p: Places, lex: Lexenv, env: seq<Entry>, s: State, fuel: nat)
    requires m.assumed.None? && e.Var? && Scoped(t, e, lex) && Here(t, p, lex, env, s)
    ensures Eval(Assuming(m, t), e, env, s, fuel) == Eval(m, e, env, s, fuel)
    ensures Kept(t, p, p, Eval(m, e, env, s, fuel))
  {
    hide ValueOk, GoodEnv;
    var i := LookupFits(t, lex.bindings, env, p.size, e.id);
  }

  lemma LitSame(m: Meaning, t: Tables, l: Literal, p: Places, lex: Lexenv, env: seq<Entry>, s: State, fuel: nat)
    requires Here(t, p, lex, env, s)
    ensures Eval(Assuming(m, t), Lit(l), env, s, fuel) == Eval(m, Lit(l), env, s, fuel)
    ensures Kept(t, p, p, Eval(m, Lit(l), env, s, fuel))
  {
    hide ValueOk, GoodEnv;
    PrimOk(t, p, l);
  }

  // Two steps, one after the other.
  lemma KeptAfter(t: Tables, p: Places, p1: Places, p2: Places, o: Outcome)
    requires Later(p, p1) && Kept(t, p1, p2, o)
    ensures Kept(t, p, p2, o)
  {
    hide StoreOk, AllOk;
  }

  // After a step that has values.
  lemma Done1(t: Tables, p: Places, p1: Places, lex: Lexenv, env: seq<Entry>, s: State, o: Outcome)
    requires Here(t, p, lex, env, s) && Kept(t, p, p1, o) && o.Done?
    ensures Here(t, p1, lex, env, o.state) && Later(p, p1) && AllOk(t, p1, o.values) && StoreOk(t, p1, o.state)
    ensures ValueOk(t, p1, First(o.values)) && AllOk(t, p1, [First(o.values)])
  {
    hide GoodEnv, StoreOk, AllOk, EnvOk, Later;
    HereLater(t, p, p1, lex, env, s, o.state);
    FirstOk(t, p1, o.values);
  }

  lemma {:induction false} CallSame(m: Meaning, t: Tables, e: Expr, p: Places, lex: Lexenv, env: seq<Entry>, s: State, fuel: nat)
      returns (p': Places)
    requires e.Call? && m.assumed.None? && Scoped(t, e, lex) && Tame(t, e) && Here(t, p, lex, env, s)
    ensures Eval(Assuming(m, t), e, env, s, fuel) == Eval(m, e, env, s, fuel)
    ensures Kept(t, p, p', Eval(m, e, env, s, fuel))
    decreases fuel, 1, e, 2
  {
    hide Here, AllOk, StoreOk, Later, Apply, EvalArgs, ValueOk, CheckedEarly;
    p' := Same(m, t, e.func, p, lex, env, s, fuel);
    var o := Eval(m, e.func, env, s, fuel);
    if o.Done? && Callable(m, First(o.values)) {
      var p1 := p';
      Done1(t, p, p1, lex, env, s, o);
      var p2 := ArgsSame(m, t, e.args, p1, lex, env, o.state, fuel);
      var oa := EvalArgs(m, e.args, env, o.state, fuel);
      if oa.Args? {
        ValueLater(t, p1, p2, First(o.values));
        var p3 := ApplySame(m, t, p2, First(o.values), oa.values, oa.state, fuel);
        LaterTransitive(p, p1, p2);
        KeptAfter(t, p, p2, p3, Apply(m, First(o.values), oa.values, oa.state, fuel));
        p' := p3;
      }
    }
  }

  lemma {:induction false} ArgsSame(m: Meaning, t: Tables, args: Exprs, p: Places, lex: Lexenv, env: seq<Entry>, s: State, fuel: nat)
      returns (p': Places)
    requires m.assumed.None? && ScopedArgs(t, args, lex) && TameArgs(t, args) && Here(t, p, lex, env, s)
    ensures EvalArgs(Assuming(m, t), args, env, s, fuel) == EvalArgs(m, args, env, s, fuel)
    ensures KeptArgs(t, p, p', EvalArgs(m, args, env, s, fuel))
    decreases fuel, 1, args, 3
  {
    hide Here, StoreOk, Later, Eval, ValueOk, AllOk, Scoped, Tame;
    p' := p;
    if args.NoArgs? {
      NothingKept(t, p, lex, env, s);
    } else {
      p' := Same(m, t, args.expr, p, lex, env, s, fuel);
      var o := Eval(m, args.expr, env, s, fuel);
      if o.Done? {
        var p1 := p';
        Done1(t, p, p1, lex, env, s, o);
        p' := ArgsSame(m, t, args.rest, p1, lex, env, o.state, fuel);
        var oa := EvalArgs(m, args.rest, env, o.state, fuel);
        if oa.Args? {
          LaterTransitive(p, p1, p');
          OneMoreOk(t, p1, p', First(o.values), oa.values);
        }
      }
    }
  }

  lemma OneMoreOk(t: Tables, p: Places, p': Places, v: Value, vs: seq<Value>)
    requires ValueOk(t, p, v) && Later(p, p') && AllOk(t, p', vs)
    ensures AllOk(t, p', [v] + vs)
  {
    hide ValueOk, Later;
    ValueLater(t, p, p', v);
  }

  lemma RepliedOk(t: Tables, p: Places, r: Reply, vs: seq<Value>, s: State)
    requires StoreOk(t, p, s) && AllOk(t, p, vs)
    ensures Kept(t, p, p, Replied(r, vs, s)) && Kept(t, p, p, RepliedOne(r, vs, s))
  {
    hide ValueOk, Picked;
    if r.Reply? {
      PickedOk(t, p, r.picks, vs);
      FirstOk(t, p, Picked(r.picks, vs));
    }
  }

  lemma {:induction false} BinarySame(m: Meaning, t: Tables, e: Expr, p: Places, lex: Lexenv, env: seq<Entry>, s: State, fuel: nat)
      returns (p': Places)
    requires e.Binary? && m.assumed.None? && Scoped(t, e, lex) && Tame(t, e) && Here(t, p, lex, env, s)
    ensures Eval(Assuming(m, t), e, env, s, fuel) == Eval(m, e, env, s, fuel)
    ensures Kept(t, p, p', Eval(m, e, env, s, fuel))
    decreases fuel, 1, e, 2
  {
    hide Here, AllOk, StoreOk, Later, ValueOk, RepliedOne, Views;
    p' := Same(m, t, e.left, p, lex, env, s, fuel);
    var o := Eval(m, e.left, env, s, fuel);
    if o.Done? {
      var p1 := p';
      Done1(t, p, p1, lex, env, s, o);
      p' := Same(m, t, e.right, p1, lex, env, o.state, fuel);
      var o2 := Eval(m, e.right, env, o.state, fuel);
      if o2.Done? {
        Done1(t, p1, p', lex, env, o.state, o2);
        LaterTransitive(p, p1, p');
        OneMoreOk(t, p1, p', First(o.values), [First(o2.values)]);
        var args := [First(o.values), First(o2.values)];
        assert args == [First(o.values)] + [First(o2.values)];
        var r := m.binary(e.op, Views(args), o2.state.world);
        RepliedOk(t, p', r, args, o2.state);
        KeptAfter(t, p, p', p', RepliedOne(r, args, o2.state));
      }
    }
  }

  lemma {:induction false} ValuesSame(m: Meaning, t: Tables, e: Expr, p: Places, lex: Lexenv, env: seq<Entry>, s: State, fuel: nat)
      returns (p': Places)
    requires e.Values? && m.assumed.None? && Scoped(t, e, lex) && Tame(t, e) && Here(t, p, lex, env, s)
    ensures Eval(Assuming(m, t), e, env, s, fuel) == Eval(m, e, env, s, fuel)
    ensures Kept(t, p, p', Eval(m, e, env, s, fuel))
    decreases fuel, 1, e, 2
  {
    hide Here, AllOk, StoreOk, Later, EvalArgs;
    p' := ArgsSame(m, t, e.args, p, lex, env, s, fuel);
  }

  lemma {:induction false} DotSame(m: Meaning, t: Tables, e: Expr, p: Places, lex: Lexenv, env: seq<Entry>, s: State, fuel: nat)
      returns (p': Places)
    requires e.Dot? && m.assumed.None? && Scoped(t, e, lex) && Tame(t, e) && Here(t, p, lex, env, s)
    ensures Eval(Assuming(m, t), e, env, s, fuel) == Eval(m, e, env, s, fuel)
    ensures Kept(t, p, p', Eval(m, e, env, s, fuel))
    decreases fuel, 1, e, 2
  {
    hide Here, AllOk, StoreOk, Later, ValueOk, Apply, CheckedEarly;
    p' := Same(m, t, e.arg, p, lex, env, s, fuel);
    var o := Eval(m, e.arg, env, s, fuel);
    if o.Done? {
      var p1 := p';
      Done1(t, p, p1, lex, env, s, o);
      p' := Same(m, t, e.func, p1, lex, env, o.state, fuel);
      var o2 := Eval(m, e.func, env, o.state, fuel);
      if o2.Done? && Callable(m, First(o2.values)) {
        var p2 := p';
        Done1(t, p1, p2, lex, env, o.state, o2);
        AllLater(t, p1, p2, [First(o.values)]);
        LaterTransitive(p, p1, p2);
        p' := ApplySame(m, t, p2, First(o2.values), [First(o.values)], o2.state, fuel);
        KeptAfter(t, p, p2, p', Apply(m, First(o2.values), [First(o.values)], o2.state, fuel));
      }
    }
  }

  lemma {:induction false} IfSame(m: Meaning, t: Tables, e: Expr, p: Places, lex: Lexenv, env: seq<Entry>, s: State, fuel: nat)
      returns (p': Places)
    requires e.If? && m.assumed.None? && Scoped(t, e, lex) && Tame(t, e) && Here(t, p, lex, env, s)
    ensures Eval(Assuming(m, t), e, env, s, fuel) == Eval(m, e, env, s, fuel)
    ensures Kept(t, p, p', Eval(m, e, env, s, fuel))
    decreases fuel, 1, e, 2
  {
    hide Here, AllOk, StoreOk, Later, ValueOk, EvalBody;
    p' := Same(m, t, e.cond, p, lex, env, s, fuel);
    var o := Eval(m, e.cond, env, s, fuel);
    if o.Done? {
      var p1 := p';
      Done1(t, p, p1, lex, env, s, o);
      var b := if First(o.values) != FALSE then e.consequent else e.alternate;
      p' := BodySame(m, t, b, p1, lex, env, o.state, fuel);
      KeptAfter(t, p, p1, p', EvalBody(m, b, env, o.state, fuel));
    }
  }

  lemma {:induction false} SetSame(m: Meaning, t: Tables, e: Expr, p: Places, lex: Lexenv, env: seq<Entry>, s: State, fuel: nat)
      returns (p': Places)
    requires e.Set? && m.assumed.None? && Scoped(t, e, lex) && Tame(t, e) && Here(t, p, lex, env, s)
    ensures Eval(Assuming(m, t), e, env, s, fuel) == Eval(m, e, env, s, fuel)
    ensures Kept(t, p, p', Eval(m, e, env, s, fuel))
    decreases fuel, 1, e, 2
  {
    hide Here, AllOk, StoreOk, Later, ValueOk, Assign;
    p' := Same(m, t, e.value, p, lex, env, s, fuel);
    var o := Eval(m, e.value, env, s, fuel);
    if o.Done? {
      Done1(t, p, p', lex, env, s, o);
      if e.value.MethodRef? { MethodValue(m, e.value, env, s, fuel); }
      AssignOk(t, p', lex, env, e.id, e.ref, First(o.values), o.state);
    }
  }

  lemma {:induction false} MethodValue(m: Meaning, e: Expr, env: seq<Entry>, s: State, fuel: nat)
    requires e.MethodRef?
    ensures var o := Eval(m, e, env, s, fuel); o.Done? ==> First(o.values).Closure?
  {
  }

  // An assignment is to a place of another kind, or of a method.
  lemma AssignOk(t: Tables, p: Places, lex: Lexenv, env: seq<Entry>, id: Id, ref: Ref, v: Value, s: State)
    requires Here(t, p, lex, env, s) && ValueOk(t, p, v)
    requires ValidIndex(t, lex.bindings) && RightRef(t, lex, id, ref)
    requires ref.binding.Some? && Noted(t, ref.binding.value).function_ ==> v.Closure?
    ensures StoreOk(t, p, Assign(env, id, v, s))
  {
    hide ValueOk, GoodEnv;
    var i := LookupFits(t, lex.bindings, env, p.size, id);
  }

  lemma {:induction false} LoopSame(m: Meaning, t: Tables, e: Expr, p: Places, lex: Lexenv, env: seq<Entry>, s: State, fuel: nat)
      returns (p': Places)
    requires e.Loop? && m.assumed.None? && Scoped(t, e, lex) && Tame(t, e) && Here(t, p, lex, env, s)
    ensures Eval(Assuming(m, t), e, env, s, fuel) == Eval(m, e, env, s, fuel)
    ensures Kept(t, p, p', Eval(m, e, env, s, fuel))
    decreases fuel, 1, e, 2
  {
    hide Here, AllOk, StoreOk, Later, ValueOk, EvalBody;
    p' := BodySame(m, t, e.body, p, lex, env, s, fuel);
    var o := EvalBody(m, e.body, env, s, fuel);
    if o.Again? && fuel > 0 {
      var p1 := p';
      HereLater(t, p, p1, lex, env, s, o.state);
      p' := Same(m, t, e, p1, lex, env, o.state, fuel - 1);
      KeptAfter(t, p, p1, p', Eval(m, e, env, o.state, fuel - 1));
    }
  }

  lemma {:induction false} MethodSame(m: Meaning, t: Tables, mm: Method, p: Places, lex: Lexenv, env: seq<Entry>, s: State, fuel: nat)
      returns (p': Places)
    requires m.assumed.None? && ScopedMethod(t, mm, lex) && TameMethod(t, mm) && Here(t, p, lex, env, s)
    ensures EvalMethod(Assuming(m, t), mm, env, s, fuel) == EvalMethod(m, mm, env, s, fuel)
    ensures Kept(t, p, p', EvalMethod(m, mm, env, s, fuel))
    ensures var o := EvalMethod(m, mm, env, s, fuel); o.Done? ==> o.values == [Closure(mm, env)]
    decreases fuel, 1, mm, 3
  {
    hide Here, AllOk, StoreOk, Later, ValueOk, RightMethod, Scoped, ScopedBody, Tame, TameBody;
    p' := Same(m, t, mm.specializers, p, lex, env, s, fuel);
    var o := Eval(m, mm.specializers, env, s, fuel);
    if o.Done? {
      Done1(t, p, p', lex, env, s, o);
      ClosureOk(t, p', mm, lex, env, o.state);
    }
  }

  lemma ClosureOk(t: Tables, p: Places, mm: Method, lex: Lexenv, env: seq<Entry>, s: State)
    requires Here(t, p, lex, env, s) && ScopedMethod(t, mm, lex) && TameMethod(t, mm)
    ensures AllOk(t, p, [Closure(mm, env)])
  {
    hide GoodEnv, StoreOk, ScopedBody, Scoped, Tame, TameBody, EnvOk;
    BodyEnvGood(t, mm, lex);
    SameRightMethod(t, mm, lex);
    OuterHomesRight(t, mm, lex);
  }

  lemma {:induction false} BodySame(m: Meaning, t: Tables, b: Body, p: Places, lex: Lexenv, env: seq<Entry>, s: State, fuel: nat)
      returns (p': Places)
    requires m.assumed.None? && ScopedBody(t, b, lex) && TameBody(t, b) && Here(t, p, lex, env, s)
    ensures EvalBody(Assuming(m, t), b, env, s, fuel) == EvalBody(m, b, env, s, fuel)
    ensures Kept(t, p, p', EvalBody(m, b, env, s, fuel))
    decreases fuel, 1, b, 3
  {
    hide Here, AllOk, StoreOk, Later, ValueOk, Eval, Scoped, Tame;
    match b
    case Last(e) => p' := Same(m, t, e, p, lex, env, s, fuel);
    case Then(e, rest) =>
      p' := Same(m, t, e, p, lex, env, s, fuel);
      var o := Eval(m, e, env, s, fuel);
      if o.Done? {
        var p1 := p';
        Done1(t, p, p1, lex, env, s, o);
        p' := BodySame(m, t, rest, p1, lex, env, o.state, fuel);
        KeptAfter(t, p, p1, p', EvalBody(m, rest, env, o.state, fuel));
      }
    case Let(_, _, _, _, _, _) => p' := LetSame(m, t, b, p, lex, env, s, fuel);
    case Local(_, _, _, _) => p' := LocalSame(m, t, b, p, lex, env, s, fuel);
  }

  lemma {:induction false} LetSame(m: Meaning, t: Tables, b: Body, p: Places, lex: Lexenv, env: seq<Entry>, s: State, fuel: nat)
      returns (p': Places)
    requires b.Let? && m.assumed.None? && ScopedBody(t, b, lex) && TameBody(t, b) && Here(t, p, lex, env, s)
    ensures EvalBody(Assuming(m, t), b, env, s, fuel) == EvalBody(m, b, env, s, fuel)
    ensures Kept(t, p, p', EvalBody(m, b, env, s, fuel))
    decreases fuel, 1, b, 2
  {
    hide Here, AllOk, StoreOk, Later, ValueOk, Eval, Scoped, Tame, NewBindings, NotFunctions, RoomFor, LetVars, Wanted;
    p' := Same(m, t, b.init, p, lex, env, s, fuel);
    var o := Eval(m, b.init, env, s, fuel);
    if o.Done? {
      var p1 := p';
      Done1(t, p, p1, lex, env, s, o);
      var ids, vs := LetVars(b.vars, b.restVar), Wanted(o.values, |b.vars|, b.restVar.Some?);
      WantedOk(t, p1, o.values, |b.vars|, b.restVar.Some?);
      LetLength(b.vars, b.restVar);
      var p2 := EnterLet(t, p1, lex, env, b.first, ids, o.state, vs);
      var s2, env' := o.state.(mem := o.state.mem + vs), EntriesDown(ids, |o.state.mem|) + env;
      p' := BodySame(m, t, b.body, p2, LetEnv(lex, b.first, |ids|), env', s2, fuel);
      LaterTransitive(p, p1, p2);
      KeptAfter(t, p, p2, p', EvalBody(m, b.body, env', s2, fuel));
    }
  }

  lemma LetLength(vars: seq<Id>, restVar: Option<Id>)
    ensures |LetVars(vars, restVar)| == |vars| + (if restVar.Some? then 1 else 0)
  {
  }

  lemma EnterLet(t: Tables, p: Places, lex: Lexenv, env: seq<Entry>, first: nat, ids: seq<Id>, s: State, vs: seq<Value>) returns (p': Places)
    requires Here(t, p, lex, env, s) && AllOk(t, p, vs) && |vs| == |ids|
    requires NewBindings(t, first, ids, lex.method_, false, lex.depth) && NotFunctions(t, first, |ids|)
    requires RoomFor(t, lex.method_, lex.depth + |ids|) && Older(lex.bindings, first)
    ensures Later(p, p')
    ensures Here(t, p', LetEnv(lex, first, |ids|), EntriesDown(ids, |s.mem|) + env, s.(mem := s.mem + vs))
  {
    hide GoodEnv, NewBindings, RoomFor, ValueOk, Inner;
    p' := Places(p.functions, p.size + |vs|);
    LetEnvGood(t, lex, first, ids);
    LetInner(t, lex, env, first, ids, |s.mem|);
    InnerFits(t, lex, env, LetEnv(lex, first, |ids|), EntriesDown(ids, |s.mem|) + env, |ids|, |s.mem|);
    NewStoreOk(t, p, p', s, vs);
    NewEnvOk(t, p, p', lex, env, LetEnv(lex, first, |ids|), EntriesDown(ids, |s.mem|) + env, |ids|);
  }

  lemma NewStoreOk(t: Tables, p: Places, p': Places, s: State, vs: seq<Value>)
    requires StoreOk(t, p, s) && AllOk(t, p, vs) && Later(p, p') && p'.size == p.size + |vs|
    requires forall l :: l in p'.functions && l >= p.size ==> l < p'.size && vs[l - p.size].Unset?
    ensures StoreOk(t, p', s.(mem := s.mem + vs))
  {
    hide ValueOk;
    AllLater(t, p, p', s.mem);
    AllLater(t, p, p', vs);
    forall id | id in s.globals ensures ValueOk(t, p', s.globals[id]) { ValueLater(t, p, p', s.globals[id]); }
  }

  // New variables before the old ones.
  lemma NewEnvOk(t: Tables, p: Places, p': Places, lex: Lexenv, env: seq<Entry>, lex': Lexenv, env': seq<Entry>, n: nat)
    requires EnvOk(t, p, lex.bindings, env) && Later(p, p') && EnvFits(t, lex'.bindings, env', p'.size)
    requires n <= |env'| && lex'.bindings[n..] == lex.bindings && env'[n..] == env
    requires forall i :: 0 <= i < n ==> (t.bindings[lex'.bindings[i]].function_ <==> env'[i].loc in p'.functions)
    ensures EnvOk(t, p', lex'.bindings, env')
  {
    EnvLater(t, p, p', lex.bindings, env);
    forall i | n <= i < |env'| ensures t.bindings[lex'.bindings[i]].function_ <==> env'[i].loc in p'.functions {
      assert lex'.bindings[i] == lex'.bindings[n..][i - n] && env'[i] == env'[n..][i - n];
    }
  }

  lemma {:induction false} LocalSame(m: Meaning, t: Tables, b: Body, p: Places, lex: Lexenv, env: seq<Entry>, s: State, fuel: nat)
      returns (p': Places)
    requires b.Local? && m.assumed.None? && ScopedBody(t, b, lex) && TameBody(t, b) && Here(t, p, lex, env, s)
    ensures EvalBody(Assuming(m, t), b, env, s, fuel) == EvalBody(m, b, env, s, fuel)
    ensures Kept(t, p, p', EvalBody(m, b, env, s, fuel))
    decreases fuel, 1, b, 2
  {
    hide Here, AllOk, StoreOk, Later, ValueOk, EvalMethods, ScopedMethods, TameMethods, NewBindings, LocalFunctions, RoomFor, Names;
    var ids := Names(b.methods);
    var n := |ids|;
    var lex', env' := LocalEnv(lex, b.first, n), EntriesUp(ids, |s.mem|) + env;
    var s1 := s.(mem := s.mem + seq(n, _ => Unset));
    var p1 := EnterLocal(t, p, lex, env, b.first, ids, s);
    p' := MethodsSame(m, t, b.methods, p1, lex', env', s1, fuel, |s.mem|);
    var o := EvalMethods(m, b.methods, |s.mem|, env', s1, fuel);
    if o.Done? {
      var p2 := p';
      LaterTransitive(p, p1, p2);
      p' := BodySame(m, t, b.body, p2, lex', env', o.state, fuel);
      KeptAfter(t, p, p2, p', EvalBody(m, b.body, env', o.state, fuel));
    } else {
      KeptAfter(t, p, p1, p', o);
    }
  }

  function From(base: nat, n: nat): (r: set<nat>)
    ensures forall l :: l in r <==> base <= l < base + n
  {
    if n == 0 then {} else From(base, n - 1) + {base + n - 1}
  }

  lemma EnterLocal(t: Tables, p: Places, lex: Lexenv, env: seq<Entry>, first: nat, ids: seq<Id>, s: State) returns (p': Places)
    requires Here(t, p, lex, env, s)
    requires NewBindings(t, first, ids, lex.method_, false, lex.depth) && LocalFunctions(t, first, |ids|)
    requires RoomFor(t, lex.method_, lex.depth + |ids|) && Older(lex.bindings, first)
    ensures Later(p, p') && forall l :: |s.mem| <= l < |s.mem| + |ids| ==> l in p'.functions
    ensures Here(t, p', LocalEnv(lex, first, |ids|), EntriesUp(ids, |s.mem|) + env, s.(mem := s.mem + seq(|ids|, _ => Unset)))
  {
    hide GoodEnv, NewBindings, RoomFor, ValueOk, Inner;
    var n, base := |ids|, |s.mem|;
    p' := Places(p.functions + From(base, n), p.size + n);
    LetEnvGood(t, lex, first, ids);
    LocalInner(t, lex, env, first, ids, base);
    InnerFits(t, lex, env, LocalEnv(lex, first, n), EntriesUp(ids, base) + env, n, base);
    UnsetOk(t, p, n);
    NewStoreOk(t, p, p', s, seq(n, _ => Unset));
    NewEnvOk(t, p, p', lex, env, LocalEnv(lex, first, n), EntriesUp(ids, base) + env, n);
  }

  lemma UnsetOk(t: Tables, p: Places, n: nat)
    ensures AllOk(t, p, seq(n, _ => Unset))
  {
  }

  lemma {:induction false} MethodsSame(m: Meaning, t: Tables, ms: Methods, p: Places, lex: Lexenv, env: seq<Entry>, s: State, fuel: nat, loc: nat)
      returns (p': Places)
    requires m.assumed.None? && ScopedMethods(t, ms, lex) && TameMethods(t, ms) && Here(t, p, lex, env, s)
    requires forall l :: loc <= l < loc + |Names(ms)| ==> l in p.functions
    ensures EvalMethods(Assuming(m, t), ms, loc, env, s, fuel) == EvalMethods(m, ms, loc, env, s, fuel)
    ensures var o := EvalMethods(m, ms, loc, env, s, fuel);
            o.Done? ==> Later(p, p') && Here(t, p', lex, env, o.state)
    ensures Kept(t, p, p', EvalMethods(m, ms, loc, env, s, fuel))
    decreases fuel, 1, ms, 3
  {
    hide Here, AllOk, StoreOk, ValueOk, ScopedMethod, TameMethod, EvalMethod, Store;
    p' := p;
    if ms.NoMethods? {
      NothingKept(t, p, lex, env, s);
    } else {
      p' := MethodSame(m, t, ms.method_, p, lex, env, s, fuel);
      var o := EvalMethod(m, ms.method_, env, s, fuel);
      if o.Done? {
        var p1 := p';
        Done1(t, p, p1, lex, env, s, o);
        var s2 := Store(o.state, loc, First(o.values));
        StoreFunction(t, p1, lex, env, o.state, loc, o.values[0]);
        p' := MethodsSame(m, t, ms.rest, p1, lex, env, s2, fuel, loc + 1);
        KeptAfter(t, p, p1, p', EvalMethods(m, ms.rest, loc + 1, env, s2, fuel));
      }
    }
  }

  lemma StoreFunction(t: Tables, p: Places, lex: Lexenv, env: seq<Entry>, s: State, loc: nat, v: Value)
    requires Here(t, p, lex, env, s) && ValueOk(t, p, v) && v.Closure? && loc in p.functions
    ensures Here(t, p, lex, env, Store(s, loc, v))
  {
    hide GoodEnv, EnvOk, ValueOk;
  }

  lemma {:induction false} ApplySame(m: Meaning, t: Tables, p: Places, f: Value, args: seq<Value>, s: State, fuel: nat) returns (p': Places)
    requires m.assumed.None? && ValueOk(t, p, f) && AllOk(t, p, args) && StoreOk(t, p, s)
    ensures Apply(Assuming(m, t), f, args, s, fuel) == Apply(m, f, args, s, fuel)
    ensures Kept(t, p, p', Apply(m, f, args, s, fuel))
    decreases fuel, 0
  {
    hide AllOk, StoreOk, Later, EvalBody, GoodMethod, EnvOk, TameBody, ScopedBody;
    p' := p;
    match f
    case Prim(l) => RepliedOk(t, p, m.builtin(l, Views(args), s.world), args, s);
    case Closure(mm, env) =>
      if ParamValues(mm, args).Some? && fuel > 0 {
        var vs := BoundValues(mm, ParamValues(mm, args).value);
        ParamsOk(t, p, mm, args);
        var p1 := EnterMethodOk(t, p, mm, env, s, vs);
        var s2, env' := s.(mem := s.mem + vs), EntriesDown(mm.Bound(), |s.mem|) + env;
        BodyScoped(t, mm);
        p' := BodySame(m, t, mm.body, p1, BodyEnv(t, mm), env', s2, fuel - 1);
        KeptAfter(t, p, p1, p', EvalBody(m, mm.body, env', s2, fuel - 1));
      }
    case _ =>
  }

  lemma BodyScoped(t: Tables, mm: Method)
    requires GoodMethod(t, mm)
    ensures mm.id < |t.methods| && ScopedBody(t, mm.body, BodyEnv(t, mm))
  {
    hide GoodEnv, ScopedBody;
  }

  lemma EnterMethodOk(t: Tables, p: Places, mm: Method, env: seq<Entry>, s: State, vs: seq<Value>) returns (p': Places)
    requires GoodMethod(t, mm) && EnvOk(t, p, t.methods[mm.id].outer, env) && StoreOk(t, p, s)
    requires AllOk(t, p, vs) && |vs| == |mm.Bound()|
    ensures Later(p, p')
    ensures mm.id < |t.methods| && Here(t, p', BodyEnv(t, mm), EntriesDown(mm.Bound(), |s.mem|) + env, s.(mem := s.mem + vs))
  {
    hide GoodEnv, ScopedBody, ValueOk, RightCloses, NewBindings;
    p' := Places(p.functions, p.size + |vs|);
    BodyInner(t, mm, env, |s.mem|);
    NewStoreOk(t, p, p', s, vs);
    var env', n := EntriesDown(mm.Bound(), |s.mem|) + env, |mm.Bound()|;
    NewEnvOk(t, p, p', OuterEnv(t, mm.id), env, BodyEnv(t, mm), env', n);
  }
}
