/**
 The meaning of a program does not depend on the notes of the analysis.
 */
module Erasure {
  import opened Wrappers
  import opened Programs
  import opened Semantics

  function EraseValue(v: Value): Value
    decreases v
  {
    match v
    case Vector(es) => Vector(seq(|es|, i requires 0 <= i < |es| => EraseValue(es[i])))
    case Closure(mm, env) => Closure(EraseMethod(mm), env)
    case _ => v
  }

  function EraseAll(vs: seq<Value>): (r: seq<Value>)
    ensures |r| == |vs|
  {
    seq(|vs|, i requires 0 <= i < |vs| => EraseValue(vs[i]))
  }

  function EraseState(s: State): State {
    State(EraseAll(s.mem), map id | id in s.globals :: EraseValue(s.globals[id]), s.world)
  }

  function EraseOutcome(o: Outcome): Outcome {
    match o
    case Done(vs, s) => Done(EraseAll(vs), EraseState(s))
    case Again(s) => Again(EraseState(s))
    case Exit(s) => Exit(EraseState(s))
    case _ => o
  }

  function EraseArgsOutcome(o: ArgsOutcome): ArgsOutcome {
    match o
    case Args(vs, s) => Args(EraseAll(vs), EraseState(s))
    case Stop(x) => Stop(EraseOutcome(x))
  }

  lemma {:induction false} LookErased(v: Value)
    ensures Look(EraseValue(v)) == Look(v)
    decreases v
  {
    if v.Vector? {
      forall i | 0 <= i < |v.elems| ensures Look(EraseValue(v.elems[i])) == Look(v.elems[i]) { LookErased(v.elems[i]); }
    }
  }

  lemma ViewsErased(vs: seq<Value>)
    ensures Views(EraseAll(vs)) == Views(vs)
  {
    hide Look, EraseValue;
    forall i | 0 <= i < |vs| ensures Look(EraseValue(vs[i])) == Look(vs[i]) { LookErased(vs[i]); }
  }

  lemma FirstErased(m: Meaning, vs: seq<Value>)
    ensures First(EraseAll(vs)) == EraseValue(First(vs))
    ensures Callable(m, First(EraseAll(vs))) == Callable(m, First(vs))
    ensures First(EraseAll(vs)) == FALSE <==> First(vs) == FALSE
    ensures EraseAll([First(vs)]) == [First(EraseAll(vs))]
  {
  }

  lemma AllErased(v: Value, vs: seq<Value>)
    ensures EraseAll([v] + vs) == [EraseValue(v)] + EraseAll(vs)
  {
    hide EraseValue;
  }

  lemma EraseParts(a: seq<Value>, b: seq<Value>)
    ensures EraseAll(a + b) == EraseAll(a) + EraseAll(b)
  {
    hide EraseValue;
  }

  lemma RepliedErased(r: Reply, vs: seq<Value>, s: State)
    ensures Replied(r, EraseAll(vs), EraseState(s)) == EraseOutcome(Replied(r, vs, s))
    ensures RepliedOne(r, EraseAll(vs), EraseState(s)) == EraseOutcome(RepliedOne(r, vs, s))
  {
    if r.Reply? {
      assert Picked(r.picks, EraseAll(vs)) == EraseAll(Picked(r.picks, vs));
      FirstPicked(Picked(r.picks, vs));
    }
  }

  lemma FirstPicked(vs: seq<Value>)
    ensures EraseAll([First(vs)]) == [First(EraseAll(vs))]
  {
  }

  lemma WantedErased(vs: seq<Value>, n: nat, rest: bool)
    ensures Wanted(EraseAll(vs), n, rest) == EraseAll(Wanted(vs, n, rest))
  {
    var more := if n <= |vs| then vs[n..] else [];
    assert EraseAll(more) == if n <= |vs| then EraseAll(vs)[n..] else [];
    assert EraseValue(Vector(more)) == Vector(EraseAll(more));
  }

  lemma {:induction false} KeyErased(k: Key, args: seq<Value>)
    ensures KeyValue(k, EraseAll(args)) == EraseValue(KeyValue(k, args))
    decreases |args|
  {
    if |args| >= 2 {
      assert EraseAll(args)[2..] == EraseAll(args[2..]);
      KeyErased(k, args[2..]);
    }
  }

  lemma BoundErased(mm: Method)
    ensures EraseMethod(mm).Params() == mm.Params() && EraseMethod(mm).Bound() == mm.Bound()
  {
  }

  lemma ParamsErased(mm: Method, args: seq<Value>)
    ensures ParamValues(EraseMethod(mm), EraseAll(args)).Some? <==> ParamValues(mm, args).Some?
    ensures ParamValues(mm, args).Some? ==>
              BoundValues(EraseMethod(mm), ParamValues(EraseMethod(mm), EraseAll(args)).value)
              == EraseAll(BoundValues(mm, ParamValues(mm, args).value))
  {
    hide KeyValue;
    var n := |mm.required|;
    if n <= |args| {
      var rest := args[n..];
      assert EraseAll(args)[n..] == EraseAll(rest) && EraseAll(args)[..n] == EraseAll(args[..n]);
      assert EraseValue(Vector(rest)) == Vector(EraseAll(rest));
      forall i | 0 <= i < |mm.keys| ensures KeyValue(mm.keys[i], EraseAll(rest)) == EraseValue(KeyValue(mm.keys[i], rest)) {
        KeyErased(mm.keys[i], rest);
      }
      var keys := seq(|mm.keys|, i requires 0 <= i < |mm.keys| => KeyValue(mm.keys[i], rest));
      assert EraseAll(keys) == seq(|mm.keys|, i requires 0 <= i < |mm.keys| => KeyValue(mm.keys[i], EraseAll(rest)));
      var vector := if mm.restVar.Some? then [Vector(rest)] else [];
      EraseParts(args[..n], vector);
      EraseParts(args[..n] + vector, keys);
      EraseParts(args[..n] + vector + keys, if mm.next.Some? then [NO_NEXT] else []);
    }
  }

  lemma StoreErased(s: State, loc: nat, v: Value)
    ensures EraseState(Store(s, loc, v)) == Store(EraseState(s), loc, EraseValue(v))
  {
    hide EraseValue;
    if loc < |s.mem| {
      assert EraseAll(s.mem[loc := v]) == EraseAll(s.mem)[loc := EraseValue(v)];
    }
  }

  lemma AssignErased(env: seq<Entry>, id: Id, v: Value, s: State)
    ensures EraseState(Assign(env, id, v, s)) == Assign(env, id, EraseValue(v), EraseState(s))
  {
    hide EraseValue, Store;
    if Lookup(env, id).Some? {
      StoreErased(s, Lookup(env, id).value, v);
    } else {
      var s' := s.(globals := s.globals[id := v]);
      assert EraseState(s').globals == EraseState(s).globals[id := EraseValue(v)];
    }
  }

  lemma MoreErased(s: State, vs: seq<Value>)
    ensures EraseState(s.(mem := s.mem + vs)) == EraseState(s).(mem := EraseState(s).mem + EraseAll(vs))
  {
    EraseParts(s.mem, vs);
  }

  lemma {:induction false} NamesErased(ms: Methods)
    ensures Names(EraseMethods(ms)) == Names(ms)
    decreases ms
  {
    if ms.AMethod? { NamesErased(ms.rest); }
  }

  lemma UnsetErased(n: nat)
    ensures EraseAll(seq(n, _ => Unset)) == seq(n, _ => Unset)
  {
  }

  // Evaluation, step by step.

  lemma {:induction false} Erased(m: Meaning, e: Expr, env: seq<Entry>, s: State, fuel: nat)
    requires m.assumed.None?
    ensures Eval(m, Erase(e), env, EraseState(s), fuel) == EraseOutcome(Eval(m, e, env, s, fuel))
    decreases fuel, 1, e, 3
  {
    hide EraseState, EraseAll;
    match e
    case Var(id, ref) => VarErased(m, e, env, s, fuel);
    case Lit(l) => assert EraseAll([Prim(l)]) == [Prim(l)] by { FirstErased(m, [Prim(l)]); }
    case Call(_, _) => CallErased(m, e, env, s, fuel);
    case Binary(_, _, _) => BinaryErased(m, e, env, s, fuel);
    case Values(_, _) => ValuesErased(m, e, env, s, fuel);
    case Dot(_, _) => DotErased(m, e, env, s, fuel);
    case MethodRef(mm) => MethodErased(m, mm, env, s, fuel);
    case BodyExpr(b) => BodyErased(m, b, env, s, fuel);
    case If(_, _, _) => IfErased(m, e, env, s, fuel);
    case Set(_, _, _) => SetErased(m, e, env, s, fuel);
    case Loop(_) => LoopErased(m, e, env, s, fuel);
    case Repeat =>
  }

  lemma VarErased(m: Meaning, e: Expr, env: seq<Entry>, s: State, fuel: nat)
    requires m.assumed.None? && e.Var?
    ensures Eval(m, Erase(e), env, EraseState(s), fuel) == EraseOutcome(Eval(m, e, env, s, fuel))
  {
    match Lookup(env, e.id)
    case Some(loc) => if loc < |s.mem| { assert EraseAll([s.mem[loc]]) == [EraseValue(s.mem[loc])]; }
    case None => if e.id in s.globals { assert EraseAll([s.globals[e.id]]) == [EraseValue(s.globals[e.id])]; }
  }

  lemma {:induction false} CallErased(m: Meaning, e: Expr, env: seq<Entry>, s: State, fuel: nat)
    requires m.assumed.None? && e.Call?
    ensures Eval(m, Erase(e), env, EraseState(s), fuel) == EraseOutcome(Eval(m, e, env, s, fuel))
    decreases fuel, 1, e, 2
  {
    hide EraseAll, EraseValue, Callable, Apply, EvalArgs, CheckedEarly;
    Erased(m, e.func, env, s, fuel);
    var o := Eval(m, e.func, env, s, fuel);
    if o.Done? {
      FirstErased(m, o.values);
      if Callable(m, First(o.values)) {
        ArgsErased(m, e.args, env, o.state, fuel);
        var oa := EvalArgs(m, e.args, env, o.state, fuel);
        if oa.Args? { ApplyErased(m, First(o.values), oa.values, oa.state, fuel); }
      }
    }
  }

  lemma {:induction false} ArgsErased(m: Meaning, args: Exprs, env: seq<Entry>, s: State, fuel: nat)
    requires m.assumed.None?
    ensures EvalArgs(m, EraseArgs(args), env, EraseState(s), fuel) == EraseArgsOutcome(EvalArgs(m, args, env, s, fuel))
    decreases fuel, 1, args, 3
  {
    hide EraseValue, Eval, Erase, EraseState;
    if args.Arg? {
      Erased(m, args.expr, env, s, fuel);
      var o := Eval(m, args.expr, env, s, fuel);
      if o.Done? {
        ArgsErased(m, args.rest, env, o.state, fuel);
        FirstErased(m, o.values);
        var oa := EvalArgs(m, args.rest, env, o.state, fuel);
        if oa.Args? { AllErased(First(o.values), oa.values); }
      }
    } else {
      assert EraseAll([]) == [];
    }
  }

  lemma {:induction false} BinaryErased(m: Meaning, e: Expr, env: seq<Entry>, s: State, fuel: nat)
    requires m.assumed.None? && e.Binary?
    ensures Eval(m, Erase(e), env, EraseState(s), fuel) == EraseOutcome(Eval(m, e, env, s, fuel))
    decreases fuel, 1, e, 2
  {
    hide EraseAll, EraseValue, Views, RepliedOne;
    Erased(m, e.left, env, s, fuel);
    var o := Eval(m, e.left, env, s, fuel);
    if o.Done? {
      FirstErased(m, o.values);
      Erased(m, e.right, env, o.state, fuel);
      var o2 := Eval(m, e.right, env, o.state, fuel);
      if o2.Done? {
        FirstErased(m, o2.values);
        var args := [First(o.values), First(o2.values)];
        PairErased(First(o.values), First(o2.values));
        ViewsErased(args);
        RepliedErased(m.binary(e.op, Views(args), o2.state.world), args, o2.state);
      }
    }
  }

  lemma PairErased(v: Value, w: Value)
    ensures EraseAll([v, w]) == [EraseValue(v), EraseValue(w)]
  {
  }

  lemma {:induction false} ValuesErased(m: Meaning, e: Expr, env: seq<Entry>, s: State, fuel: nat)
    requires m.assumed.None? && e.Values?
    ensures Eval(m, Erase(e), env, EraseState(s), fuel) == EraseOutcome(Eval(m, e, env, s, fuel))
    decreases fuel, 1, e, 2
  {
    hide EraseAll, EvalArgs, EraseArgs;
    ArgsErased(m, e.args, env, s, fuel);
    SameFunction(m, e.values, env, s);
  }

  lemma SameFunction(m: Meaning, f: Expr, env: seq<Entry>, s: State)
    ensures IsValues(m, Erase(f), env, EraseState(s)) == IsValues(m, f, env, s)
  {
  }

  lemma {:induction false} DotErased(m: Meaning, e: Expr, env: seq<Entry>, s: State, fuel: nat)
    requires m.assumed.None? && e.Dot?
    ensures Eval(m, Erase(e), env, EraseState(s), fuel) == EraseOutcome(Eval(m, e, env, s, fuel))
    decreases fuel, 1, e, 2
  {
    hide EraseAll, EraseValue, Callable, Apply, CheckedEarly;
    Erased(m, e.arg, env, s, fuel);
    var o := Eval(m, e.arg, env, s, fuel);
    if o.Done? {
      FirstErased(m, o.values);
      Erased(m, e.func, env, o.state, fuel);
      var o2 := Eval(m, e.func, env, o.state, fuel);
      if o2.Done? {
        FirstErased(m, o2.values);
        ApplyErased(m, First(o2.values), [First(o.values)], o2.state, fuel);
      }
    }
  }

  lemma {:induction false} IfErased(m: Meaning, e: Expr, env: seq<Entry>, s: State, fuel: nat)
    requires m.assumed.None? && e.If?
    ensures Eval(m, Erase(e), env, EraseState(s), fuel) == EraseOutcome(Eval(m, e, env, s, fuel))
    decreases fuel, 1, e, 2
  {
    hide EraseAll, EraseValue, EvalBody;
    Erased(m, e.cond, env, s, fuel);
    var o := Eval(m, e.cond, env, s, fuel);
    if o.Done? {
      FirstErased(m, o.values);
      BodyErased(m, if First(o.values) != FALSE then e.consequent else e.alternate, env, o.state, fuel);
    }
  }

  lemma {:induction false} SetErased(m: Meaning, e: Expr, env: seq<Entry>, s: State, fuel: nat)
    requires m.assumed.None? && e.Set?
    ensures Eval(m, Erase(e), env, EraseState(s), fuel) == EraseOutcome(Eval(m, e, env, s, fuel))
    decreases fuel, 1, e, 2
  {
    hide EraseAll, EraseValue, Assign, EraseState;
    Erased(m, e.value, env, s, fuel);
    var o := Eval(m, e.value, env, s, fuel);
    if o.Done? {
      FirstErased(m, o.values);
      AssignErased(env, e.id, First(o.values), o.state);
    }
  }

  lemma {:induction false} LoopErased(m: Meaning, e: Expr, env: seq<Entry>, s: State, fuel: nat)
    requires m.assumed.None? && e.Loop?
    ensures Eval(m, Erase(e), env, EraseState(s), fuel) == EraseOutcome(Eval(m, e, env, s, fuel))
    decreases fuel, 1, e, 2
  {
    hide EraseAll, EraseState, EvalBody;
    BodyErased(m, e.body, env, s, fuel);
    var o := EvalBody(m, e.body, env, s, fuel);
    if o.Again? && fuel > 0 { Erased(m, e, env, o.state, fuel - 1); }
  }

  lemma {:induction false} MethodErased(m: Meaning, mm: Method, env: seq<Entry>, s: State, fuel: nat)
    requires m.assumed.None?
    ensures EvalMethod(m, EraseMethod(mm), env, EraseState(s), fuel) == EraseOutcome(EvalMethod(m, mm, env, s, fuel))
    decreases fuel, 1, mm, 3
  {
    hide EraseState, Eval;
    Erased(m, mm.specializers, env, s, fuel);
    assert EraseAll([Closure(mm, env)]) == [Closure(EraseMethod(mm), env)];
  }

  lemma {:induction false} BodyErased(m: Meaning, b: Body, env: seq<Entry>, s: State, fuel: nat)
    requires m.assumed.None?
    ensures EvalBody(m, EraseBody(b), env, EraseState(s), fuel) == EraseOutcome(EvalBody(m, b, env, s, fuel))
    decreases fuel, 1, b, 3
  {
    hide EraseState, EraseAll, Eval, Erase;
    match b
    case Last(e) => Erased(m, e, env, s, fuel);
    case Then(e, rest) =>
      Erased(m, e, env, s, fuel);
      var o := Eval(m, e, env, s, fuel);
      if o.Done? { BodyErased(m, rest, env, o.state, fuel); }
    case Let(_, _, _, _, _, _) => LetErased(m, b, env, s, fuel);
    case Local(_, _, _, _) => LocalErased(m, b, env, s, fuel);
  }

  lemma {:induction false} LetErased(m: Meaning, b: Body, env: seq<Entry>, s: State, fuel: nat)
    requires m.assumed.None? && b.Let?
    ensures EvalBody(m, EraseBody(b), env, EraseState(s), fuel) == EraseOutcome(EvalBody(m, b, env, s, fuel))
    decreases fuel, 1, b, 2
  {
    hide EraseValue, Eval, Erase, Wanted, LetVars;
    Erased(m, b.init, env, s, fuel);
    var o := Eval(m, b.init, env, s, fuel);
    if o.Done? {
      var vs := Wanted(o.values, |b.vars|, b.restVar.Some?);
      WantedErased(o.values, |b.vars|, b.restVar.Some?);
      MoreErased(o.state, vs);
      var env' := EntriesDown(LetVars(b.vars, b.restVar), |o.state.mem|) + env;
      BodyErased(m, b.body, env', o.state.(mem := o.state.mem + vs), fuel);
    }
  }

  lemma {:induction false} LocalErased(m: Meaning, b: Body, env: seq<Entry>, s: State, fuel: nat)
    requires m.assumed.None? && b.Local?
    ensures EvalBody(m, EraseBody(b), env, EraseState(s), fuel) == EraseOutcome(EvalBody(m, b, env, s, fuel))
    decreases fuel, 1, b, 2
  {
    hide EraseValue, EvalMethods, Names, EraseMethods;
    NamesErased(b.methods);
    var n := |Names(b.methods)|;
    var env', s1 := EntriesUp(Names(b.methods), |s.mem|) + env, s.(mem := s.mem + seq(n, _ => Unset));
    UnsetErased(n);
    MoreErased(s, seq(n, _ => Unset));
    MethodsErased(m, b.methods, |s.mem|, env', s1, fuel);
    var o := EvalMethods(m, b.methods, |s.mem|, env', s1, fuel);
    if o.Done? { BodyErased(m, b.body, env', o.state, fuel); }
  }

  lemma {:induction false} MethodsErased(m: Meaning, ms: Methods, loc: nat, env: seq<Entry>, s: State, fuel: nat)
    requires m.assumed.None?
    ensures EvalMethods(m, EraseMethods(ms), loc, env, EraseState(s), fuel) == EraseOutcome(EvalMethods(m, ms, loc, env, s, fuel))
    decreases fuel, 1, ms, 3
  {
    hide EraseState, EvalMethod, EraseMethod, Store, EraseValue;
    if ms.AMethod? {
      MethodErased(m, ms.method_, env, s, fuel);
      var o := EvalMethod(m, ms.method_, env, s, fuel);
      if o.Done? {
        FirstErased(m, o.values);
        StoreErased(o.state, loc, First(o.values));
        MethodsErased(m, ms.rest, loc + 1, env, Store(o.state, loc, First(o.values)), fuel);
      }
    } else {
      assert EraseAll([]) == [];
    }
  }

  /** A call means the same with and without the notes. */
  lemma {:induction false} ApplyErased(m: Meaning, f: Value, args: seq<Value>, s: State, fuel: nat)
    requires m.assumed.None?
    ensures Apply(m, EraseValue(f), EraseAll(args), EraseState(s), fuel) == EraseOutcome(Apply(m, f, args, s, fuel))
    decreases fuel, 0
  {
    hide EraseAll, EvalBody, ParamValues, Views, Replied, EraseMethod;
    match f
    case Prim(l) =>
      ViewsErased(args);
      RepliedErased(m.builtin(l, Views(args), s.world), args, s);
    case Closure(mm, env) =>
      ParamsErased(mm, args);
      if ParamValues(mm, args).Some? && fuel > 0 {
        var vs := BoundValues(mm, ParamValues(mm, args).value);
        MoreErased(s, vs);
        BoundErased(mm);
        BodyOfErased(mm);
        BodyErased(m, mm.body, EntriesDown(mm.Bound(), |s.mem|) + env, s.(mem := s.mem + vs), fuel - 1);
      }
    case _ =>
  }

  lemma BodyOfErased(mm: Method)
    ensures EraseMethod(mm).body == EraseBody(mm.body)
  {
  }
}
