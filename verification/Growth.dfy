/**
 How the tables of the analysis grow, and what stays right when they do.
 */
module Growth {
  import opened Wrappers
  import opened Programs

  // Flags are only ever set, and variables only ever added to those a method closes over.
  ghost predicate Grows(t: Tables, t': Tables) {
    && |t.bindings| <= |t'.bindings| && |t.methods| <= |t'.methods|
    && (forall b :: 0 <= b < |t.bindings| ==> BindingGrows(t.bindings[b], t'.bindings[b]))
    && (forall m :: 0 <= m < |t.methods| ==> MethodGrows(t.methods[m], t'.methods[m]))
  }

  predicate BindingGrows(b: Binding, b': Binding) {
    && b' == b.(closedOver := b'.closedOver, isSet := b'.isSet)
    && (b.closedOver ==> b'.closedOver) && (b.isSet ==> b'.isSet)
  }

  predicate MethodGrows(m: MethodInfo, m': MethodInfo) {
    && m'.parent == m.parent && m'.firstParam == m.firstParam && m'.outer == m.outer
    && |m.closes| <= |m'.closes| && m'.nargs - |m'.closes| == m.nargs - |m.closes|
    && (forall k :: 0 <= k < |m.closes| ==> m'.closes[k].binding == m.closes[k].binding)
    && m.frameSize <= m'.frameSize
  }

  lemma GrowsTransitive(t: Tables, t': Tables, t'': Tables)
    requires Grows(t, t') && Grows(t', t'')
    ensures Grows(t, t'')
  {
    forall b | 0 <= b < |t.bindings| ensures BindingGrows(t.bindings[b], t''.bindings[b]) {
      assert BindingGrows(t.bindings[b], t'.bindings[b]) && BindingGrows(t'.bindings[b], t''.bindings[b]);
    }
    forall m | 0 <= m < |t.methods| ensures MethodGrows(t.methods[m], t''.methods[m]) {
      assert MethodGrows(t.methods[m], t'.methods[m]) && MethodGrows(t'.methods[m], t''.methods[m]);
    }
  }

  // A variable that a method closes over, but for the link to the parent.
  ghost predicate Closed(t: Tables, m: nat, k: nat)
    requires m < |t.methods| && k < |t.methods[m].closes|
  {
    var b := t.methods[m].closes[k].binding;
    && m > 0 && b < |t.bindings| && t.bindings[b].closedOver
    && t.bindings[b].home != m && Encloses(t, t.bindings[b].home, m)
    && b in t.methods[m].outer
  }

  // The link to the variable in the parent.
  ghost predicate Linked(t: Tables, m: nat, k: nat)
    requires m < |t.methods| && k < |t.methods[m].closes|
  {
    var o := t.methods[m].closes[k];
    o.binding < |t.bindings| &&
    if t.bindings[o.binding].home == t.methods[m].parent then o.over.None?
    else o.over.Some? && ClosesOver(t, t.methods[m].parent, o.binding, o.over.value)
  }

  ghost predicate ClosesDiffer(closes: seq<Over>) {
    forall k, l :: 0 <= k < l < |closes| ==> closes[k].binding != closes[l].binding
  }

  // The outer environment of a method is one of its parent.
  ghost predicate GoodOuter(t: Tables, m: nat)
    requires m < |t.methods|
  {
    && (m > 0 ==> t.methods[m].parent < m)
    && |t.methods[m].closes| < t.methods[m].nargs
    && forall b :: b in t.methods[m].outer ==>
         m > 0 && b < |t.bindings| && OwnOrOuter(t, t.methods[m].parent, b)
  }

  // All tables are right, except perhaps for the last link of some methods.
  ghost predicate GoodTables(t: Tables, but: set<nat>) {
    && |t.methods| > 0
    && (forall m :: 0 <= m < |t.methods| ==> GoodOuter(t, m) && ClosesDiffer(t.methods[m].closes))
    && (forall m, k :: 0 <= m < |t.methods| && 0 <= k < |t.methods[m].closes| ==> Closed(t, m, k))
    && (forall m, k :: 0 <= m < |t.methods| && 0 <= k < |t.methods[m].closes| ==>
          Linked(t, m, k) || (m in but && k == |t.methods[m].closes| - 1))
  }

  lemma {:induction false} EnclosesGrows(t: Tables, t': Tables, a: nat, m: nat)
    requires Grows(t, t') && Encloses(t, a, m)
    ensures Encloses(t', a, m)
    decreases m
  {
    if a != m {
      assert MethodGrows(t.methods[m], t'.methods[m]);
      EnclosesGrows(t, t', a, t.methods[m].parent);
    }
  }

  lemma GoodEnvGrows(t: Tables, t': Tables, lex: Lexenv)
    requires Grows(t, t') && GoodEnv(t, lex)
    ensures GoodEnv(t', lex)
  {
    var bs := lex.bindings;
    assert MethodGrows(t.methods[lex.method_], t'.methods[lex.method_]);
    forall i | 0 <= i < |bs|
      ensures bs[i] < |t'.bindings| && BindingGrows(t.bindings[bs[i]], t'.bindings[bs[i]])
      ensures Encloses(t', t'.bindings[bs[i]].home, lex.method_) && OwnOrOuter(t', lex.method_, bs[i])
      ensures t'.bindings[bs[i]].argument ==> ArgumentSlot(t', t'.bindings[bs[i]])
    {
      var b := t.bindings[bs[i]];
      assert BindingGrows(b, t'.bindings[bs[i]]);
      EnclosesGrows(t, t', b.home, lex.method_);
      assert OwnOrOuter(t, lex.method_, bs[i]);
      if b.argument { assert MethodGrows(t.methods[b.home], t'.methods[b.home]); }
    }
    forall i, j | 0 <= i < j < |bs| ensures SlotsDiffer(t', lex.method_, bs[i], bs[j]) {
      assert SlotsDiffer(t, lex.method_, bs[i], bs[j]);
    }
  }

  lemma {:induction false} FindGrows(t: Tables, t': Tables, bs: seq<nat>, id: Id)
    requires Grows(t, t') && ValidIndex(t, bs)
    ensures ValidIndex(t', bs) && Find(t', bs, id) == Find(t, bs, id)
  {
    if bs != [] {
      assert BindingGrows(t.bindings[bs[0]], t'.bindings[bs[0]]);
      FindGrows(t, t', bs[1..], id);
      assert forall i :: 0 <= i < |bs| ==> bs[i] == if i == 0 then bs[0] else bs[1..][i - 1];
    }
  }

  lemma {:induction false} FindMember(t: Tables, bs: seq<nat>, id: Id)
    requires ValidIndex(t, bs) && Find(t, bs, id).Some?
    ensures Find(t, bs, id).value in bs && Find(t, bs, id).value < |t.bindings|
  {
    if t.bindings[bs[0]].id != id { FindMember(t, bs[1..], id); }
  }

  lemma RightRefGrows(t: Tables, t': Tables, lex: Lexenv, id: Id, ref: Ref)
    requires Grows(t, t') && ValidIndex(t, lex.bindings) && RightRef(t, lex, id, ref)
    ensures ValidIndex(t', lex.bindings) && RightRef(t', lex, id, ref)
  {
    FindGrows(t, t', lex.bindings, id);
    if ref.binding.Some? {
      var b := ref.binding.value;
      assert BindingGrows(t.bindings[b], t'.bindings[b]);
      if t.bindings[b].home != lex.method_ {
        assert MethodGrows(t.methods[lex.method_], t'.methods[lex.method_]);
      }
    }
  }

  lemma NewBindingsGrow(t: Tables, t': Tables, first: nat, ids: seq<Id>, home: nat, argument: bool, offset: nat)
    requires Grows(t, t') && NewBindings(t, first, ids, home, argument, offset)
    ensures NewBindings(t', first, ids, home, argument, offset)
  {
    forall j | 0 <= j < |ids|
      ensures var b := t'.bindings[first + j];
              b.id == ids[j] && b.home == home && b.argument == argument && b.offset == offset + j
    {
      assert BindingGrows(t.bindings[first + j], t'.bindings[first + j]);
    }
  }

  lemma RightMethodGrows(t: Tables, t': Tables, m: Method, lex: Lexenv)
    requires Grows(t, t') && GoodTables(t', {}) && RightMethod(t, m, lex)
    ensures RightMethod(t', m, lex)
  {
    assert MethodGrows(t.methods[m.id], t'.methods[m.id]);
    NewBindingsGrow(t, t', t.methods[m.id].firstParam, m.Bound(), m.id, true, 0);
    NotFunctionsGrow(t, t', t.methods[m.id].firstParam, |m.Bound()|);
    ClosesAreRight(t', m.id, lex);
  }

  // Good tables say what a method's notes must say.
  lemma ClosesAreRight(t: Tables, m: nat, lex: Lexenv)
    requires GoodTables(t, {}) && m < |t.methods| && t.methods[m].outer == lex.bindings && t.methods[m].parent == lex.method_
    ensures RightCloses(t, m, lex)
  {
    forall k | 0 <= k < |t.methods[m].closes| ensures RightClose(t, t.methods[m].closes[k], lex) {
      assert Closed(t, m, k) && Linked(t, m, k);
    }
    assert ClosesDiffer(t.methods[m].closes);
  }

  lemma {:induction false} ScopedGrows(t: Tables, t': Tables, e: Expr, lex: Lexenv)
    requires Grows(t, t') && GoodTables(t', {}) && Scoped(t, e, lex)
    ensures Scoped(t', e, lex)
    decreases e
  {
    hide Grows, GoodTables, RightRef, Find;
    match e
    case Var(id, ref) => RightRefGrows(t, t', lex, id, ref);
    case Call(f, args) => ScopedGrows(t, t', f, lex); ScopedArgsGrow(t, t', args, lex);
    case Binary(_, l, r) => ScopedGrows(t, t', l, lex); ScopedGrows(t, t', r, lex);
    case Values(f, args) => ScopedGrows(t, t', f, lex); ScopedArgsGrow(t, t', args, lex);
    case Dot(a, f) => ScopedGrows(t, t', a, lex); ScopedGrows(t, t', f, lex);
    case MethodRef(m) => ScopedMethodGrows(t, t', m, lex);
    case BodyExpr(b) => ScopedBodyGrows(t, t', b, lex);
    case If(c, a, b) => ScopedGrows(t, t', c, lex); ScopedBodyGrows(t, t', a, lex); ScopedBodyGrows(t, t', b, lex);
    case Set(id, ref, v) =>
      RightRefGrows(t, t', lex, id, ref);
      ScopedGrows(t, t', v, lex);
      if ref.binding.Some? { StillSet(t, t', lex, id, ref); }
    case Loop(b) => ScopedBodyGrows(t, t', b, lex);
    case _ =>
  }

  lemma StillSet(t: Tables, t': Tables, lex: Lexenv, id: Id, ref: Ref)
    requires Grows(t, t') && ValidIndex(t, lex.bindings) && RightRef(t, lex, id, ref) && ref.binding.Some?
    requires t.bindings[ref.binding.value].isSet
    ensures ref.binding.value < |t'.bindings| && t'.bindings[ref.binding.value].isSet
  {
    assert BindingGrows(t.bindings[ref.binding.value], t'.bindings[ref.binding.value]);
  }

  lemma {:induction false} ScopedArgsGrow(t: Tables, t': Tables, args: Exprs, lex: Lexenv)
    requires Grows(t, t') && GoodTables(t', {}) && ScopedArgs(t, args, lex)
    ensures ScopedArgs(t', args, lex)
    decreases args
  {
    hide Grows, GoodTables;
    if args.Arg? { ScopedGrows(t, t', args.expr, lex); ScopedArgsGrow(t, t', args.rest, lex); }
  }

  lemma RoomGrows(t: Tables, t': Tables, home: nat, depth: nat)
    requires Grows(t, t') && RoomFor(t, home, depth)
    ensures RoomFor(t', home, depth)
  {
    assert MethodGrows(t.methods[home], t'.methods[home]);
  }

  lemma LocalFunctionsGrow(t: Tables, t': Tables, first: nat, n: nat)
    requires Grows(t, t') && LocalFunctions(t, first, n)
    ensures LocalFunctions(t', first, n)
  {
    forall b | first <= b < first + n ensures BindingGrows(t.bindings[b], t'.bindings[b]) {}
  }

  lemma NotFunctionsGrow(t: Tables, t': Tables, first: nat, n: nat)
    requires Grows(t, t') && NotFunctions(t, first, n)
    ensures NotFunctions(t', first, n)
  {
    forall b | first <= b < first + n ensures BindingGrows(t.bindings[b], t'.bindings[b]) {}
  }

  lemma {:induction false} ScopedBodyGrows(t: Tables, t': Tables, b: Body, lex: Lexenv)
    requires Grows(t, t') && GoodTables(t', {}) && ScopedBody(t, b, lex)
    ensures ScopedBody(t', b, lex)
    decreases b
  {
    hide Grows, GoodTables, NewBindings, LocalFunctions, NotFunctions, RoomFor;
    match b
    case Last(e) => ScopedGrows(t, t', e, lex);
    case Then(e, rest) => ScopedGrows(t, t', e, lex); ScopedBodyGrows(t, t', rest, lex);
    case Let(vars, restVar, init, first, offset, body) =>
      var n := |LetVars(vars, restVar)|;
      ScopedGrows(t, t', init, lex);
      NewBindingsGrow(t, t', first, LetVars(vars, restVar), lex.method_, false, offset);
      NotFunctionsGrow(t, t', first, n);
      RoomGrows(t, t', lex.method_, offset + n);
      ScopedBodyGrows(t, t', body, LetEnv(lex, first, n));
    case Local(ms, first, offset, body) =>
      var n := |Names(ms)|;
      NewBindingsGrow(t, t', first, Names(ms), lex.method_, false, offset);
      LocalFunctionsGrow(t, t', first, n);
      RoomGrows(t, t', lex.method_, offset + n);
      ScopedMethodsGrow(t, t', ms, LocalEnv(lex, first, n));
      ScopedBodyGrows(t, t', body, LocalEnv(lex, first, n));
  }

  lemma {:induction false} ScopedMethodsGrow(t: Tables, t': Tables, ms: Methods, lex: Lexenv)
    requires Grows(t, t') && GoodTables(t', {}) && ScopedMethods(t, ms, lex)
    ensures ScopedMethods(t', ms, lex)
    decreases ms
  {
    hide Grows, GoodTables;
    if ms.AMethod? { ScopedMethodGrows(t, t', ms.method_, lex); ScopedMethodsGrow(t, t', ms.rest, lex); }
  }

  lemma {:induction false} ScopedMethodGrows(t: Tables, t': Tables, m: Method, lex: Lexenv)
    requires Grows(t, t') && GoodTables(t', {}) && ScopedMethod(t, m, lex)
    ensures ScopedMethod(t', m, lex)
    decreases m
  {
    hide GoodTables;
    RightMethodGrows(t, t', m, lex);
    assert MethodGrows(t.methods[m.id], t'.methods[m.id]);
    assert BodyEnv(t', m) == BodyEnv(t, m);
    ScopedGrows(t, t', m.specializers, lex);
    ScopedBodyGrows(t, t', m.body, BodyEnv(t, m));
  }
}
