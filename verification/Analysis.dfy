/**
 Environment analysis: finds the binding of every reference, decides which variables a method
 closes over, and assigns the slots.
 */
module Analysis {
  import opened Wrappers
  import opened Programs
  import opened Growth

  // Changes that leave the variables closed over as they are.
  ghost predicate SameCloses(t: Tables, t': Tables) {
    && Grows(t, t')
    && (forall m :: 0 <= m < |t.methods| ==> t'.methods[m].closes == t.methods[m].closes)
    && (forall m :: |t.methods| <= m < |t'.methods| ==> GoodOuter(t', m) && t'.methods[m].closes == [])
  }

  lemma GoodAfter(t: Tables, t': Tables, but: set<nat>)
    requires GoodTables(t, but) && SameCloses(t, t')
    ensures GoodTables(t', but)
  {
    forall m | 0 <= m < |t'.methods| ensures GoodOuter(t', m) && ClosesDiffer(t'.methods[m].closes) {
      if m < |t.methods| { OuterStays(t, t', m); }
    }
    forall m, k | 0 <= m < |t'.methods| && 0 <= k < |t'.methods[m].closes|
      ensures Closed(t', m, k) && (Linked(t, m, k) ==> Linked(t', m, k)) && m < |t.methods|
    {
      assert Closed(t, m, k);
      ClosedStays(t, t', m, k);
    }
  }

  lemma OuterStays(t: Tables, t': Tables, m: nat)
    requires Grows(t, t') && m < |t.methods| && GoodOuter(t, m)
    ensures GoodOuter(t', m)
  {
    assert MethodGrows(t.methods[m], t'.methods[m]);
    forall b | b in t'.methods[m].outer ensures m > 0 && b < |t'.bindings| && OwnOrOuter(t', t'.methods[m].parent, b) {
      assert OwnOrOuter(t, t.methods[m].parent, b);
      assert BindingGrows(t.bindings[b], t'.bindings[b]);
      assert MethodGrows(t.methods[t.methods[m].parent], t'.methods[t.methods[m].parent]);
    }
  }

  lemma ClosedStays(t: Tables, t': Tables, m: nat, k: nat)
    requires Grows(t, t') && m < |t.methods| && k < |t.methods[m].closes| && Closed(t, m, k)
    requires t'.methods[m].closes[k] == t.methods[m].closes[k]
    requires GoodOuter(t, m)
    ensures Closed(t', m, k) && (Linked(t, m, k) ==> Linked(t', m, k))
  {
    var b := t.methods[m].closes[k].binding;
    assert MethodGrows(t.methods[m], t'.methods[m]);
    assert BindingGrows(t.bindings[b], t'.bindings[b]);
    EnclosesGrows(t, t', t.bindings[b].home, m);
    if Linked(t, m, k) {
      assert MethodGrows(t.methods[t.methods[m].parent], t'.methods[t.methods[m].parent]);
    }
  }

  // Method m closes over one more variable. The link to the parent is still to be made.
  function AddClose(t: Tables, m: nat, b: nat): Tables
    requires m < |t.methods|
  {
    var info := t.methods[m];
    t.(methods := t.methods[m := info.(closes := info.closes + [Over(b, None)], nargs := info.nargs + 1)])
  }

  lemma AddCloseGood(t: Tables, m: nat, b: nat, but: set<nat>)
    requires GoodTables(t, but) && m !in but && 0 < m < |t.methods| && b < |t.bindings|
    requires t.bindings[b].closedOver && t.bindings[b].home != m && Encloses(t, t.bindings[b].home, m)
    requires b in t.methods[m].outer && forall k :: 0 <= k < |t.methods[m].closes| ==> t.methods[m].closes[k].binding != b
    ensures var t' := AddClose(t, m, b);
            && Grows(t, t')
            && GoodTables(t', if t.bindings[b].home == t.methods[m].parent then but else but + {m})
  {
    var t' := AddClose(t, m, b);
    assert Grows(t, t');
    forall i | 0 <= i < |t'.methods| ensures GoodOuter(t', i) && ClosesDiffer(t'.methods[i].closes) {
      OuterStays(t, t', i);
      assert ClosesDiffer(t.methods[i].closes);
    }
    forall i, k | 0 <= i < |t'.methods| && 0 <= k < |t'.methods[i].closes|
      ensures Closed(t', i, k)
      ensures i == m && k == |t.methods[m].closes| ==> (t.bindings[b].home == t.methods[m].parent ==> Linked(t', i, k))
      ensures !(i == m && k == |t.methods[m].closes|) ==> (Linked(t, i, k) ==> Linked(t', i, k))
    {
      if i == m && k == |t.methods[m].closes| {
        EnclosesGrows(t, t', t.bindings[b].home, m);
      } else {
        assert Closed(t, i, k);
        ClosedStays(t, t', i, k);
      }
    }
  }

  // Makes the link from the last variable that m closes over to variable k of its parent.
  function AddLink(t: Tables, m: nat, k: nat): Tables
    requires m < |t.methods| && |t.methods[m].closes| > 0
  {
    var info := t.methods[m];
    var last := |info.closes| - 1;
    t.(methods := t.methods[m := info.(closes := info.closes[last := info.closes[last].(over := Some(k))])])
  }

  lemma AddLinkGood(t: Tables, m: nat, k: nat, but: set<nat>)
    requires GoodTables(t, but) && m < |t.methods| && |t.methods[m].closes| > 0
    requires var b := t.methods[m].closes[|t.methods[m].closes| - 1].binding;
             b < |t.bindings| && t.bindings[b].home != t.methods[m].parent && ClosesOver(t, t.methods[m].parent, b, k)
    ensures var t' := AddLink(t, m, k);
            Grows(t, t') && GoodTables(t', but - {m})
  {
    var t' := AddLink(t, m, k);
    assert Grows(t, t');
    forall i | 0 <= i < |t'.methods| ensures GoodOuter(t', i) && ClosesDiffer(t'.methods[i].closes) {
      OuterStays(t, t', i);
      assert ClosesDiffer(t.methods[i].closes);
    }
    forall i, j | 0 <= i < |t'.methods| && 0 <= j < |t'.methods[i].closes|
      ensures Closed(t', i, j) && (Linked(t', i, j) || (i in but - {m} && j == |t'.methods[i].closes| - 1))
    {
      var b := t.methods[i].closes[j].binding;
      assert Closed(t, i, j);
      EnclosesGrows(t, t', t.bindings[b].home, i);
      assert t'.methods[i].closes[j].binding == b;
      assert MethodGrows(t.methods[t.methods[i].parent], t'.methods[t.methods[i].parent]);
      if i == m && j == |t.methods[m].closes| - 1 {
        assert GoodOuter(t, m);
        assert Linked(t', i, j);
      } else {
        assert t'.methods[i].closes[j] == t.methods[i].closes[j];
        assert Linked(t, i, j) || (i in but && j == |t.methods[i].closes| - 1);
        assert Linked(t, i, j) ==> Linked(t', i, j);
      }
    }
  }

  lemma EnclosesBelow(t: Tables, a: nat, m: nat)
    requires Encloses(t, a, m)
    ensures a <= m
    decreases m
  {
    if a != m { EnclosesBelow(t, a, t.methods[m].parent); }
  }

  // New bindings, in any order, in front of an environment.
  lemma WithNewBindings(t: Tables, lex: Lexenv, lex': Lexenv, news: seq<nat>, first: nat, ids: seq<Id>)
    requires GoodEnv(t, lex) && lex' == Lexenv(lex.method_, news + lex.bindings, lex.depth + |ids|)
    requires NewBindings(t, first, ids, lex.method_, false, lex.depth) && RoomFor(t, lex.method_, lex'.depth)
    requires forall i :: 0 <= i < |lex.bindings| ==> lex.bindings[i] < first
    requires |news| == |ids| && forall i :: 0 <= i < |news| ==> first <= news[i] < first + |ids|
    requires forall i, j :: 0 <= i < j < |news| ==> news[i] != news[j]
    ensures GoodEnv(t, lex')
  {
    var n, bs := |news|, lex'.bindings;
    forall i | 0 <= i < |bs|
      ensures bs[i] < |t.bindings| && OwnOrOuter(t, lex.method_, bs[i])
      ensures Encloses(t, t.bindings[bs[i]].home, lex.method_)
      ensures t.bindings[bs[i]].home == lex.method_ && !t.bindings[bs[i]].argument ==> t.bindings[bs[i]].offset < lex'.depth
      ensures t.bindings[bs[i]].argument ==> ArgumentSlot(t, t.bindings[bs[i]])
      ensures i < n ==> NewSlot(t, bs[i], first, lex)
      ensures i >= n ==> bs[i] == lex.bindings[i - n] && bs[i] < first
    {
      if i < n {
        assert ids[news[i] - first] == t.bindings[first + (news[i] - first)].id;
      } else {
        assert bs[i] == lex.bindings[i - n];
        assert OwnOrOuter(t, lex.method_, lex.bindings[i - n]);
      }
    }
    forall i, j | 0 <= i < j < |bs| ensures bs[i] != bs[j] && SlotsDiffer(t, lex.method_, bs[i], bs[j]) {
      if i >= n {
        assert SlotsDiffer(t, lex.method_, lex.bindings[i - n], lex.bindings[j - n]);
      } else if j < n {
        assert NewSlot(t, bs[i], first, lex) && NewSlot(t, bs[j], first, lex);
        assert news[i] != news[j];
      } else {
        assert NewSlot(t, bs[i], first, lex);
      }
    }
  }

  predicate NewSlot(t: Tables, b: nat, first: nat, lex: Lexenv) {
    && first <= b < |t.bindings|
    && t.bindings[b].home == lex.method_ && !t.bindings[b].argument && t.bindings[b].offset == lex.depth + b - first
  }

  lemma LetEnvGood(t: Tables, lex: Lexenv, first: nat, ids: seq<Id>)
    requires GoodEnv(t, lex) && NewBindings(t, first, ids, lex.method_, false, lex.depth)
    requires RoomFor(t, lex.method_, lex.depth + |ids|)
    requires Older(lex.bindings, first)
    ensures GoodEnv(t, LetEnv(lex, first, |ids|)) && GoodEnv(t, LocalEnv(lex, first, |ids|))
  {
    WithNewBindings(t, lex, LetEnv(lex, first, |ids|), Down(first, |ids|), first, ids);
    WithNewBindings(t, lex, LocalEnv(lex, first, |ids|), Up(first, |ids|), first, ids);
  }

  // The environment of a method's body.
  lemma BodyEnvGood(t: Tables, m: Method, lex: Lexenv)
    requires GoodEnv(t, lex) && RightMethod(t, m, lex)
    ensures GoodEnv(t, BodyEnv(t, m))
  {
    var first, n, bs := t.methods[m.id].firstParam, |m.Bound()|, BodyEnv(t, m).bindings;
    forall i | 0 <= i < |bs|
      ensures bs[i] < |t.bindings| && OwnOrOuter(t, m.id, bs[i]) && Encloses(t, t.bindings[bs[i]].home, m.id)
      ensures t.bindings[bs[i]].argument ==> ArgumentSlot(t, t.bindings[bs[i]])
      ensures i < n ==> ParamSlot(t, bs[i], first, m.id)
      ensures i >= n ==> bs[i] == lex.bindings[i - n] && bs[i] < first && t.bindings[bs[i]].home < m.id
    {
      if i < n {
        assert m.Bound()[bs[i] - first] == t.bindings[first + (bs[i] - first)].id;
      } else {
        assert bs[i] == lex.bindings[i - n];
        EnclosesBelow(t, t.bindings[bs[i]].home, lex.method_);
      }
    }
    forall i, j | 0 <= i < j < |bs| ensures bs[i] != bs[j] && SlotsDiffer(t, m.id, bs[i], bs[j]) {
      if i >= n {
        assert lex.bindings[i - n] != lex.bindings[j - n];
      } else {
        assert ParamSlot(t, bs[i], first, m.id);
        if j < n { assert ParamSlot(t, bs[j], first, m.id); }
      }
    }
  }

  predicate ParamSlot(t: Tables, b: nat, first: nat, m: nat) {
    && first <= b < |t.bindings|
    && t.bindings[b].home == m && t.bindings[b].argument && t.bindings[b].offset == b - first
  }

  /** The analysis of a program. */
  class Analyzer {
    var bindings: seq<Binding>
    var methods: seq<MethodInfo>

    function T(): Tables
      reads this
    {
      Tables(bindings, methods)
    }

    // What every step keeps.
    twostate predicate Step(lex: Lexenv)
      reads this
    {
      GoodTables(T(), {}) && GoodEnv(T(), lex) && Grows(old(T()), T())
    }

    ghost predicate Ready(lex: Lexenv)
      reads this
    {
      GoodTables(T(), {}) && GoodEnv(T(), lex)
    }

    constructor ()
      ensures Ready(Lexenv(0, [], 0)) && bindings == []
    {
      bindings := [];
      methods := [TOP_LEVEL];
      new;
      hide GoodTables, GoodEnv;
      InitialTables();
      assert T() == Tables([], [TOP_LEVEL]);
    }

    // The first binding of that name.
    method FindBinding(id: Id, lex: Lexenv) returns (binding: Option<nat>)
      requires ValidIndex(T(), lex.bindings)
      ensures binding == Find(T(), lex.bindings, id)
    {
      var i := 0;
      while i < |lex.bindings|
        invariant i <= |lex.bindings| && ValidIndex(T(), lex.bindings[i..])
        invariant Find(T(), lex.bindings[i..], id) == Find(T(), lex.bindings, id)
      {
        if bindings[lex.bindings[i]].id == id {
          return Some(lex.bindings[i]);
        }
        assert lex.bindings[i..][1..] == lex.bindings[i + 1..];
        i := i + 1;
      }
      return None;
    }

    // The place of a binding among those that a method closes over.
    method FindOver(m: nat, b: nat) returns (k: nat)
      requires m < |methods|
      ensures k <= |methods[m].closes|
      ensures k < |methods[m].closes| ==> methods[m].closes[k].binding == b
      ensures k == |methods[m].closes| ==> forall j :: 0 <= j < k ==> methods[m].closes[j].binding != b
    {
      k := 0;
      while k < |methods[m].closes|
        invariant k <= |methods[m].closes| && forall j :: 0 <= j < k ==> methods[m].closes[j].binding != b
      {
        if methods[m].closes[k].binding == b {
          return;
        }
        k := k + 1;
      }
    }

    /** Finds the binding of a name. If its home is further out, every method from here up to
        the home closes over it. */
    method FindAndMaybeCloseOver(id: Id, lex: Lexenv) returns (ref: Ref)
      requires Ready(lex)
      modifies this
      ensures Step(lex) && ValidIndex(T(), lex.bindings) && RightRef(T(), lex, id, ref)
    {
      hide Encloses, Closed, Linked, GoodOuter, GoodTables;
      var binding := FindBinding(id, lex);
      ref := Ref(binding, lex.method_, 0);
      if binding.Some? { FindMember(T(), lex.bindings, id); }
      if binding.None? || bindings[binding.value].home == lex.method_ {
        GrowsItself(T());
        return;
      }
      var b := binding.value;
      ghost var t0 := T();
      ghost var i :| 0 <= i < |lex.bindings| && lex.bindings[i] == b;
      assert OwnOrOuter(T(), lex.method_, lex.bindings[i]);
      CloseFlag(T(), b);
      bindings := bindings[b := bindings[b].(closedOver := true)];
      GoodEnvGrows(t0, T(), lex);
      ghost var t1 := T();
      assert Encloses(T(), T().bindings[lex.bindings[i]].home, lex.method_);
      var over := CloseOver(b, lex.method_);
      ref := ref.(over := over);
      GrowsTransitive(t0, t1, T());
      GoodEnvGrows(t1, T(), lex);
      FindGrows(t0, T(), lex.bindings, id);
    }

    // The loop from a method up to the home of a binding.
    method CloseOver(b: nat, method_: nat) returns (over: nat)
      requires GoodTables(T(), {}) && Here(T(), b, method_)
      modifies this`methods
      ensures GoodTables(T(), {}) && Grows(old(T()), T()) && ClosesOver(T(), method_, b, over)
    {
      hide Encloses, Closed, Linked, GoodOuter, GoodTables;
      var m := method_;
      var prev: Option<nat> := None;
      over := 0;
      GrowsItself(T());
      while true
        invariant GoodTables(T(), Pending(prev)) && Grows(old(T()), T()) && Here(T(), b, m)
        invariant if prev.None? then m == method_
                  else LastCloses(T(), prev.value, b, m) && ClosesOver(T(), method_, b, over)
        decreases m
      {
        ghost var t := T();
        var k := FindOver(m, b);
        if k < |methods[m].closes| {
          if prev.None? {
            over := k;
          } else {
            LinkFound(t, prev.value, b, m, k);
            methods := AddLink(T(), prev.value, k).methods;
            GrowsTransitive(old(T()), t, T());
            ClosesOverGrows(t, T(), method_, b, over);
          }
          return;
        }
        CloseNext(t, b, m, prev);
        methods := AddClose(T(), m, b).methods;
        if prev.None? {
          over := k;
        } else {
          methods := AddLink(T(), prev.value, k).methods;
          ClosesOverGrows(t, T(), method_, b, over);
        }
        GrowsTransitive(old(T()), t, T());
        prev := Some(m);
        m := methods[m].parent;
        if m == bindings[b].home {
          return;
        }
      }
    }

    // Bindings for consecutive slots.
    method MakeBindings(ids: seq<Id>, home: nat, function_: bool, argument: bool, offset: nat) returns (first: nat)
      requires GoodTables(T(), {})
      modifies this`bindings
      ensures GoodTables(T(), {}) && Grows(old(T()), T())
      ensures first == old(|bindings|) && bindings[..first] == old(bindings) && |bindings| == first + |ids|
      ensures NewBindings(T(), first, ids, home, argument, offset)
      ensures if function_ then LocalFunctions(T(), first, |ids|) else NotFunctions(T(), first, |ids|)
    {
      hide GoodTables;
      first := |bindings|;
      var i := 0;
      while i < |ids|
        invariant i <= |ids| && |bindings| == first + i && bindings[..first] == old(bindings)
        invariant forall j :: 0 <= j < i ==>
                    bindings[first + j] == Binding(ids[j], home, function_, false, function_, argument, offset + j)
      {
        bindings := bindings + [Binding(ids[i], home, function_, false, function_, argument, offset + i)];
        i := i + 1;
      }
      MoreBindings(old(T()), T());
      BindingsMade(T(), first, ids, home, function_, argument, offset);
    }

    method GrowFrame(home: nat, depth: nat)
      requires GoodTables(T(), {}) && home < |methods|
      modifies this`methods
      ensures GoodTables(T(), {}) && Grows(old(T()), T()) && RoomFor(T(), home, depth)
    {
      hide GoodTables;
      if depth > methods[home].frameSize {
        methods := methods[home := methods[home].(frameSize := depth)];
        MoreRoom(old(T()), T(), home);
      } else {
        GrowsItself(T());
      }
    }

    /** The analysis of a method in the environment it is made in. */
    method AnalyzeMethod(m: Method, lex: Lexenv) returns (r: Method)
      requires Ready(lex)
      modifies this
      ensures Step(lex) && ScopedMethod(T(), r, lex) && EraseMethod(r) == EraseMethod(m) && r.name == m.name
      decreases m, 0
    {
      hide GoodTables, GoodEnv, Grows, Scoped, ScopedBody, RightMethod, NewBindings, NotFunctions;
      var specializers := AnalyzeExpr(m.specializers, lex);
      ghost var t1 := T();
      var id := |methods|;
      var home := id;
      var first := |bindings|;
      var nargs := |m.Params()| + 1;
      EnvInRange(t1, lex);
      MoreMethods(t1, lex, first, nargs);
      methods := methods + [MethodInfo(lex.method_, first, lex.bindings, nargs, [], 0)];
      ghost var t2 := T();
      first := MakeBindings(m.Bound(), home, false, true, 0);
      ghost var t3 := T();
      r := m.(specializers := specializers, id := id);
      MethodIsRight(t1, t2, t3, r, lex);
      GrowsTransitive(t1, t2, t3);
      GoodEnvGrows(t1, t3, lex);
      var body := AnalyzeBody(m.body, BodyEnv(T(), r));
      ghost var before := r;
      r := r.(body := body);
      GrowsTransitive(t1, t3, T());
      GrowsTransitive(old(T()), t1, T());
      GoodEnvGrows(t1, T(), lex);
      SameMethodRight(t3, T(), before, r, lex);
      ScopedGrows(t1, T(), specializers, lex);
    }

    /** The analysis of an expression: it is the same program, and all notes on it are right. */
    method AnalyzeExpr(e: Expr, lex: Lexenv) returns (r: Expr)
      requires Ready(lex)
      modifies this
      ensures Step(lex) && Scoped(T(), r, lex) && Erase(r) == Erase(e)
      decreases e, 1
    {
      hide GoodTables, GoodEnv, Grows, RightRef;
      match e {
        case Var(id, _) =>
          var ref := FindAndMaybeCloseOver(id, lex);
          r := Var(id, ref);
        case Lit(_) =>
          GrowsItself(T());
          r := e;
        case Call(f, args) =>
          var f', args' := AnalyzeCall(f, args, lex, e);
          r := Call(f', args');
        case Binary(op, left, right) =>
          var left', right' := AnalyzePair(left, right, lex, e);
          r := Binary(op, left', right');
        case Values(f, args) =>
          var f', args' := AnalyzeCall(f, args, lex, e);
          r := Values(f', args');
        case Dot(arg, func) =>
          var arg', func' := AnalyzePair(arg, func, lex, e);
          r := Dot(arg', func');
        case MethodRef(m) =>
          var m' := AnalyzeMethod(m, lex);
          r := MethodRef(m');
        case BodyExpr(body) =>
          var body' := AnalyzeBody(body, lex);
          r := BodyExpr(body');
        case If(_, _, _) =>
          r := AnalyzeIf(e, lex);
        case Set(_, _, _) =>
          r := AnalyzeVarset(e, lex);
        case Loop(body) =>
          var body' := AnalyzeBody(body, lex);
          r := Loop(body');
        case Repeat =>
          GrowsItself(T());
          r := Repeat;
      }
    }

    method AnalyzeCall(f: Expr, args: Exprs, lex: Lexenv, ghost whole: Expr) returns (f': Expr, args': Exprs)
      requires Ready(lex) && f < whole && args < whole
      modifies this
      ensures Step(lex) && Scoped(T(), f', lex) && ScopedArgs(T(), args', lex)
      ensures Erase(f') == Erase(f) && EraseArgs(args') == EraseArgs(args)
      decreases whole, 0
    {
      hide GoodTables, GoodEnv, Grows, Scoped, ScopedArgs, Erase, EraseArgs;
      f' := AnalyzeExpr(f, lex);
      ghost var t := T();
      args' := AnalyzeArgs(args, lex);
      ScopedGrows(t, T(), f', lex);
      GrowsTransitive(old(T()), t, T());
    }

    method AnalyzePair(e: Expr, f: Expr, lex: Lexenv, ghost whole: Expr) returns (e': Expr, f': Expr)
      requires Ready(lex) && e < whole && f < whole
      modifies this
      ensures Step(lex) && Scoped(T(), e', lex) && Scoped(T(), f', lex) && Erase(e') == Erase(e) && Erase(f') == Erase(f)
      decreases whole, 0
    {
      hide GoodTables, GoodEnv, Grows, Scoped, Erase;
      e' := AnalyzeExpr(e, lex);
      ghost var t := T();
      f' := AnalyzeExpr(f, lex);
      ScopedGrows(t, T(), e', lex);
      GrowsTransitive(old(T()), t, T());
    }

    method AnalyzeArgs(args: Exprs, lex: Lexenv) returns (r: Exprs)
      requires Ready(lex)
      modifies this
      ensures Step(lex) && ScopedArgs(T(), r, lex) && EraseArgs(r) == EraseArgs(args)
      decreases args, 1
    {
      hide GoodTables, GoodEnv, Grows, Scoped, Erase;
      if args.NoArgs? {
        GrowsItself(T());
        return NoArgs;
      }
      var e := AnalyzeExpr(args.expr, lex);
      ghost var t := T();
      var rest := AnalyzeArgs(args.rest, lex);
      ScopedGrows(t, T(), e, lex);
      GrowsTransitive(old(T()), t, T());
      r := Arg(e, rest);
    }

    method AnalyzeIf(e: Expr, lex: Lexenv) returns (r: Expr)
      requires e.If? && Ready(lex)
      modifies this
      ensures Step(lex) && Scoped(T(), r, lex) && Erase(r) == Erase(e)
      decreases e, 0
    {
      hide GoodTables, GoodEnv, Grows;
      var cond := AnalyzeExpr(e.cond, lex);
      ghost var t1 := T();
      var consequent := AnalyzeBody(e.consequent, lex);
      ghost var t2 := T();
      var alternate := AnalyzeBody(e.alternate, lex);
      GrowsTransitive(t1, t2, T());
      GrowsTransitive(old(T()), t1, T());
      ScopedGrows(t1, T(), cond, lex);
      ScopedBodyGrows(t2, T(), consequent, lex);
      r := If(cond, consequent, alternate);
    }

    method AnalyzeVarset(e: Expr, lex: Lexenv) returns (r: Expr)
      requires e.Set? && Ready(lex)
      modifies this
      ensures Step(lex) && Scoped(T(), r, lex) && Erase(r) == Erase(e)
      decreases e, 0
    {
      hide GoodTables, GoodEnv, Grows, RightRef;
      var ref := FindAndMaybeCloseOver(e.id, lex);
      ghost var t1 := T();
      if ref.binding.Some? {
        var b := ref.binding.value;
        RefInRange(T(), lex, e.id, ref);
        SetFlag(T(), b);
        bindings := bindings[b := bindings[b].(isSet := true)];
      } else {
        GrowsItself(T());
      }
      ghost var t2 := T();
      GoodEnvGrows(t1, t2, lex);
      RightRefGrows(t1, t2, lex, e.id, ref);
      var value := AnalyzeExpr(e.value, lex);
      RightRefGrows(t2, T(), lex, e.id, ref);
      if ref.binding.Some? {
        RefInRange(t2, lex, e.id, ref);
        StillSet(t2, T(), lex, e.id, ref);
      }
      GrowsTransitive(t1, t2, T());
      GrowsTransitive(old(T()), t1, T());
      r := Set(e.id, ref, value);
    }

    method AnalyzeBody(b: Body, lex: Lexenv) returns (r: Body)
      requires Ready(lex)
      modifies this
      ensures Step(lex) && ScopedBody(T(), r, lex) && EraseBody(r) == EraseBody(b)
      decreases b, 1
    {
      hide GoodTables, GoodEnv, Grows, Scoped, Erase;
      match b {
        case Last(e) =>
          var e' := AnalyzeExpr(e, lex);
          r := Last(e');
        case Then(e, rest) =>
          var e' := AnalyzeExpr(e, lex);
          ghost var t := T();
          var rest' := AnalyzeBody(rest, lex);
          ScopedGrows(t, T(), e', lex);
          GrowsTransitive(old(T()), t, T());
          r := Then(e', rest');
        case Let(_, _, _, _, _, _) =>
          r := AnalyzeLet(b, lex);
        case Local(_, _, _, _) =>
          r := AnalyzeLocal(b, lex);
      }
    }

    method AnalyzeLet(b: Body, lex: Lexenv) returns (r: Body)
      requires b.Let? && Ready(lex)
      modifies this
      ensures Step(lex) && ScopedBody(T(), r, lex) && EraseBody(r) == EraseBody(b)
      decreases b, 0
    {
      hide GoodTables, GoodEnv, Grows, Scoped, NewBindings, NotFunctions, RoomFor, Erase, LetVars;
      var init := AnalyzeExpr(b.init, lex);
      ghost var t1 := T();
      var ids := LetVars(b.vars, b.restVar);
      EnvInRange(T(), lex);
      var first := MakeBindings(ids, lex.method_, false, false, lex.depth);
      ghost var t2 := T();
      GoodEnvGrows(t1, t2, lex);
      GrowFrame(lex.method_, lex.depth + |ids|);
      ghost var t3 := T();
      NewBindingsGrow(t2, t3, first, ids, lex.method_, false, lex.depth);
      NotFunctionsGrow(t2, t3, first, |ids|);
      GoodEnvGrows(t2, t3, lex);
      LetEnvGood(t3, lex, first, ids);
      var body := AnalyzeBody(b.body, LetEnv(lex, first, |ids|));
      GrowsTransitive(t2, t3, T());
      GrowsTransitive(t1, t2, T());
      GrowsTransitive(old(T()), t1, T());
      ScopedGrows(t1, T(), init, lex);
      NewBindingsGrow(t3, T(), first, ids, lex.method_, false, lex.depth);
      NotFunctionsGrow(t3, T(), first, |ids|);
      RoomGrows(t3, T(), lex.method_, lex.depth + |ids|);
      GoodEnvGrows(t3, T(), lex);
      r := Let(b.vars, b.restVar, init, first, lex.depth, body);
    }

    method AnalyzeLocal(b: Body, lex: Lexenv) returns (r: Body)
      requires b.Local? && Ready(lex)
      modifies this
      ensures Step(lex) && ScopedBody(T(), r, lex) && EraseBody(r) == EraseBody(b)
      decreases b, 0
    {
      hide GoodTables, GoodEnv, Grows, ScopedMethods, NewBindings, RoomFor, LocalFunctions, EraseMethods, Names;
      ghost var t0 := T();
      var ids := Names(b.methods);
      EnvInRange(T(), lex);
      var first := MakeBindings(ids, lex.method_, true, false, lex.depth);
      ghost var t1 := T();
      GoodEnvGrows(t0, t1, lex);
      GrowFrame(lex.method_, lex.depth + |ids|);
      ghost var t2 := T();
      GrowsTransitive(t0, t1, t2);
      LocalFunctionsGrow(t1, t2, first, |ids|);
      NewBindingsGrow(t1, t2, first, ids, lex.method_, false, lex.depth);
      GoodEnvGrows(t1, t2, lex);
      LetEnvGood(t2, lex, first, ids);
      var env := LocalEnv(lex, first, |ids|);
      var methods' := AnalyzeMethods(b.methods, env);
      ghost var t3 := T();
      var body := AnalyzeBody(b.body, env);
      GrowsTransitive(t2, t3, T());
      GrowsTransitive(t0, t2, T());
      ScopedMethodsGrow(t3, T(), methods', env);
      LocalFunctionsGrow(t2, T(), first, |ids|);
      NewBindingsGrow(t2, T(), first, ids, lex.method_, false, lex.depth);
      RoomGrows(t2, T(), lex.method_, lex.depth + |ids|);
      GoodEnvGrows(t2, T(), lex);
      r := Local(methods', first, lex.depth, body);
    }

    method AnalyzeMethods(ms: Methods, lex: Lexenv) returns (r: Methods)
      requires Ready(lex)
      modifies this
      ensures Step(lex) && ScopedMethods(T(), r, lex) && EraseMethods(r) == EraseMethods(ms) && Names(r) == Names(ms)
      decreases ms, 1
    {
      hide GoodTables, GoodEnv, Grows, ScopedMethod, EraseMethod;
      if ms.NoMethods? {
        GrowsItself(T());
        return NoMethods;
      }
      var m := AnalyzeMethod(ms.method_, lex);
      ghost var t := T();
      var rest := AnalyzeMethods(ms.rest, lex);
      ScopedMethodGrows(t, T(), m, lex);
      GrowsTransitive(old(T()), t, T());
      r := AMethod(m, rest);
    }
  }

  lemma MoreBindings(t: Tables, t': Tables)
    requires GoodTables(t, {}) && t'.methods == t.methods
    requires |t.bindings| <= |t'.bindings| && t'.bindings[..|t.bindings|] == t.bindings
    ensures GoodTables(t', {}) && Grows(t, t')
  {
    forall b | 0 <= b < |t.bindings| ensures BindingGrows(t.bindings[b], t'.bindings[b]) {
      assert t'.bindings[..|t.bindings|][b] == t'.bindings[b];
    }
    GoodAfter(t, t', {});
  }

  lemma BindingsMade(t: Tables, first: nat, ids: seq<Id>, home: nat, function_: bool, argument: bool, offset: nat)
    requires first + |ids| <= |t.bindings|
    requires forall j :: 0 <= j < |ids| ==>
               t.bindings[first + j] == Binding(ids[j], home, function_, false, function_, argument, offset + j)
    ensures NewBindings(t, first, ids, home, argument, offset)
    ensures if function_ then LocalFunctions(t, first, |ids|) else NotFunctions(t, first, |ids|)
  {
    forall b | first <= b < first + |ids| ensures t.bindings[b].function_ == t.bindings[b].isSet == function_ {
      assert t.bindings[b] == Binding(ids[b - first], home, function_, false, function_, argument, offset + (b - first));
    }
  }

  lemma MoreRoom(t: Tables, t': Tables, home: nat)
    requires GoodTables(t, {}) && home < |t.methods| && t'.bindings == t.bindings
    requires |t'.methods| == |t.methods| && t'.methods == t.methods[home := t'.methods[home]]
    requires t'.methods[home] == t.methods[home].(frameSize := t'.methods[home].frameSize)
    requires t.methods[home].frameSize <= t'.methods[home].frameSize
    ensures GoodTables(t', {}) && Grows(t, t')
  {
    GoodAfter(t, t', {});
  }

  lemma MoreMethods(t: Tables, lex: Lexenv, first: nat, nargs: nat)
    requires GoodTables(t, {}) && GoodEnv(t, lex) && nargs > 0
    ensures var t' := t.(methods := t.methods + [MethodInfo(lex.method_, first, lex.bindings, nargs, [], 0)]);
            GoodTables(t', {}) && Grows(t, t')
  {
    var info := MethodInfo(lex.method_, first, lex.bindings, nargs, [], 0);
    var t' := t.(methods := t.methods + [info]);
    assert Grows(t, t');
    forall b | b in lex.bindings ensures b < |t'.bindings| && OwnOrOuter(t', lex.method_, b) {
      var i :| 0 <= i < |lex.bindings| && lex.bindings[i] == b;
      assert OwnOrOuter(t, lex.method_, lex.bindings[i]);
    }
    assert t'.methods[|t.methods|] == info;
    assert GoodOuter(t', |t.methods|);
    GoodAfter(t, t', {});
  }

  // A new method, with its bindings, is noted right, and so is the environment of its body.
  lemma MethodIsRight(t1: Tables, t2: Tables, t3: Tables, m: Method, lex: Lexenv)
    requires GoodEnv(t1, lex) && Grows(t1, t2) && Grows(t2, t3) && GoodTables(t3, {})
    requires m.id == |t1.methods| && lex.method_ < m.id < |t2.methods|
    requires t2.methods[m.id] == MethodInfo(lex.method_, |t1.bindings|, lex.bindings, |m.Params()| + 1, [], 0)
    requires t3.methods == t2.methods
    requires NewBindings(t3, |t1.bindings|, m.Bound(), m.id, true, 0) && NotFunctions(t3, |t1.bindings|, |m.Bound()|)
    ensures RightMethod(t3, m, lex) && GoodEnv(t3, BodyEnv(t3, m))
  {
    ClosesAreRight(t3, m.id, lex);
    GrowsTransitive(t1, t2, t3);
    GoodEnvGrows(t1, t3, lex);
    BodyEnvGood(t3, m, lex);
  }

  lemma SameMethodRight(t: Tables, t': Tables, m: Method, m': Method, lex: Lexenv)
    requires Grows(t, t') && GoodTables(t', {}) && RightMethod(t, m, lex) && m' == m.(body := m'.body)
    ensures RightMethod(t', m', lex) && BodyEnv(t', m') == BodyEnv(t, m)
  {
    RightMethodGrows(t, t', m, lex);
    assert MethodGrows(t.methods[m.id], t'.methods[m.id]);
    assert m'.Params() == m.Params() && m'.Bound() == m.Bound();
  }

  lemma SetFlag(t: Tables, b: nat)
    requires GoodTables(t, {}) && b < |t.bindings|
    ensures var t' := t.(bindings := t.bindings[b := t.bindings[b].(isSet := true)]);
            Grows(t, t') && GoodTables(t', {})
  {
    var t' := t.(bindings := t.bindings[b := t.bindings[b].(isSet := true)]);
    assert SameCloses(t, t');
    GoodAfter(t, t', {});
  }

  lemma RefInRange(t: Tables, lex: Lexenv, id: Id, ref: Ref)
    requires ValidIndex(t, lex.bindings) && RightRef(t, lex, id, ref) && ref.binding.Some?
    ensures ref.binding.value < |t.bindings| && ref.binding.value in lex.bindings
  {
    FindMember(t, lex.bindings, id);
  }

  lemma EnvInRange(t: Tables, lex: Lexenv)
    requires GoodEnv(t, lex)
    ensures forall i :: 0 <= i < |lex.bindings| ==> lex.bindings[i] < |t.bindings|
    ensures lex.method_ < |t.methods|
  {
  }

  const TOP_LEVEL := MethodInfo(0, 0, [], 1, [], 0)

  lemma InitialTables()
    ensures GoodTables(Tables([], [TOP_LEVEL]), {}) && GoodEnv(Tables([], [TOP_LEVEL]), Lexenv(0, [], 0))
  {
    var t := Tables([], [TOP_LEVEL]);
    assert t.methods[0] == TOP_LEVEL;
    assert GoodOuter(t, 0);
  }

  // The loop is at a method that has to close over the binding.
  ghost predicate Here(t: Tables, b: nat, m: nat) {
    && m < |t.methods| && b < |t.bindings| && t.bindings[b].closedOver
    && t.bindings[b].home != m && Encloses(t, t.bindings[b].home, m) && b in t.methods[m].outer
  }

  // The method below has closed over it.
  ghost predicate LastCloses(t: Tables, m: nat, b: nat, parent: nat) {
    && 0 < m < |t.methods| && t.methods[m].parent == parent < m
    && |t.methods[m].closes| > 0 && t.methods[m].closes[|t.methods[m].closes| - 1].binding == b
  }

  function Pending(prev: Option<nat>): set<nat> {
    if prev.None? then {} else {prev.value}
  }

  lemma GrowsItself(t: Tables)
    ensures Grows(t, t)
  {
  }

  lemma ClosesOverGrows(t: Tables, t': Tables, m: nat, b: nat, k: nat)
    requires Grows(t, t') && ClosesOver(t, m, b, k)
    ensures ClosesOver(t', m, b, k)
  {
    assert MethodGrows(t.methods[m], t'.methods[m]);
  }

  lemma CloseFlag(t: Tables, b: nat)
    requires GoodTables(t, {}) && b < |t.bindings|
    ensures var t' := t.(bindings := t.bindings[b := t.bindings[b].(closedOver := true)]);
            Grows(t, t') && GoodTables(t', {})
  {
    var t' := t.(bindings := t.bindings[b := t.bindings[b].(closedOver := true)]);
    assert SameCloses(t, t');
    GoodAfter(t, t', {});
  }

  lemma LinkFound(t: Tables, m: nat, b: nat, parent: nat, k: nat)
    requires GoodTables(t, {m}) && LastCloses(t, m, b, parent) && Here(t, b, parent) && ClosesOver(t, parent, b, k)
    ensures Grows(t, AddLink(t, m, k)) && GoodTables(AddLink(t, m, k), {})
  {
    hide Encloses, GoodTables, Grows;
    AddLinkGood(t, m, k, {m});
    assert {m} - {m} == {};
  }

  // One step outwards: close over the binding here, and link the last step to it.
  lemma CloseNext(t: Tables, b: nat, m: nat, prev: Option<nat>)
    requires GoodTables(t, Pending(prev)) && Here(t, b, m) && (prev.Some? ==> LastCloses(t, prev.value, b, m))
    requires forall k :: 0 <= k < |t.methods[m].closes| ==> t.methods[m].closes[k].binding != b
    ensures var k := |t.methods[m].closes|;
            var t1 := AddClose(t, m, b);
            var t2 := if prev.None? then t1 else AddLink(t1, prev.value, k);
            && Grows(t, t2) && ClosesOver(t2, m, b, k)
            && (var parent := t2.methods[m].parent;
                && LastCloses(t2, m, b, parent)
                && if t2.bindings[b].home == parent then GoodTables(t2, {}) else GoodTables(t2, {m}) && Here(t2, b, parent))
  {
    hide Encloses, GoodTables, Grows, Linked, Closed;
    HereFacts(t, b, m, Pending(prev));
    var k := |t.methods[m].closes|;
    var home, parent := t.bindings[b].home, t.methods[m].parent;
    var t1 := AddClose(t, m, b);
    AddCloseGood(t, m, b, Pending(prev));
    if prev.None? {
      if home != parent { HereGrows(t, t1, b, parent); assert {} + {m} == {m}; }
    } else {
      var but := if home == parent then Pending(prev) else Pending(prev) + {m};
      AddLinkGood(t1, prev.value, k, but);
      var t2 := AddLink(t1, prev.value, k);
      GrowsTransitive(t, t1, t2);
      assert but - Pending(prev) == if home == parent then {} else {m};
      if home != parent { HereGrows(t, t2, b, parent); }
    }
  }

  lemma HereFacts(t: Tables, b: nat, m: nat, but: set<nat>)
    requires GoodTables(t, but) && Here(t, b, m)
    ensures 0 < m && t.methods[m].parent < m
    ensures t.bindings[b].home != t.methods[m].parent ==> Here(t, b, t.methods[m].parent)
  {
    assert GoodOuter(t, m);
    EnclosesBelow(t, t.bindings[b].home, m);
    assert OwnOrOuter(t, t.methods[m].parent, b);
  }

  lemma HereGrows(t: Tables, t': Tables, b: nat, m: nat)
    requires Grows(t, t') && Here(t, b, m)
    ensures Here(t', b, m)
  {
    assert BindingGrows(t.bindings[b], t'.bindings[b]) && MethodGrows(t.methods[m], t'.methods[m]);
    EnclosesGrows(t, t', t.bindings[b].home, m);
  }
}
