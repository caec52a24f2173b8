/**
 The types under which the result of a dispatch is remembered.

 An entry starts from the classes of the arguments of one call. Testing a method against the
 call narrows them, until every call that fits the types is one the method treats alike.
 */
module Narrowing {
  import opened Wrappers
  import opened Linearization
  import opened Types
  import opened Specificity
  import opened Dispatch

  // One argument o, remembered as of type t, is tested against the specializer s.
  function NarrowOne(w: World, s: Type, o: Obj, t: Type): (r: Type)
    requires w.Has(o) && s.Plain() && w.Covers(s) && w.Covers(t)
    ensures w.Covers(r)
  {
    if SubtypeP(w, t, s) then t
    else if InstanceP(w, o, s) then Singleton(o)
    else if OverlapP(w, t, s) then RestrictType(s, t)
    else t
  }

  // The types that a call with argument o can be narrowed to.
  predicate Narrowed(w: World, o: Obj, t: Type)
    requires w.Has(o)
  {
    && InstanceP(w, o, t)
    && (t == Singleton(o) || t == ClassType(o.cls) || (t.NoneOf? && t.base == ClassType(o.cls)))
  }

  lemma NarrowOneMeaning(w: World, s: Type, o: Obj, t: Type, x: Obj)
    requires w.Good() && w.Has(o) && w.Has(x) && s.Plain() && w.Covers(s) && w.Covers(t)
    requires Narrowed(w, o, t)
    ensures Narrowed(w, o, NarrowOne(w, s, o, t))
    ensures InstanceP(w, x, NarrowOne(w, s, o, t)) ==>
              InstanceP(w, x, t) && (InstanceP(w, x, s) <==> InstanceP(w, o, s))
  {
    hide World.Good, OverlapP, World.Inherits;
    if SubtypeP(w, t, s) {
      SubtypeSound(w, t, s, o);
      if InstanceP(w, x, t) { SubtypeSound(w, t, s, x); }
    } else if !InstanceP(w, o, s) {
      RestrictTypeMeaning(w, s, t, o);
      RestrictTypeMeaning(w, s, t, x);
      if InstanceP(w, x, t) && InstanceP(w, x, s) { OverlapComplete(w, t, s, x); }
      if t.Singleton? { assert !OverlapP(w, t, s) by { SingletonOverlap(w, t, s); } }
    }
  }

  lemma SingletonOverlap(w: World, t: Type, s: Type)
    requires w.Covers(t) && w.Covers(s) && s.Plain() && t.Singleton?
    ensures OverlapP(w, t, s) <==> InstanceP(w, t.obj, s)
  {
  }

  ghost predicate AllHave(w: World, args: seq<Obj>) {
    forall o :: o in args ==> w.Has(o)
  }

  predicate AllCovered(w: World, types: seq<Type>) {
    forall t :: t in types ==> w.Covers(t)
  }

  // Every argument is an instance of its type.
  ghost predicate Instances(w: World, args: seq<Obj>, types: seq<Type>)
    requires AllHave(w, args)
  {
    |args| == |types| && forall i :: 0 <= i < |args| ==> InstanceP(w, args[i], types[i])
  }

  ghost predicate AllNarrowed(w: World, args: seq<Obj>, types: seq<Type>)
    requires AllHave(w, args)
  {
    |args| == |types| && forall i :: 0 <= i < |args| ==> Narrowed(w, args[i], types[i])
  }

  /** The types after testing a method: its specializers in turn, up to one that does not apply. */
  ghost function NarrowFrom(w: World, specs: seq<Type>, args: seq<Obj>, types: seq<Type>, i: nat): (r: seq<Type>)
    requires i <= |specs| && |specs| == |args| == |types|
    requires AllHave(w, args) && PlainSpecs(w, specs) && AllCovered(w, types)
    ensures AllCovered(w, r) && |r| == |types|
    decreases |specs| - i
  {
    if i == |specs| then types
    else
      var narrowed := types[i := NarrowOne(w, specs[i], args[i], types[i])];
      if InstanceP(w, args[i], specs[i]) then NarrowFrom(w, specs, args, narrowed, i + 1)
      else narrowed
  }

  ghost predicate AppliesFrom(w: World, specs: seq<Type>, args: seq<Obj>, i: nat)
    requires |specs| == |args| && AllHave(w, args)
  {
    forall j :: i <= j < |specs| ==> InstanceP(w, args[j], specs[j])
  }

  // Narrowing keeps the call that it is done for.
  lemma {:induction false} NarrowFromKeeps(w: World, specs: seq<Type>, args: seq<Obj>, types: seq<Type>, i: nat)
    requires i <= |specs| && |specs| == |args| == |types| && w.Good()
    requires AllHave(w, args) && PlainSpecs(w, specs) && AllCovered(w, types) && AllNarrowed(w, args, types)
    ensures AllNarrowed(w, args, NarrowFrom(w, specs, args, types, i))
    decreases |specs| - i
  {
    hide World.Good, Narrowed, InstanceP, NarrowOne;
    if i < |specs| {
      NarrowOneMeaning(w, specs[i], args[i], types[i], args[i]);
      if InstanceP(w, args[i], specs[i]) {
        var narrowed := types[i := NarrowOne(w, specs[i], args[i], types[i])];
        NarrowFromKeeps(w, specs, args, narrowed, i + 1);
      }
    }
  }

  // Every call that fits the narrowed types fits the old ones, and the method applies to it
  // exactly if it applies to the call that the narrowing was done for.
  lemma {:induction false} NarrowFromMeaning(w: World, specs: seq<Type>, args: seq<Obj>, types: seq<Type>, i: nat,
                                             args': seq<Obj>)
    requires i <= |specs| && |specs| == |args| == |types| && w.Good()
    requires AllHave(w, args) && AllHave(w, args') && PlainSpecs(w, specs) && AllCovered(w, types)
    requires AllNarrowed(w, args, types)
    requires Instances(w, args', NarrowFrom(w, specs, args, types, i))
    ensures Instances(w, args', types)
    ensures AppliesFrom(w, specs, args, i) <==> AppliesFrom(w, specs, args', i)
    decreases |specs| - i
  {
    hide World.Good, Narrowed, InstanceP, NarrowOne;
    if i < |specs| {
      NarrowOneMeaning(w, specs[i], args[i], types[i], args'[i]);
      var narrowed := types[i := NarrowOne(w, specs[i], args[i], types[i])];
      if InstanceP(w, args[i], specs[i]) {
        NarrowOneMeaning(w, specs[i], args[i], types[i], args[i]);
        NarrowFromMeaning(w, specs, args, narrowed, i + 1, args');
      }
      assert InstanceP(w, args'[i], narrowed[i]);
    }
  }

  function Classes(args: seq<Obj>): seq<Type> {
    seq(|args|, i requires 0 <= i < |args| => ClassType(args[i].cls))
  }

  // Methods as a generic function holds them: of the same number of arguments, and no two of
  // them with the same specializers.
  ghost predicate GoodMethods(w: World, n: nat, methods: seq<Method>) {
    && (forall m :: m in methods ==> |m.specs| == n && PlainSpecs(w, m.specs))
    && (forall i, j :: 0 <= i < j < |methods| ==> Different(w, methods[i], methods[j]))
  }

  ghost predicate Different(w: World, m: Method, m': Method) {
    |m.specs| == |m'.specs| && PlainSpecs(w, m.specs) && PlainSpecs(w, m'.specs) ==>
      !SameSpecializers(w, m.specs, m'.specs)
  }

  /** The types of the entry made for a call, after the first k methods. */
  ghost function EntryTypes(c: Call, methods: seq<Method>, k: nat): (r: seq<Type>)
    requires c.Valid() && k <= |methods| && forall m :: m in methods ==> c.Fits(m)
    ensures AllCovered(c.w, r) && |r| == |c.args|
  {
    if k == 0 then
      assert forall i :: 0 <= i < |c.args| ==> c.args[i] in c.args;
      Classes(c.args)
    else
      assert methods[k - 1] in methods;
      NarrowFrom(c.w, methods[k - 1].specs, c.args, EntryTypes(c, methods, k - 1), 0)
  }

  /** A call matches the types of an entry: of exactly the class for a class, else an instance. */
  ghost predicate Matches(w: World, types: seq<Type>, args: seq<Obj>)
    requires AllHave(w, args)
  {
    |types| == |args| && forall i :: 0 <= i < |types| ==> MatchesOne(w, types[i], args[i])
  }

  predicate MatchesOne(w: World, t: Type, o: Obj)
    requires w.Has(o)
  {
    if t.ClassType? then t.cls == o.cls else InstanceP(w, o, t)
  }

  lemma {:induction false} EntryTypesNarrowed(c: Call, methods: seq<Method>, k: nat)
    requires c.Valid() && k <= |methods| && forall m :: m in methods ==> c.Fits(m)
    ensures AllNarrowed(c.w, c.args, EntryTypes(c, methods, k))
  {
    assert forall i :: 0 <= i < |c.args| ==> c.args[i] in c.args;
    if k > 0 {
      assert methods[k - 1] in methods;
      EntryTypesNarrowed(c, methods, k - 1);
      NarrowFromKeeps(c.w, methods[k - 1].specs, c.args, EntryTypes(c, methods, k - 1), 0);
    }
  }

  // The methods tested so far apply to every call that fits the entry, or to none.
  lemma {:induction false} SameMethodsApply(c: Call, methods: seq<Method>, k: nat, args': seq<Obj>)
    requires c.Valid() && k <= |methods| && forall m :: m in methods ==> c.Fits(m)
    requires AllHave(c.w, args') && Instances(c.w, args', EntryTypes(c, methods, k))
    ensures forall i :: 0 <= i < k ==> (Applies(c.w, methods[i].specs, c.args) <==> Applies(c.w, methods[i].specs, args'))
  {
    hide InstanceP, World.Good;
    assert forall i :: 0 <= i < |c.args| ==> c.args[i] in c.args;
    if k > 0 {
      assert methods[k - 1] in methods;
      EntryTypesNarrowed(c, methods, k - 1);
      NarrowFromMeaning(c.w, methods[k - 1].specs, c.args, EntryTypes(c, methods, k - 1), 0, args');
      SameMethodsApply(c, methods, k - 1, args');
    }
  }

  ghost predicate Before(l: seq<Class>, x: Class, y: Class) {
    x in l && y in l && Position(l, x) < Position(l, y)
  }

  /** Every class keeps the order of the precedence lists of its superclasses. */
  ghost predicate OrderPreserving(w: World) {
    forall c: Class, d: Class, x: Class, y: Class ::
      c < |w.cpl| && d < |w.cpl| && w.Inherits(d, c) && Before(w.cpl[c], x, y) ==> Before(w.cpl[d], x, y)
  }

  // Specializers compare alike for an argument and for an instance of a type it is narrowed to.
  lemma RanksAlike(w: World, o: Obj, o': Obj, t: Type, a: Type, b: Type)
    requires w.Good() && OrderPreserving(w) && w.Has(o) && w.Has(o') && Narrowed(w, o, t) && InstanceP(w, o', t)
    requires a.Plain() && b.Plain() && InstanceP(w, o, a) && InstanceP(w, o', a) && InstanceP(w, o, b) && InstanceP(w, o', b)
    ensures Rank(w, o, a) <= Rank(w, o, b) <==> Rank(w, o', a) <= Rank(w, o', b)
  {
    hide World.Good, World.InOrder;
    if a.ClassType? && b.ClassType? && a != b && o != o' {
      assert w.Inherits(o'.cls, o.cls);
      var l := w.cpl[o.cls];
      if Position(l, a.cls) < Position(l, b.cls) {
        assert Before(l, a.cls, b.cls);
        assert Before(w.cpl[o'.cls], a.cls, b.cls);
      } else {
        assert l[Position(l, a.cls)] != l[Position(l, b.cls)];
        assert Before(l, b.cls, a.cls);
        assert Before(w.cpl[o'.cls], b.cls, a.cls);
      }
    }
  }

  lemma ComparesAlike(r: seq<nat>, q: seq<nat>, r': seq<nat>, q': seq<nat>)
    requires |r| == |q| == |r'| == |q'|
    requires forall i :: 0 <= i < |r| ==> (r[i] <= q[i] <==> r'[i] <= q'[i])
    requires forall i :: 0 <= i < |r| ==> (q[i] <= r[i] <==> q'[i] <= r'[i])
    ensures CompareRanks(r, q) == CompareRanks(r', q')
  {
    assert r == q <==> AtMost(r, q) && AtMost(q, r);
    assert r' == q' <==> AtMost(r', q') && AtMost(q', r');
    assert AtMost(r, q) <==> AtMost(r', q');
    assert AtMost(q, r) <==> AtMost(q', r');
  }

  lemma CallsCompareAlike(c: Call, args': seq<Obj>, types: seq<Type>, m: Method, n: Method)
    requires c.Valid() && OrderPreserving(c.w) && AllHave(c.w, args') && |args'| == |c.args|
    requires AllNarrowed(c.w, c.args, types) && Instances(c.w, args', types)
    requires c.Applicable(m) && c.Applicable(n)
    requires Call(c.w, args').Applicable(m) && Call(c.w, args').Applicable(n)
    ensures c.Compare(m, n) == Call(c.w, args').Compare(m, n)
  {
    hide World.Good, InstanceP, Narrowed, OrderPreserving, Rank, CompareRanks;
    var c' := Call(c.w, args');
    var r, q := Ranks(c.w, c.args, m.specs), Ranks(c.w, c.args, n.specs);
    var r', q' := Ranks(c.w, args', m.specs), Ranks(c.w, args', n.specs);
    forall i | 0 <= i < |r| ensures (r[i] <= q[i] <==> r'[i] <= q'[i]) && (q[i] <= r[i] <==> q'[i] <= r'[i]) {
      RanksAlike(c.w, c.args[i], args'[i], types[i], m.specs[i], n.specs[i]);
      RanksAlike(c.w, c.args[i], args'[i], types[i], n.specs[i], m.specs[i]);
    }
    ComparesAlike(r, q, r', q');
  }

  /** Every call that fits the entry made for c sorts the methods as c does. */
  lemma EntryIsRight(c: Call, methods: seq<Method>, args': seq<Obj>)
    requires c.Valid() && OrderPreserving(c.w) && forall m :: m in methods ==> c.Fits(m)
    requires AllHave(c.w, args') && Instances(c.w, args', EntryTypes(c, methods, |methods|))
    ensures Call(c.w, args').Valid() && SortMethods(Call(c.w, args'), methods) == SortMethods(c, methods)
  {
    hide OrderPreserving, EntryTypes, Call.Compare, Call.Applicable, Matches, Instances, World.Good, AllNarrowed, SortMethods, PlainSpecs;
    SameMethodsFit(c, methods, args');
    forall m, n | m in methods && n in methods && c.Applicable(m) && c.Applicable(n)
      ensures c.Compare(m, n) == Call(c.w, args').Compare(m, n)
    {
      EntryTypesNarrowed(c, methods, |methods|);
      CallsCompareAlike(c, args', EntryTypes(c, methods, |methods|), m, n);
    }
    SortMethodsAlike(c, Call(c.w, args'), methods);
  }

  lemma SortMethodsAlike(c: Call, d: Call, methods: seq<Method>)
    requires c.Valid() && d.Valid() && Alike(c, d, methods)
    ensures SortMethods(c, methods) == SortMethods(d, methods)
  {
    SortAlike(c, d, methods, |methods|);
  }

  lemma SameMethodsFit(c: Call, methods: seq<Method>, args': seq<Obj>)
    requires c.Valid() && forall m :: m in methods ==> c.Fits(m)
    requires AllHave(c.w, args') && Instances(c.w, args', EntryTypes(c, methods, |methods|))
    ensures Call(c.w, args').Valid() && |args'| == |c.args|
    ensures forall m :: m in methods ==> (c.Applicable(m) <==> Call(c.w, args').Applicable(m))
  {
    hide World.Good, EntryTypes, Applies, PlainSpecs;
    SameMethodsApply(c, methods, |methods|, args');
    forall m | m in methods ensures c.Applicable(m) <==> Call(c.w, args').Applicable(m) {
      var i :| 0 <= i < |methods| && methods[i] == m;
    }
  }

  lemma MatchesAreInstances(w: World, args: seq<Obj>, types: seq<Type>)
    requires w.Good() && AllHave(w, args) && Matches(w, types, args)
    ensures Instances(w, args, types)
  {
    forall i | 0 <= i < |args| ensures InstanceP(w, args[i], types[i]) {
      assert MatchesOne(w, types[i], args[i]);
      assert w.Has(args[i]);
    }
  }

  // The entry made for the call c gives the right answer to a call with args'.
  ghost predicate EntryRight(c: Call, methods: seq<Method>, args': seq<Obj>) {
    && c.Valid()
    && GoodMethods(c.w, |c.args|, methods)
    && AllHave(c.w, args')
    && (assert forall m :: m in methods ==> c.Fits(m); Matches(c.w, EntryTypes(c, methods, |methods|), args'))
    ==> Call(c.w, args').Valid() && SortMethods(Call(c.w, args'), methods) == SortMethods(c, methods)
  }

  /** Remembering results is right for all methods and all calls exactly in the worlds in which
      every class keeps the order of its superclasses' precedence lists. */
  lemma EntriesRightExactly(w: World)
    requires w.Good()
    ensures OrderPreserving(w) <==> forall c: Call, methods, args' :: c.w == w ==> EntryRight(c, methods, args')
  {
    hide World.Good, EntryTypes, SortMethods, Matches;
    if OrderPreserving(w) {
      forall c: Call, methods, args' | c.w == w ensures EntryRight(c, methods, args') {
        PreservingEntryRight(c, methods, args');
      }
    } else {
      var c: Class, d: Class, x: Class, y: Class :|
        c < |w.cpl| && d < |w.cpl| && w.Inherits(d, c) && Before(w.cpl[c], x, y) && !Before(w.cpl[d], x, y);
      ReorderedEntryWrong(w, c, d, x, y);
      assert !EntryRight(Call(w, [Obj(0, c)]), ThreeMethods(d, x, y), [Obj(1, d)]);
    }
  }

  lemma PreservingEntryRight(c: Call, methods: seq<Method>, args': seq<Obj>)
    requires OrderPreserving(c.w)
    ensures EntryRight(c, methods, args')
  {
    hide World.Good, EntryTypes, SortMethods, Matches, Call.Valid, PlainSpecs, OrderPreserving;
    if c.Valid() && GoodMethods(c.w, |c.args|, methods) && AllHave(c.w, args') {
      assert forall m :: m in methods ==> c.Fits(m);
      if Matches(c.w, EntryTypes(c, methods, |methods|), args') {
        ValidCall(c);
        MatchesAreInstances(c.w, args', EntryTypes(c, methods, |methods|));
        EntryIsRight(c, methods, args');
      }
    }
  }

  lemma ValidCall(c: Call)
    requires c.Valid()
    ensures c.w.Good() && AllHave(c.w, c.args)
  {
  }

  // Methods on the classes x and y, and one on a single instance of the class d.
  function ThreeMethods(d: Class, x: Class, y: Class): seq<Method> {
    [Method(0, [ClassType(x)]), Method(1, [ClassType(y)]), Method(2, [Singleton(Obj(0, d))])]
  }

  // The subclass d puts y before x, its superclass c puts x before y.
  ghost predicate Reordered(w: World, c: Class, d: Class, x: Class, y: Class)
    requires w.Good()
  {
    && c < |w.cpl| && d < |w.cpl| && w.Inherits(d, c)
    && Before(w.cpl[c], x, y) && !Before(w.cpl[d], x, y)
  }

  lemma ReorderedFacts(w: World, c: Class, d: Class, x: Class, y: Class)
    requires w.Good() && Reordered(w, c, d, x, y)
    ensures Before(w.cpl[d], y, x) && c != d && x < |w.cpl| && y < |w.cpl|
    ensures !(w.Inherits(x, y) && w.Inherits(y, x))
  {
    assert x <= c && y <= c;
    assert x in w.cpl[d] && y in w.cpl[d];
    var i, j := Position(w.cpl[d], x), Position(w.cpl[d], y);
    assert w.cpl[d][i] == x && w.cpl[d][j] == y;
    assert w.InOrder(d, i, j) && w.InOrder(d, j, i);
  }

  lemma ThreeMethodsGood(w: World, c: Class, d: Class, x: Class, y: Class)
    requires w.Good() && Reordered(w, c, d, x, y)
    ensures GoodMethods(w, 1, ThreeMethods(d, x, y))
  {
    hide World.Good, Reordered;
    ReorderedFacts(w, c, d, x, y);
    assert w.Has(Obj(0, d)) by { DIsClass(w, c, d, x, y); }
    var ms := ThreeMethods(d, x, y);
    forall i, j | 0 <= i < j < |ms| ensures Different(w, ms[i], ms[j]) {
      assert ms[i].specs[0] == if i == 0 then ClassType(x) else ClassType(y);
      if j == 1 {
        assert !(SubtypeP(w, ms[i].specs[0], ms[j].specs[0]) && SubtypeP(w, ms[j].specs[0], ms[i].specs[0]));
      } else {
        assert !SubtypeP(w, ms[i].specs[0], ms[j].specs[0]);
      }
    }
  }

  lemma DIsClass(w: World, c: Class, d: Class, x: Class, y: Class)
    requires w.Good() && Reordered(w, c, d, x, y)
    ensures w.Has(Obj(0, c)) && w.Has(Obj(0, d)) && w.Inherits(d, c) && w.Inherits(c, x) && w.Inherits(c, y)
  {
  }

  lemma ThreeMethodsEntry(w: World, c: Class, d: Class, x: Class, y: Class)
    requires w.Good() && Reordered(w, c, d, x, y)
    ensures Call(w, [Obj(0, c)]).Valid()
    ensures forall m :: m in ThreeMethods(d, x, y) ==> Call(w, [Obj(0, c)]).Fits(m)
    ensures EntryTypes(Call(w, [Obj(0, c)]), ThreeMethods(d, x, y), 3)
            == [NoneOf(ClassType(c), [Singleton(Obj(0, d))])]
  {
    hide World.Good, Reordered;
    ReorderedFacts(w, c, d, x, y);
    DIsClass(w, c, d, x, y);
    ThreeMethodsGood(w, c, d, x, y);
    var call, ms := Call(w, [Obj(0, c)]), ThreeMethods(d, x, y);
    TestOne(w, ms[0].specs[0], Obj(0, c), ClassType(c));
    TestOne(w, ms[1].specs[0], Obj(0, c), ClassType(c));
    TestOne(w, ms[2].specs[0], Obj(0, c), ClassType(c));
    assert Classes(call.args) == [ClassType(c)];
    assert EntryTypes(call, ms, 1) == [ClassType(c)];
    assert EntryTypes(call, ms, 2) == [ClassType(c)];
  }

  // Testing one specializer against a call with one argument.
  lemma TestOne(w: World, s: Type, o: Obj, t: Type)
    requires AllHave(w, [o]) && w.Has(o) && PlainSpecs(w, [s]) && s.Plain() && w.Covers(s) && AllCovered(w, [t]) && w.Covers(t)
    ensures NarrowFrom(w, [s], [o], [t], 0) == [NarrowOne(w, s, o, t)]
  {
    var narrowed := [t][0 := NarrowOne(w, s, o, t)];
    assert NarrowFrom(w, [s], [o], narrowed, 1) == narrowed;
  }

  lemma ThreeMethodsSorted(w: World, o: Obj, d: Class, x: Class, y: Class)
    requires w.Good() && w.Has(o) && o != Obj(0, d) && x < |w.cpl| && y < |w.cpl| && d < |w.cpl| && x != y
    requires w.Inherits(o.cls, x) && w.Inherits(o.cls, y)
    ensures var ms := ThreeMethods(d, x, y);
            Call(w, [o]).Valid() && SortMethods(Call(w, [o]), ms) ==
            if Before(w.cpl[o.cls], x, y) then [Some(ms[0]), Some(ms[1])] else [Some(ms[1]), Some(ms[0])]
  {
    hide World.Good;
    var call, ms := Call(w, [o]), ThreeMethods(d, x, y);
    assert ms[2].specs[0] == Singleton(Obj(0, d)) && !InstanceP(w, [o][0], ms[2].specs[0]);
    assert call.Applicable(ms[0]) && call.Applicable(ms[1]) && !call.Applicable(ms[2]);
    var r, q := Ranks(w, [o], ms[0].specs), Ranks(w, [o], ms[1].specs);
    assert r[0] < q[0] <==> Before(w.cpl[o.cls], x, y);
    assert r[0] != q[0];
    assert call.Compare(ms[1], ms[0]) == if Before(w.cpl[o.cls], x, y) then LessSpecific else MoreSpecific;
    assert SortFirst(call, ms, 1).ordered == [ms[0]];
    assert SortFirst(call, ms, 1).ambiguous == [];
    InsertSecond(call, ms[0], ms[1]);
    assert SortFirst(call, ms, 3) == SortFirst(call, ms, 2);
  }

  lemma InsertSecond(c: Call, m: Method, n: Method)
    requires c.Valid() && c.Applicable(m) && c.Applicable(n) && c.Compare(n, m) in {LessSpecific, MoreSpecific}
    ensures Insert(c, Sorted([m], []), n) == Sorted(if c.Compare(n, m) == LessSpecific then [m, n] else [n, m], [])
  {
    hide Call.Compare, Call.Applicable;
    assert StopAt(c, n, [m][1..]) == 0;
    assert [m][..0] + [n] + [m][0..] == [n, m];
  }

  // With the three methods, the entry made for an instance of c misorders them for an instance
  // of d.
  lemma ReorderedEntryWrong(w: World, c: Class, d: Class, x: Class, y: Class)
    requires w.Good() && Reordered(w, c, d, x, y)
    ensures !EntryRight(Call(w, [Obj(0, c)]), ThreeMethods(d, x, y), [Obj(1, d)])
  {
    hide World.Good, EntryTypes, SortMethods, Reordered;
    var methods := ThreeMethods(d, x, y);
    ReorderedFacts(w, c, d, x, y);
    DIsClass(w, c, d, x, y);
    ThreeMethodsGood(w, c, d, x, y);
    ThreeMethodsEntry(w, c, d, x, y);
    WrongOrder(w, c, d, x, y);
    assert InstanceP(w, Obj(1, d), ClassType(c)) && !InstanceP(w, Obj(1, d), Singleton(Obj(0, d)));
    assert InstanceP(w, Obj(1, d), NoneOf(ClassType(c), [Singleton(Obj(0, d))]));
    assert Matches(w, [NoneOf(ClassType(c), [Singleton(Obj(0, d))])], [Obj(1, d)]);
  }

  lemma WrongOrder(w: World, c: Class, d: Class, x: Class, y: Class)
    requires w.Good() && Reordered(w, c, d, x, y)
    ensures var ms := ThreeMethods(d, x, y);
            && Call(w, [Obj(0, c)]).Valid() && Call(w, [Obj(1, d)]).Valid()
            && SortMethods(Call(w, [Obj(0, c)]), ms) != SortMethods(Call(w, [Obj(1, d)]), ms)
  {
    hide World.Good, SortMethods;
    ReorderedFacts(w, c, d, x, y);
    DIsClass(w, c, d, x, y);
    ThreeMethodsSorted(w, Obj(0, c), d, x, y);
    ThreeMethodsSorted(w, Obj(1, d), d, x, y);
    var ms := ThreeMethods(d, x, y);
    assert [Some(ms[0]), Some(ms[1])][0] != [Some(ms[1]), Some(ms[0])][0];
  }
}
