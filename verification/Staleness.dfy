/**
 What becomes of remembered dispatch results when classes are added: nothing empties the caches
 then.

 An entry was narrowed by asking whether classes overlap. It stays right as long as no two
 classes that had no common subclass get one.
 */
module Staleness {
  import opened Wrappers
  import opened Linearization
  import opened Types
  import opened Specificity
  import opened Dispatch
  import opened Narrowing

  // Classes have been added.
  ghost predicate WorldGrows(w: World, w': World) {
    |w.cpl| <= |w'.cpl| && forall c: Class :: c < |w.cpl| ==> w'.cpl[c] == w.cpl[c]
  }

  // Some class inherits from both.
  ghost predicate Meet(w: World, a: Class, b: Class) {
    exists e: Class :: e < |w.cpl| && w.Inherits(e, a) && w.Inherits(e, b)
  }

  ghost predicate NoNewMeetings(w: World, w': World) {
    forall a: Class, b: Class :: a < |w.cpl| && b < |w.cpl| && Meet(w', a, b) ==> Meet(w, a, b)
  }

  // The entry made for the call c gives the right answer to a call with args' in the later world.
  ghost predicate RightLater(c: Call, methods: seq<Method>, w': World, args': seq<Obj>) {
    && c.Valid() && w'.Good()
    && GoodMethods(c.w, |c.args|, methods)
    && AllHave(w', args')
    && (assert forall m :: m in methods ==> c.Fits(m); Matches(w', EntryTypes(c, methods, |methods|), args'))
    ==> Call(w', args').Valid() && SortMethods(Call(w', args'), methods) == SortMethods(c, methods)
  }

  // What was known of old classes is still so.

  lemma {:induction false} InstanceSame(w: World, w': World, o: Obj, t: Type)
    requires WorldGrows(w, w') && w.Has(o)
    ensures w'.Has(o) && (InstanceP(w', o, t) <==> InstanceP(w, o, t))
    decreases t
  {
    if t.NoneOf? {
      InstanceSame(w, w', o, t.base);
      forall e | e in t.exclude ensures InstanceP(w', o, e) <==> InstanceP(w, o, e) { InstanceSame(w, w', o, e); }
    }
  }

  lemma {:induction false} CoversSame(w: World, w': World, t: Type)
    requires WorldGrows(w, w') && w.Covers(t)
    ensures w'.Covers(t)
    decreases t
  {
    if t.NoneOf? {
      CoversSame(w, w', t.base);
      forall e | e in t.exclude ensures w'.Covers(e) { CoversSame(w, w', e); }
    }
  }

  lemma {:induction false} SubtypeSame(w: World, w': World, t: Type, s: Type)
    requires WorldGrows(w, w') && w.Covers(t) && s.Plain()
    ensures w'.Covers(t) && (SubtypeP(w', t, s) <==> SubtypeP(w, t, s))
    decreases t
  {
    CoversSame(w, w', t);
    match t
    case Singleton(x) => InstanceSame(w, w', x, s);
    case ClassType(_) =>
    case NoneOf(b, _) => SubtypeSame(w, w', b, s);
  }

  lemma OverlapMeets(w: World, c: Class, d: Class)
    requires w.Good() && c < |w.cpl| && d < |w.cpl|
    ensures OverlapP(w, ClassType(c), ClassType(d)) <==> Meet(w, c, d)
  {
    if Meet(w, c, d) {
      var e: Class :| e < |w.cpl| && w.Inherits(e, c) && w.Inherits(e, d);
      assert e == c || e in w.Subclasses(c);
    } else {
      assert !(w.Inherits(c, c) && w.Inherits(c, d));
    }
  }

  lemma MeetsStill(w: World, w': World, a: Class, b: Class)
    requires WorldGrows(w, w') && Meet(w, a, b)
    ensures Meet(w', a, b)
  {
    var e: Class :| e < |w.cpl| && w.Inherits(e, a) && w.Inherits(e, b);
    assert w'.Inherits(e, a) && w'.Inherits(e, b);
  }

  lemma {:induction false} OverlapSame(w: World, w': World, t: Type, s: Type)
    requires w.Good() && w'.Good() && WorldGrows(w, w') && NoNewMeetings(w, w') && w.Covers(t) && w.Covers(s) && s.Plain()
    ensures w'.Covers(t) && w'.Covers(s) && (OverlapP(w', t, s) <==> OverlapP(w, t, s))
    decreases t
  {
    hide World.Good, Meet;
    CoversSame(w, w', t);
    CoversSame(w, w', s);
    match t
    case Singleton(x) => InstanceSame(w, w', x, s);
    case ClassType(c) =>
      if s.Singleton? {
        InstanceSame(w, w', s.obj, t);
      } else {
        OverlapMeets(w, c, s.cls);
        OverlapMeets(w', c, s.cls);
        if Meet(w, c, s.cls) { MeetsStill(w, w', c, s.cls); }
      }
    case NoneOf(b, _) => OverlapSame(w, w', b, s);
  }

  lemma NarrowOneSame(w: World, w': World, s: Type, o: Obj, t: Type)
    requires w.Good() && w'.Good() && WorldGrows(w, w') && NoNewMeetings(w, w')
    requires w.Has(o) && s.Plain() && w.Covers(s) && w.Covers(t)
    ensures w'.Has(o) && w'.Covers(s) && w'.Covers(t) && NarrowOne(w', s, o, t) == NarrowOne(w, s, o, t)
  {
    hide World.Good, SubtypeP, InstanceP, OverlapP, NoNewMeetings, WorldGrows;
    SubtypeSame(w, w', t, s);
    InstanceSame(w, w', o, s);
    OverlapSame(w, w', t, s);
  }

  lemma StillThere(w: World, w': World, specs: seq<Type>, args: seq<Obj>, types: seq<Type>)
    requires WorldGrows(w, w') && AllHave(w, args) && PlainSpecs(w, specs) && AllCovered(w, types)
    ensures AllHave(w', args) && PlainSpecs(w', specs) && AllCovered(w', types)
  {
    hide World.Covers;
    forall t | t in types ensures w'.Covers(t) { CoversSame(w, w', t); }
    forall t | t in specs ensures w'.Covers(t) { CoversSame(w, w', t); }
  }

  lemma {:induction false} NarrowFromSame(w: World, w': World, specs: seq<Type>, args: seq<Obj>, types: seq<Type>, i: nat)
    requires w.Good() && w'.Good() && WorldGrows(w, w') && NoNewMeetings(w, w')
    requires i <= |specs| && |specs| == |args| == |types|
    requires AllHave(w, args) && PlainSpecs(w, specs) && AllCovered(w, types)
    ensures AllHave(w', args) && PlainSpecs(w', specs) && AllCovered(w', types)
    ensures NarrowFrom(w', specs, args, types, i) == NarrowFrom(w, specs, args, types, i)
    decreases |specs| - i
  {
    hide World.Good, NarrowOne, InstanceP, NoNewMeetings, WorldGrows;
    StillThere(w, w', specs, args, types);
    if i < |specs| {
      NarrowOneSame(w, w', specs[i], args[i], types[i]);
      InstanceSame(w, w', args[i], specs[i]);
      if InstanceP(w, args[i], specs[i]) {
        NarrowFromSame(w, w', specs, args, types[i := NarrowOne(w, specs[i], args[i], types[i])], i + 1);
      }
    }
  }

  lemma CallStill(c: Call, w': World, methods: seq<Method>)
    requires c.Valid() && w'.Good() && WorldGrows(c.w, w') && forall m :: m in methods ==> c.Fits(m)
    ensures Call(w', c.args).Valid() && forall m :: m in methods ==> Call(w', c.args).Fits(m)
  {
    hide World.Good, PlainSpecs, WorldGrows;
    AllStill(c, w');
    forall m | m in methods ensures PlainSpecs(w', m.specs) { StillThere(c.w, w', m.specs, c.args, []); }
  }

  lemma AllStill(c: Call, w': World)
    requires c.Valid() && w'.Good() && WorldGrows(c.w, w')
    ensures AllHave(c.w, c.args) && AllHave(w', c.args)
  {
  }

  lemma {:induction false} EntryTypesSame(c: Call, w': World, methods: seq<Method>, k: nat)
    requires c.Valid() && w'.Good() && WorldGrows(c.w, w') && NoNewMeetings(c.w, w')
    requires k <= |methods| && forall m :: m in methods ==> c.Fits(m)
    ensures Call(w', c.args).Valid() && forall m :: m in methods ==> Call(w', c.args).Fits(m)
    ensures EntryTypes(Call(w', c.args), methods, k) == EntryTypes(c, methods, k)
  {
    hide World.Good, PlainSpecs, NarrowFrom, NoNewMeetings, WorldGrows, AllCovered;
    CallStill(c, w', methods);
    AllStill(c, w');
    if k > 0 {
      EntryTypesSame(c, w', methods, k - 1);
      assert methods[k - 1] in methods;
      NarrowFromSame(c.w, w', methods[k - 1].specs, c.args, EntryTypes(c, methods, k - 1), 0);
    }
  }

  lemma RanksSame(c: Call, w': World, m: Method)
    requires c.Valid() && w'.Good() && WorldGrows(c.w, w') && c.Fits(m)
    ensures var d := Call(w', c.args);
            && d.Valid() && (d.Applicable(m) <==> c.Applicable(m))
            && (c.Applicable(m) ==> Ranks(w', c.args, m.specs) == Ranks(c.w, c.args, m.specs))
  {
    hide World.Good, InstanceP;
    CallStill(c, w', [m]);
    forall i | 0 <= i < |m.specs| ensures InstanceP(w', c.args[i], m.specs[i]) <==> InstanceP(c.w, c.args[i], m.specs[i]) {
      InstanceSame(c.w, w', c.args[i], m.specs[i]);
    }
    assert Call(w', c.args).Fits(m);
    if c.Applicable(m) {
      forall i | 0 <= i < |m.specs| ensures Rank(w', c.args[i], m.specs[i]) == Rank(c.w, c.args[i], m.specs[i]) {
        RankSame(c.w, w', c.args[i], m.specs[i]);
      }
      assert Ranks(w', c.args, m.specs) == Ranks(c.w, c.args, m.specs);
    }
  }

  lemma RankSame(w: World, w': World, o: Obj, s: Type)
    requires WorldGrows(w, w') && w.Has(o) && s.Plain() && InstanceP(w, o, s)
    ensures w'.Has(o) && InstanceP(w', o, s) && Rank(w', o, s) == Rank(w, o, s)
  {
  }

  // The old call sorts the methods as before.
  lemma SortsSame(c: Call, w': World, methods: seq<Method>)
    requires c.Valid() && w'.Good() && WorldGrows(c.w, w') && forall m :: m in methods ==> c.Fits(m)
    ensures Call(w', c.args).Valid() && SortMethods(Call(w', c.args), methods) == SortMethods(c, methods)
  {
    hide World.Good, Call.Applicable, SortMethods, Call.Fits;
    var d := Call(w', c.args);
    CallStill(c, w', methods);
    forall m | m in methods ensures d.Applicable(m) <==> c.Applicable(m) { RanksSame(c, w', m); }
    forall m, n | m in methods && n in methods && c.Applicable(m) && c.Applicable(n) ensures c.Compare(m, n) == d.Compare(m, n) {
      RanksSame(c, w', m);
      RanksSame(c, w', n);
      ComparesSame(c, w', m, n);
    }
    SortMethodsAlike(c, d, methods);
  }

  lemma ComparesSame(c: Call, w': World, m: Method, n: Method)
    requires c.Valid() && c.Applicable(m) && c.Applicable(n)
    requires var d := Call(w', c.args); d.Valid() && d.Applicable(m) && d.Applicable(n)
    requires Ranks(w', c.args, m.specs) == Ranks(c.w, c.args, m.specs) && Ranks(w', c.args, n.specs) == Ranks(c.w, c.args, n.specs)
    ensures Call(w', c.args).Compare(m, n) == c.Compare(m, n)
  {
  }

  lemma GoodMethodsStill(w: World, w': World, n: nat, methods: seq<Method>)
    requires w.Good() && w'.Good() && WorldGrows(w, w') && GoodMethods(w, n, methods)
    ensures GoodMethods(w', n, methods)
  {
    hide World.Good, WorldGrows, Different;
    forall m | m in methods ensures PlainSpecs(w', m.specs) { StillThere(w, w', m.specs, [], []); }
    forall i, j | 0 <= i < j < |methods| ensures Different(w', methods[i], methods[j]) {
      assert methods[i] in methods && methods[j] in methods;
      DifferentStill(w, w', methods[i], methods[j]);
    }
  }

  lemma DifferentStill(w: World, w': World, m: Method, n: Method)
    requires WorldGrows(w, w') && PlainSpecs(w, m.specs) && PlainSpecs(w, n.specs) && |m.specs| == |n.specs| && Different(w, m, n)
    ensures Different(w', m, n)
  {
    hide WorldGrows, SubtypeP, World.Covers;
    var i :| 0 <= i < |m.specs| && !(SubtypeP(w, m.specs[i], n.specs[i]) && SubtypeP(w, n.specs[i], m.specs[i]));
    assert m.specs[i] in m.specs && n.specs[i] in n.specs;
    SubtypeSame(w, w', m.specs[i], n.specs[i]);
    SubtypeSame(w, w', n.specs[i], m.specs[i]);
  }

  lemma EntryStaysRight(c: Call, methods: seq<Method>, w': World, args': seq<Obj>)
    requires w'.Good() && OrderPreserving(w') && WorldGrows(c.w, w') && NoNewMeetings(c.w, w')
    ensures RightLater(c, methods, w', args')
  {
    hide World.Good, OrderPreserving, WorldGrows, NoNewMeetings, EntryTypes, SortMethods, Matches, Call.Valid, PlainSpecs, Different;
    if c.Valid() && GoodMethods(c.w, |c.args|, methods) && AllHave(w', args') {
      assert forall m :: m in methods ==> c.Fits(m);
      ValidCall(c);
      EntryTypesSame(c, w', methods, |methods|);
      SortsSame(c, w', methods);
      GoodMethodsStill(c.w, w', |c.args|, methods);
      PreservingEntryRight(Call(w', c.args), methods, args');
    }
  }

  // The classes a and b meet only in the later world. With a method on each, and one on an
  // instance of a, the entry made for another instance of a forgets the method on b.
  lemma MeetingEntryWrong(w: World, w': World, a: Class, b: Class, d: Class)
    requires w.Good() && w'.Good() && WorldGrows(w, w') && a < |w.cpl| && b < |w.cpl| && !Meet(w, a, b)
    requires d < |w'.cpl| && w'.Inherits(d, a) && w'.Inherits(d, b)
    ensures !RightLater(Call(w, [Obj(1, a)]), ThreeMethods(a, a, b), w', [Obj(0, d)])
  {
    hide World.Good, WorldGrows, Meet, EntryTypes, SortMethods, PlainSpecs;
    var methods, c := ThreeMethods(a, a, b), Call(w, [Obj(1, a)]);
    MeetingEntry(w, a, b);
    MeetingGood(w, a, b);
    NewClass(w, w', a, b, d);
    assert InstanceP(w', Obj(0, d), NoneOf(ClassType(a), [Singleton(Obj(0, a))]));
    assert Matches(w', [NoneOf(ClassType(a), [Singleton(Obj(0, a))])], [Obj(0, d)]);
    MeetingSorted(w, a, b);
    MeetingSortedLater(w', a, b, d);
  }

  lemma NewClass(w: World, w': World, a: Class, b: Class, d: Class)
    requires w.Good() && WorldGrows(w, w') && a < |w.cpl| && b < |w.cpl| && !Meet(w, a, b)
    requires d < |w'.cpl| && w'.Inherits(d, a) && w'.Inherits(d, b)
    ensures d != a && d != b && a != b && a < |w'.cpl| && b < |w'.cpl| && w'.Has(Obj(0, d)) && w.Has(Obj(1, a)) && w'.Has(Obj(0, a))
  {
    if d < |w.cpl| { assert w.Inherits(d, a) && w.Inherits(d, b); }
    assert w.Inherits(a, a);
  }

  lemma MeetingGood(w: World, a: Class, b: Class)
    requires w.Good() && a < |w.cpl| && b < |w.cpl| && !Meet(w, a, b)
    ensures GoodMethods(w, 1, ThreeMethods(a, a, b))
  {
    var ms := ThreeMethods(a, a, b);
    assert w.Has(Obj(0, a)) && w.Inherits(a, a) && !w.Inherits(a, b);
    assert ms[0].specs[0] == ClassType(a) && ms[1].specs[0] == ClassType(b) && ms[2].specs[0] == Singleton(Obj(0, a));
    forall i, j | 0 <= i < j < |ms| ensures Different(w, ms[i], ms[j]) {
      if j == 1 {
        assert !SubtypeP(w, ms[0].specs[0], ms[1].specs[0]);
      } else {
        assert !SubtypeP(w, ms[i].specs[0], ms[j].specs[0]);
      }
    }
  }

  lemma MeetingEntry(w: World, a: Class, b: Class)
    requires w.Good() && a < |w.cpl| && b < |w.cpl| && !Meet(w, a, b)
    ensures Call(w, [Obj(1, a)]).Valid() && forall m :: m in ThreeMethods(a, a, b) ==> Call(w, [Obj(1, a)]).Fits(m)
    ensures EntryTypes(Call(w, [Obj(1, a)]), ThreeMethods(a, a, b), 3) == [NoneOf(ClassType(a), [Singleton(Obj(0, a))])]
  {
    hide World.Good, Meet;
    var call, ms := Call(w, [Obj(1, a)]), ThreeMethods(a, a, b);
    MeetingGood(w, a, b);
    assert w.Has(Obj(1, a)) && w.Has(Obj(0, a));
    TestOne(w, ms[0].specs[0], Obj(1, a), ClassType(a));
    TestOne(w, ms[1].specs[0], Obj(1, a), ClassType(a));
    TestOne(w, ms[2].specs[0], Obj(1, a), ClassType(a));
    NarrowsOnlyOnce(w, a, b);
    assert Classes(call.args) == [ClassType(a)];
    assert EntryTypes(call, ms, 1) == [ClassType(a)];
    assert EntryTypes(call, ms, 2) == [ClassType(a)];
  }

  lemma NarrowsOnlyOnce(w: World, a: Class, b: Class)
    requires w.Good() && a < |w.cpl| && b < |w.cpl| && !Meet(w, a, b)
    ensures NarrowOne(w, ClassType(a), Obj(1, a), ClassType(a)) == ClassType(a)
    ensures NarrowOne(w, ClassType(b), Obj(1, a), ClassType(a)) == ClassType(a)
    ensures NarrowOne(w, Singleton(Obj(0, a)), Obj(1, a), ClassType(a)) == NoneOf(ClassType(a), [Singleton(Obj(0, a))])
  {
    hide Meet;
    OverlapMeets(w, a, b);
    assert w.Inherits(a, a);
    if w.Inherits(a, b) { MeetsItself(w, a, b); }
  }

  lemma MeetsItself(w: World, a: Class, b: Class)
    requires w.Good() && a < |w.cpl| && w.Inherits(a, b)
    ensures Meet(w, a, b)
  {
    assert w.Inherits(a, a);
  }

  // Only the method on a applies.
  lemma MeetingSorted(w: World, a: Class, b: Class)
    requires w.Good() && a < |w.cpl| && b < |w.cpl| && !Meet(w, a, b)
    ensures Call(w, [Obj(1, a)]).Valid() && SortMethods(Call(w, [Obj(1, a)]), ThreeMethods(a, a, b)) == [Some(ThreeMethods(a, a, b)[0])]
  {
    hide World.Good, Meet;
    var c, ms := Call(w, [Obj(1, a)]), ThreeMethods(a, a, b);
    assert w.Has(Obj(1, a)) && w.Has(Obj(0, a));
    assert w.Inherits(a, a) by { InheritsItself(w, a); }
    assert !w.Inherits(a, b) by { if w.Inherits(a, b) { MeetsItself(w, a, b); } }
    assert ms[0].specs[0] == ClassType(a) && ms[1].specs[0] == ClassType(b) && ms[2].specs[0] == Singleton(Obj(0, a));
    assert c.Applicable(ms[0]);
    assert !InstanceP(w, [Obj(1, a)][0], ms[1].specs[0]) && !c.Applicable(ms[1]);
    assert !InstanceP(w, [Obj(1, a)][0], ms[2].specs[0]) && !c.Applicable(ms[2]);
    assert SortFirst(c, ms, 1).ordered == [ms[0]] && SortFirst(c, ms, 1).ambiguous == [];
    assert SortFirst(c, ms, 3) == SortFirst(c, ms, 1);
  }

  lemma InheritsItself(w: World, a: Class)
    requires w.Good() && a < |w.cpl|
    ensures w.Inherits(a, a)
  {
  }

  lemma MeetingSortedLater(w: World, a: Class, b: Class, d: Class)
    requires w.Good() && a < |w.cpl| && b < |w.cpl| && d < |w.cpl| && a != b && d != a && w.Inherits(d, a) && w.Inherits(d, b)
    ensures Call(w, [Obj(0, d)]).Valid() && |SortMethods(Call(w, [Obj(0, d)]), ThreeMethods(a, a, b))| == 2
  {
    hide World.Good;
    ThreeMethodsSorted(w, Obj(0, d), a, a, b);
  }

  /** Remembered results stay right in a world with more classes exactly if no two of the old
      classes get their first common subclass. */
  lemma EntriesStayRightExactly(w: World, w': World)
    requires w.Good() && w'.Good() && WorldGrows(w, w') && OrderPreserving(w')
    ensures NoNewMeetings(w, w') <==> forall c: Call, methods, args' :: c.w == w ==> RightLater(c, methods, w', args')
  {
    hide World.Good, WorldGrows, OrderPreserving, RightLater, Meet;
    if NoNewMeetings(w, w') {
      forall c: Call, methods, args' | c.w == w ensures RightLater(c, methods, w', args') {
        EntryStaysRight(c, methods, w', args');
      }
    } else {
      var a: Class, b: Class :| a < |w.cpl| && b < |w.cpl| && Meet(w', a, b) && !Meet(w, a, b);
      var d := Meeting(w', a, b);
      MeetingEntryWrong(w, w', a, b, d);
      assert !RightLater(Call(w, [Obj(1, a)]), ThreeMethods(a, a, b), w', [Obj(0, d)]);
    }
  }

  lemma Meeting(w: World, a: Class, b: Class) returns (d: Class)
    requires Meet(w, a, b)
    ensures d < |w.cpl| && w.Inherits(d, a) && w.Inherits(d, b)
  {
    d :| d < |w.cpl| && w.Inherits(d, a) && w.Inherits(d, b);
  }

  // Two unrelated classes, and later a subclass of both.
  const OLD := World([[0], [1]])
  const NEW := World([[0], [1], [2, 0, 1]])

  /** Methods on two classes without a common subclass, remembered for an instance of the one: once
      there is a common subclass, the method on the other is forgotten for its instances. */
  lemma NewSubclassForgotten()
    ensures OLD.Good() && NEW.Good() && WorldGrows(OLD, NEW) && OrderPreserving(NEW)
    ensures !RightLater(Call(OLD, [Obj(1, 0)]), ThreeMethods(0, 0, 1), NEW, [Obj(0, 2)])
  {
    hide RightLater, World.Good, OrderPreserving, Meet;
    OldGood();
    NewGood();
    NewInOrder();
    NeverMet();
    MeetingEntryWrong(OLD, NEW, 0, 1, 2);
  }

  lemma OldGood()
    ensures OLD.Good()
  {
  }

  lemma NewGood()
    ensures NEW.Good()
  {
  }

  lemma NeverMet()
    ensures !Meet(OLD, 0, 1) && WorldGrows(OLD, NEW)
  {
  }

  lemma NewInOrder()
    ensures OrderPreserving(NEW)
  {
    assert forall c: Class, x: Class, y: Class :: c < 2 ==> !Before(NEW.cpl[c], x, y);
  }
}
