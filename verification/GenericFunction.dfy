/**
 Generic functions: dispatch through the cache, and adding and removing methods.
 */
module GenericFunctions {
  import opened Wrappers
  import opened Linearization
  import opened Types
  import opened Specificity
  import opened Dispatch
  import opened Narrowing

  // What the cache remembers: for calls that match the types, the sorted methods.
  datatype CacheEntry<T> = CacheEntry(simple: bool, types: seq<Type>, result: T)

  // A simple entry holds the classes of the arguments.
  predicate GoodEntry<T>(w: World, e: CacheEntry<T>, n: nat) {
    |e.types| == n && AllCovered(w, e.types) && (e.simple ==> forall t :: t in e.types ==> t.ClassType?)
  }

  /** The lookup test of an entry. */
  method EntryMatches<T>(w: World, e: CacheEntry<T>, args: seq<Obj>) returns (found: bool)
    requires w.Good() && GoodEntry(w, e, |args|) && AllHave(w, args)
    ensures found <==> Matches(w, e.types, args)
  {
    var i := 0;
    while i < |args|
      invariant i <= |args| && forall j :: 0 <= j < i ==> MatchesOne(w, e.types[j], args[j])
    {
      assert e.types[i] in e.types;
      var simpleArg := e.simple || e.types[i].ClassType?;
      if if simpleArg then e.types[i] != ClassType(args[i].cls) else !InstanceP(w, args[i], e.types[i]) {
        assert !MatchesOne(w, e.types[i], args[i]);
        return false;
      }
      i := i + 1;
    }
    return true;
  }

  /** Does the method apply? Narrows the types of the entry by what was found out. */
  method ApplicableNarrowing<T>(w: World, specs: seq<Type>, args: seq<Obj>, entry: CacheEntry<T>)
    returns (applies: bool, entry': CacheEntry<T>)
    requires w.Good() && |specs| == |args| && AllHave(w, args) && PlainSpecs(w, specs)
    requires GoodEntry(w, entry, |args|) && AllNarrowed(w, args, entry.types)
    ensures applies <==> Applies(w, specs, args)
    ensures GoodEntry(w, entry', |args|) && AllNarrowed(w, args, entry'.types)
    ensures entry'.types == NarrowFrom(w, specs, args, entry.types, 0) && entry'.result == entry.result
  {
    hide World.Good, Narrowed, InstanceP, SubtypeP, OverlapP, World.Covers, NarrowFrom;
    entry' := entry;
    NarrowFromKeeps(w, specs, args, entry.types, 0);
    var i := 0;
    while i < |specs|
      invariant i <= |specs| && forall j :: 0 <= j < i ==> InstanceP(w, args[j], specs[j])
      invariant GoodEntry(w, entry', |args|) && AllNarrowed(w, args, entry'.types) && entry'.result == entry.result
      invariant NarrowFrom(w, specs, args, entry.types, 0) == NarrowFrom(w, specs, args, entry'.types, i)
    {
      var t, s, o := entry'.types[i], specs[i], args[i];
      assert t in entry'.types && s in specs && o in args;
      NarrowFromStep(w, specs, args, entry'.types, i);
      if !SubtypeP(w, t, s) {
        if InstanceP(w, o, s) {
          entry' := entry'.(types := entry'.types[i := Singleton(o)], simple := false);
        } else {
          if OverlapP(w, t, s) {
            entry' := entry'.(types := entry'.types[i := RestrictType(s, t)], simple := false);
          }
          return false, entry';
        }
      } else {
        SubtypeApplies(w, s, o, t);
        assert entry'.types[i := t] == entry'.types;
      }
      i := i + 1;
    }
    NarrowFromEnd(w, specs, args, entry'.types);
    return true, entry';
  }

  lemma NarrowFromStep(w: World, specs: seq<Type>, args: seq<Obj>, types: seq<Type>, i: nat)
    requires w.Good() && i < |specs| == |args| == |types|
    requires AllHave(w, args) && PlainSpecs(w, specs) && AllCovered(w, types) && AllNarrowed(w, args, types)
    ensures w.Has(args[i]) && specs[i].Plain() && w.Covers(specs[i]) && w.Covers(types[i])
    ensures var narrowed := types[i := NarrowOne(w, specs[i], args[i], types[i])];
            && AllCovered(w, narrowed) && AllNarrowed(w, args, narrowed)
            && NarrowFrom(w, specs, args, types, i) ==
               if InstanceP(w, args[i], specs[i]) then NarrowFrom(w, specs, args, narrowed, i + 1) else narrowed
  {
    hide World.Good, Narrowed, InstanceP, NarrowOne;
    assert args[i] in args && specs[i] in specs && types[i] in types;
    NarrowOneMeaning(w, specs[i], args[i], types[i], args[i]);
  }

  lemma NarrowFromEnd(w: World, specs: seq<Type>, args: seq<Obj>, types: seq<Type>)
    requires |specs| == |args| == |types|
    requires AllHave(w, args) && PlainSpecs(w, specs) && AllCovered(w, types)
    ensures NarrowFrom(w, specs, args, types, |specs|) == types
  {
  }

  lemma SubtypeApplies(w: World, s: Type, o: Obj, t: Type)
    requires w.Good() && w.Has(o) && s.Plain() && w.Covers(t) && Narrowed(w, o, t) && SubtypeP(w, t, s)
    ensures InstanceP(w, o, s)
  {
    hide World.Good, SubtypeP;
    SubtypeSound(w, t, s, o);
  }

  // The types of a fresh entry: the classes of the arguments.
  method ArgumentClasses(w: World, args: seq<Obj>) returns (types: seq<Type>)
    requires w.Good() && AllHave(w, args)
    ensures types == Classes(args) && AllCovered(w, types) && AllNarrowed(w, args, types)
    ensures forall t :: t in types ==> t.ClassType?
  {
    hide World.Good;
    types := [];
    var i := 0;
    while i < |args|
      invariant i <= |args| && types == Classes(args)[..i]
    {
      types := types + [ClassType(args[i].cls)];
      i := i + 1;
    }
    ClassesNarrowed(w, args);
  }

  lemma ClassesNarrowed(w: World, args: seq<Obj>)
    requires w.Good() && AllHave(w, args)
    ensures AllCovered(w, Classes(args)) && AllNarrowed(w, args, Classes(args))
  {
    forall i | 0 <= i < |args| ensures Narrowed(w, args[i], Classes(args)[i]) && w.Has(args[i]) {
      assert args[i] in args;
    }
  }

  // Methods that rank alike for every argument have the same specializers.
  lemma NeverIdentical(c: Call, m: Method, n: Method)
    requires c.Valid() && c.Applicable(m) && c.Applicable(n) && Different(c.w, m, n)
    ensures c.Compare(m, n) != Identical && c.Compare(n, m) != Identical
  {
    hide World.Good, SubtypeP, InstanceP, Rank;
    var r, q := Ranks(c.w, c.args, m.specs), Ranks(c.w, c.args, n.specs);
    if r == q {
      forall i | 0 <= i < |m.specs|
        ensures SubtypeP(c.w, m.specs[i], n.specs[i]) && SubtypeP(c.w, n.specs[i], m.specs[i])
      {
        assert r[i] == q[i];
        assert m.specs[i] in m.specs && n.specs[i] in n.specs;
        SubtypeIsRank(c.w, c.args[i], m.specs[i], n.specs[i]);
        SubtypeIsRank(c.w, c.args[i], n.specs[i], m.specs[i]);
      }
    }
  }

  ghost predicate NoneIdentical(c: Call, m: Method, l: seq<Method>)
    requires c.Valid()
  {
    c.Applicable(m) && forall n :: n in l ==> c.Applicable(n) && c.Compare(m, n) != Identical
  }

  // One comparison, as a fact about the call.
  method Compared(c: Call, m: Method, n: Method) returns (r: Comparison)
    requires c.Valid() && c.Applicable(m) && c.Applicable(n)
    ensures r == c.Compare(m, n)
  {
    r := CompareMethods(c.w, m, n, c.args);
  }

  /** The loops over the ordered and the ambiguous methods, for one applicable method. */
  method InsertMethod(c: Call, s: Sorted, m: Method) returns (r: Sorted)
    requires c.Valid() && NoneIdentical(c, m, s.ordered) && NoneIdentical(c, m, s.ambiguous)
    ensures r == Insert(c, s, m)
  {
    hide Call.Valid, Call.Applicable, Call.Compare, StopAt, Clashing;
    var i := FindStop(c, s.ordered, m);
    if i < |s.ordered| {
      assert s.ordered[i] in s.ordered;
      var comparison := Compared(c, m, s.ordered[i]);
      if comparison == MoreSpecific {
        return s.(ordered := s.ordered[..i] + [m] + s.ordered[i..]);
      }
      return Sorted(s.ordered[..i], [m, s.ordered[i]]);
    }
    var newAmbiguous, moreSpecific := FindClashing(c, s.ambiguous, m);
    r := if newAmbiguous != [] then s.(ambiguous := newAmbiguous)
         else if moreSpecific then s.(ordered := s.ordered + [m])
         else s;
  }

  // The first method that m is more specific than or ambiguous with.
  method FindStop(c: Call, ordered: seq<Method>, m: Method) returns (i: nat)
    requires c.Valid() && NoneIdentical(c, m, ordered)
    ensures i == StopAt(c, m, ordered)
  {
    hide Call.Valid, Call.Applicable, Call.Compare;
    i := 0;
    while i < |ordered|
      invariant i <= |ordered| && i + StopAt(c, m, ordered[i..]) == StopAt(c, m, ordered)
    {
      assert ordered[i] in ordered;
      var comparison := Compared(c, m, ordered[i]);
      match comparison {
        case MoreSpecific =>
          return;
        case LessSpecific =>
          assert ordered[i..][1..] == ordered[i + 1..];
        case Ambiguous =>
          return;
        case Identical =>
          assert false;
      }
      i := i + 1;
    }
  }

  // The methods that m is ambiguous with, and whether m is less specific than none of them.
  method FindClashing(c: Call, ambiguous: seq<Method>, m: Method) returns (newAmbiguous: seq<Method>, moreSpecific: bool)
    requires c.Valid() && NoneIdentical(c, m, ambiguous)
    ensures newAmbiguous == Clashing(c, m, ambiguous)
    ensures moreSpecific <==> forall n :: n in ambiguous ==> c.Compare(m, n) != LessSpecific
  {
    hide Call.Valid, Call.Applicable, Call.Compare;
    newAmbiguous, moreSpecific := [], true;
    var j := 0;
    while j < |ambiguous|
      invariant j <= |ambiguous|
      invariant Clashing(c, m, ambiguous) == Clashing(c, m, ambiguous[j..]) + newAmbiguous
      invariant moreSpecific <==> forall k :: 0 <= k < j ==> c.Compare(m, ambiguous[k]) != LessSpecific
    {
      assert ambiguous[j] in ambiguous;
      assert ambiguous[j..][1..] == ambiguous[j + 1..];
      var comparison := Compared(c, m, ambiguous[j]);
      match comparison {
        case MoreSpecific =>
        case Ambiguous =>
          newAmbiguous := [ambiguous[j]] + newAmbiguous;
        case LessSpecific =>
          moreSpecific := false;
        case Identical =>
          assert false;
      }
      j := j + 1;
    }
  }

  lemma NoneIdenticalFirst(c: Call, methods: seq<Method>, k: nat)
    requires c.Valid() && k < |methods| && c.Applicable(methods[k]) && GoodMethods(c.w, |c.args|, methods)
    ensures var s := SortFirst(c, methods, k);
            NoneIdentical(c, methods[k], s.ordered) && NoneIdentical(c, methods[k], s.ambiguous)
  {
    hide Call.Valid, Call.Applicable, Call.Compare, Different, SortFirst;
    var s := SortFirst(c, methods, k);
    SortFirstFrom(c, methods, k);
    forall n | n in s.ordered || n in s.ambiguous ensures c.Compare(methods[k], n) != Identical {
      var i :| 0 <= i < k && methods[i] == n;
      NeverIdentical(c, methods[i], methods[k]);
    }
  }

  lemma GoodNeverAlike(c: Call, methods: seq<Method>)
    requires c.Valid() && GoodMethods(c.w, |c.args|, methods)
    ensures NeverAlike(c, methods)
  {
    hide World.Good, Call.Applicable, Call.Compare, Different, PlainSpecs;
    forall i, j | 0 <= i < j < |methods| ensures methods[i] != methods[j] {
      assert methods[i] in methods && methods[j] in methods;
      DifferentSpecs(c.w, methods[i], methods[j]);
    }
    forall m, n | m in methods && n in methods && m != n && c.Applicable(m) && c.Applicable(n) ensures c.Compare(m, n) != Identical {
      var i :| 0 <= i < |methods| && methods[i] == m;
      var j :| 0 <= j < |methods| && methods[j] == n;
      if i < j { NeverIdentical(c, m, n); } else { NeverIdentical(c, n, m); }
    }
  }

  // What the sort of the methods of a generic function tells.
  lemma SortTells(c: Call, methods: seq<Method>)
    requires c.Valid() && GoodMethods(c.w, |c.args|, methods)
    ensures None in SortMethods(c, methods) <==> exists m, n :: m in methods && n in methods && Undecided(c, m, n)
    ensures forall m :: MostSpecific(c, m, methods) ==> SortMethods(c, methods) != [] && SortMethods(c, methods)[0] == Some(m)
  {
    hide Call.Valid, GoodMethods, Undecided, MostSpecific, SortFirst;
    GoodNeverAlike(c, methods);
    AmbiguityMarked(c, methods);
    forall m | MostSpecific(c, m, methods) ensures SortMethods(c, methods) != [] && SortMethods(c, methods)[0] == Some(m) {
      var k := PlaceOf(c, methods, m);
      MostSpecificFirst(c, methods, m, k, |methods|);
    }
  }

  lemma PlaceOf(c: Call, methods: seq<Method>, m: Method) returns (k: nat)
    requires c.Valid() && MostSpecific(c, m, methods)
    ensures k < |methods| && methods[k] == m
  {
    hide Call.Compare, Call.Applicable;
    k :| k < |methods| && methods[k] == m;
  }

  /** The sort over all methods, and the cache entry for its result. */
  method SlowSortedApplicableMethods(w: World, methods: seq<Method>, args: seq<Obj>)
    returns (entry: CacheEntry<seq<Option<Method>>>)
    requires Call(w, args).Valid() && GoodMethods(w, |args|, methods)
    ensures GoodEntry(w, entry, |args|)
    ensures entry.result == SortMethods(Call(w, args), methods)
    ensures (forall m :: m in methods ==> Call(w, args).Fits(m))
            && entry.types == EntryTypes(Call(w, args), methods, |methods|)
  {
    hide World.Good, PlainSpecs, Different, Insert, AllNarrowed, AllCovered, Applies, NoneIdentical;
    var c := Call(w, args);
    var classes := ArgumentClasses(w, args);
    entry := CacheEntry(true, classes, []);
    var sorted := Sorted([], []);
    var k := 0;
    while k < |methods|
      invariant k <= |methods| && sorted == SortFirst(c, methods, k)
      invariant GoodEntry(w, entry, |args|) && AllNarrowed(w, args, entry.types)
      invariant entry.types == EntryTypes(c, methods, k)
    {
      var m := methods[k];
      assert m in methods;
      var applies;
      applies, entry := ApplicableNarrowing(w, m.specs, args, entry);
      if applies {
        NoneIdenticalFirst(c, methods, k);
        sorted := InsertMethod(c, sorted, m);
      }
      k := k + 1;
    }
    entry := entry.(result := Listed(sorted));
  }

  // Two plain specializers are subtypes of each other only if they are the same.
  lemma SameSpecializersEqual(w: World, specs1: seq<Type>, specs2: seq<Type>)
    requires w.Good() && |specs1| == |specs2| && PlainSpecs(w, specs1) && PlainSpecs(w, specs2)
    ensures SameSpecializers(w, specs1, specs2) <==> specs1 == specs2
  {
    forall i | 0 <= i < |specs1|
      ensures SubtypeP(w, specs1[i], specs2[i]) && SubtypeP(w, specs2[i], specs1[i]) <==> specs1[i] == specs2[i]
    {
      assert specs1[i] in specs1 && specs2[i] in specs2;
    }
  }

  // The test for equivalent specializers.
  method HaveSameSpecializers(w: World, specs1: seq<Type>, specs2: seq<Type>) returns (same: bool)
    requires w.Good() && |specs1| == |specs2| && PlainSpecs(w, specs1) && PlainSpecs(w, specs2)
    ensures same <==> specs1 == specs2
  {
    hide World.Good, SubtypeP;
    SameSpecializersEqual(w, specs1, specs2);
    var i := 0;
    while i < |specs1|
      invariant i <= |specs1|
      invariant forall j :: 0 <= j < i ==> SubtypeP(w, specs1[j], specs2[j]) && SubtypeP(w, specs2[j], specs1[j])
    {
      assert specs1[i] in specs1 && specs2[i] in specs2;
      if !SubtypeP(w, specs1[i], specs2[i]) || !SubtypeP(w, specs2[i], specs1[i]) {
        return false;
      }
      i := i + 1;
    }
    return true;
  }

  lemma DifferentSpecs(w: World, m: Method, n: Method)
    requires w.Good() && |m.specs| == |n.specs| && PlainSpecs(w, m.specs) && PlainSpecs(w, n.specs)
    ensures Different(w, m, n) <==> m.specs != n.specs
  {
    SameSpecializersEqual(w, m.specs, n.specs);
  }

  ghost predicate DistinctSpecs(methods: seq<Method>) {
    forall i, j :: 0 <= i < j < |methods| ==> methods[i].specs != methods[j].specs
  }

  ghost predicate FittingMethods(w: World, n: nat, methods: seq<Method>) {
    forall m :: m in methods ==> |m.specs| == n && PlainSpecs(w, m.specs)
  }

  lemma GoodMethodsDistinct(w: World, n: nat, methods: seq<Method>)
    requires w.Good() && FittingMethods(w, n, methods)
    ensures GoodMethods(w, n, methods) <==> DistinctSpecs(methods)
  {
    hide World.Good, PlainSpecs, Different;
    forall i, j | 0 <= i < j < |methods|
      ensures Different(w, methods[i], methods[j]) <==> methods[i].specs != methods[j].specs
    {
      assert methods[i] in methods && methods[j] in methods;
      DifferentSpecs(w, methods[i], methods[j]);
    }
  }

  /** The entry gives the sorted methods of every call that matches it. */
  ghost predicate RightEntry(w: World, n: nat, methods: seq<Method>, e: CacheEntry<seq<Option<Method>>>)
    requires w.Good()
  {
    && GoodEntry(w, e, n)
    && forall args :: AllHave(w, args) && Matches(w, e.types, args) ==> SortMethods(Call(w, args), methods) == e.result
  }

  lemma NewEntryRight(c: Call, methods: seq<Method>, e: CacheEntry<seq<Option<Method>>>)
    requires c.Valid() && OrderPreserving(c.w) && GoodMethods(c.w, |c.args|, methods)
    requires (forall m :: m in methods ==> c.Fits(m)) && e.types == EntryTypes(c, methods, |methods|)
    requires GoodEntry(c.w, e, |c.args|) && e.result == SortMethods(c, methods)
    ensures RightEntry(c.w, |c.args|, methods, e) && Matches(c.w, e.types, c.args)
  {
    hide World.Good, OrderPreserving, EntryTypes, SortMethods, GoodEntry, PlainSpecs, Instances, Matches, Different;
    forall args | AllHave(c.w, args) && Matches(c.w, e.types, args)
      ensures SortMethods(Call(c.w, args), methods) == e.result
    {
      MatchesAreInstances(c.w, args, e.types);
      EntryIsRight(c, methods, args);
    }
    EntryTypesNarrowed(c, methods, |methods|);
    NarrowedMatches(c.w, c.args, e.types);
  }

  lemma NarrowedMatches(w: World, args: seq<Obj>, types: seq<Type>)
    requires AllHave(w, args) && AllNarrowed(w, args, types)
    ensures Matches(w, types, args)
  {
    hide InstanceP;
    forall i | 0 <= i < |types| ensures MatchesOne(w, types[i], args[i]) {
      assert Narrowed(w, args[i], types[i]);
    }
  }

  datatype AddResult = Added(replaced: Option<Method>) | WrongNumberOfArguments | BadSpecializer(position: nat)

  datatype RemoveResult = Removed(removed: Method) | NotAMethod

  /** A generic function over a fixed hierarchy. */
  class GenericFunction {
    const world: World
    const specializers: seq<Type>
    var methods: seq<Method>
    var cache: seq<CacheEntry<seq<Option<Method>>>>

    ghost predicate Valid()
      reads this
    {
      && world.Good() && OrderPreserving(world) && PlainSpecs(world, specializers)
      && GoodMethods(world, |specializers|, methods)
      && forall e :: e in cache ==> RightEntry(world, |specializers|, methods, e)
    }

    constructor (world: World, specializers: seq<Type>)
      requires world.Good() && OrderPreserving(world) && PlainSpecs(world, specializers)
      ensures Valid() && this.world == world && this.specializers == specializers && methods == [] && cache == []
    {
      this.world, this.specializers := world, specializers;
      methods, cache := [], [];
    }

    // The cache after a hit on its entry i.
    static function MovedToFront<T>(l: seq<T>, i: nat): (r: seq<T>)
      requires i < |l|
      ensures |r| == |l| && r[0] == l[i]
      ensures forall j :: 0 < j <= i ==> r[j] == l[j - 1]
      ensures forall j :: i < j < |l| ==> r[j] == l[j]
    {
      [l[i]] + l[..i] + l[i + 1..]
    }

    /** Dispatch: whatever was remembered, the result is the sort of the current methods. */
    method SortedApplicableMethods(args: seq<Obj>) returns (r: seq<Option<Method>>)
      requires Valid() && |args| == |specializers| && AllHave(world, args)
      modifies this
      ensures Valid() && methods == old(methods)
      ensures Call(world, args).Valid() && r == SortMethods(Call(world, args), methods)
      // An ambiguity is marked exactly if there is one, and a method that beats all others comes first.
      ensures None in r <==> exists m, n :: m in methods && n in methods && Undecided(Call(world, args), m, n)
      ensures forall m :: MostSpecific(Call(world, args), m, methods) ==> r != [] && r[0] == Some(m)
      ensures methods == [] ==> cache == old(cache)
      ensures methods != [] ==>
                && cache != [] && cache[0].result == r && Matches(world, cache[0].types, args)
                && (cache[1..] == old(cache) || exists i :: 0 <= i < |old(cache)| && cache == MovedToFront(old(cache), i))
    {
      hide World.Good, OrderPreserving, PlainSpecs, GoodMethods, GoodEntry, Matches, SortMethods, Undecided, MostSpecific;
      var c := Call(world, args);
      SortTells(c, methods);
      if methods == [] {
        assert SortMethods(c, []) == [] by { SortNothing(c); }
        return [];
      }
      var i := 0;
      while i < |cache|
        invariant i <= |cache| && cache == old(cache) && methods == old(methods) && Valid()
      {
        var entry := cache[i];
        assert entry in cache;
        var found := EntryMatches(world, entry, args);
        if found {
          cache := MovedToFront(cache, i);
          return entry.result;
        }
        i := i + 1;
      }
      var entry := SlowSortedApplicableMethods(world, methods, args);
      NewEntryRight(c, methods, entry);
      cache := [entry] + cache;
      return entry.result;
    }

    method ReallyAddMethod(m: Method) returns (replaced: Option<Method>)
      requires Valid() && |m.specs| == |specializers| && PlainSpecs(world, m.specs)
      modifies this
      ensures Valid() && cache == []
      ensures replaced.None? ==> methods == [m] + old(methods) && forall n :: n in old(methods) ==> n.specs != m.specs
      ensures replaced.Some? ==>
                exists i :: 0 <= i < |old(methods)| && old(methods)[i] == replaced.value
                  && replaced.value.specs == m.specs && methods == old(methods)[i := m]
    {
      hide World.Good, OrderPreserving, PlainSpecs, GoodMethods;
      cache := [];
      MethodsFacts(world, |specializers|, methods);
      var i := 0;
      while i < |methods|
        invariant i <= |methods| && methods == old(methods) && cache == []
        invariant forall j :: 0 <= j < i ==> methods[j].specs != m.specs
      {
        assert methods[i] in methods;
        var same := HaveSameSpecializers(world, methods[i].specs, m.specs);
        if same {
          var replacedMethod := methods[i];
          methods := methods[i := m];
          GoodMethodsDistinct(world, |specializers|, methods);
          return Some(replacedMethod);
        }
        i := i + 1;
      }
      methods := [m] + methods;
      GoodMethodsDistinct(world, |specializers|, methods);
      return None;
    }

    // The specializer of m for argument i is a subtype of the generic function's.
    predicate Accepts(m: Method, i: nat)
      requires i < |m.specs| == |specializers| && PlainSpecs(world, m.specs) && PlainSpecs(world, specializers)
    {
      assert m.specs[i] in m.specs && specializers[i] in specializers;
      SubtypeP(world, m.specs[i], specializers[i])
    }

    lemma AcceptsInstances(m: Method, i: nat)
      requires i < |m.specs| == |specializers| && PlainSpecs(world, m.specs) && PlainSpecs(world, specializers) && world.Good()
      ensures Accepts(m, i) <==>
                forall o: Obj :: world.Has(o) && InstanceP(world, o, m.specs[i]) ==> InstanceP(world, o, specializers[i])
    {
      hide World.Good, SubtypeP, InstanceP;
      assert m.specs[i] in m.specs && specializers[i] in specializers;
      SubtypeExactly(world, m.specs[i], specializers[i]);
    }

    /** Adds a method, in place of one with the same specializers if there is one. */
    method AddMethod(m: Method) returns (r: AddResult)
      requires Valid() && PlainSpecs(world, m.specs)
      modifies this
      ensures Valid()
      ensures r.WrongNumberOfArguments? <==> |m.specs| != |specializers|
      // Every instance of a specializer of the method is one of the generic function's ...
      ensures r.Added? <==>
                && |m.specs| == |specializers|
                && forall i, o: Obj :: 0 <= i < |m.specs| && world.Has(o) && InstanceP(world, o, m.specs[i]) ==>
                     InstanceP(world, o, specializers[i])
      // ... or the position is the first where this is not so.
      ensures r.BadSpecializer? ==>
                && r.position < |m.specs| == |specializers|
                && (exists o: Obj :: world.Has(o) && InstanceP(world, o, m.specs[r.position])
                                     && !InstanceP(world, o, specializers[r.position]))
                && forall i, o: Obj :: 0 <= i < r.position && world.Has(o) && InstanceP(world, o, m.specs[i]) ==>
                     InstanceP(world, o, specializers[i])
      ensures !r.Added? ==> methods == old(methods) && cache == old(cache)
      ensures r.Added? ==> cache == []
      ensures r.Added? && r.replaced.None? ==>
                methods == [m] + old(methods) && forall n :: n in old(methods) ==> n.specs != m.specs
      ensures r.Added? && r.replaced.Some? ==>
                exists i :: 0 <= i < |old(methods)| && old(methods)[i] == r.replaced.value
                  && r.replaced.value.specs == m.specs && methods == old(methods)[i := m]
    {
      hide World.Good, OrderPreserving, GoodMethods, RightEntry, SubtypeP, InstanceP, Accepts;
      if |m.specs| != |specializers| {
        return WrongNumberOfArguments;
      }
      var i := 0;
      while i < |specializers|
        invariant i <= |specializers| && methods == old(methods) && cache == old(cache) && Valid()
        invariant forall j, o: Obj :: 0 <= j < i && world.Has(o) && InstanceP(world, o, m.specs[j]) ==>
                    InstanceP(world, o, specializers[j])
      {
        AcceptsInstances(m, i);
        if !Accepts(m, i) {
          return BadSpecializer(i);
        }
        i := i + 1;
      }
      var replaced := ReallyAddMethod(m);
      return Added(replaced);
    }

    /** Removes a method. The cache is emptied even if it is not there. */
    method RemoveMethod(m: Method) returns (r: RemoveResult)
      requires Valid()
      modifies this
      ensures Valid() && cache == []
      ensures r == if m in old(methods) then Removed(m) else NotAMethod
      ensures r.NotAMethod? ==> methods == old(methods)
      ensures r.Removed? ==>
                exists i :: 0 <= i < |old(methods)| && old(methods)[i] == m
                  && methods == old(methods)[..i] + old(methods)[i + 1..]
      ensures r.Removed? ==> forall n :: n in methods <==> n in old(methods) && n != m
    {
      hide World.Good, OrderPreserving, PlainSpecs, GoodMethods;
      cache := [];
      MethodsFacts(world, |specializers|, methods);
      var i := 0;
      while i < |methods|
        invariant i <= |methods| && methods == old(methods) && cache == []
        invariant forall j :: 0 <= j < i ==> methods[j] != m
      {
        if methods[i] == m {
          methods := methods[..i] + methods[i + 1..];
          GoodMethodsDistinct(world, |specializers|, methods);
          return Removed(m);
        }
        i := i + 1;
      }
      return NotAMethod;
    }
  }

  lemma MethodsFacts(w: World, n: nat, methods: seq<Method>)
    requires w.Good() && GoodMethods(w, n, methods)
    ensures FittingMethods(w, n, methods) && DistinctSpecs(methods)
  {
    hide World.Good;
    GoodMethodsDistinct(w, n, methods);
  }

  lemma SortNothing(c: Call)
    requires c.Valid()
    ensures SortMethods(c, []) == []
  {
  }

  /** A method called by itself: remembers the types of the last call and whether it applied. */
  class CachedMethod {
    const world: World
    const specs: seq<Type>
    var classCache: Option<CacheEntry<bool>>

    ghost predicate Valid()
      reads this
    {
      && world.Good() && PlainSpecs(world, specs)
      && (classCache.Some? ==> RightVerdict(world, specs, classCache.value))
    }

    constructor (world: World, specs: seq<Type>)
      requires world.Good() && PlainSpecs(world, specs)
      ensures Valid() && this.world == world && this.specs == specs
    {
      this.world, this.specs := world, specs;
      classCache := None;
    }

    method ApplicableMethodP(args: seq<Obj>) returns (result: bool)
      requires Valid() && |args| == |specs| && AllHave(world, args)
      modifies this
      ensures Valid()
      ensures result <==> Applies(world, specs, args)
    {
      hide World.Good, PlainSpecs, Matches, Applies;
      if classCache.Some? {
        var found := EntryMatches(world, classCache.value, args) by { VerdictGood(world, specs, classCache.value); }
        if found {
          return classCache.value.result;
        }
      }
      var types := ArgumentClasses(world, args);
      var entry := CacheEntry(classCache.None? || classCache.value.simple, types, false);
      result, entry := ApplicableNarrowing(world, specs, args, entry) by { ClassEntryGood(world, entry, |args|); }
      NewVerdictRight(world, specs, args, entry.(result := result));
      classCache := Some(entry.(result := result));
    }
  }

  ghost predicate RightVerdict(w: World, specs: seq<Type>, e: CacheEntry<bool>)
    requires w.Good()
  {
    && GoodEntry(w, e, |specs|)
    && forall args :: AllHave(w, args) && Matches(w, e.types, args) ==> (e.result <==> Applies(w, specs, args))
  }

  lemma VerdictGood(w: World, specs: seq<Type>, e: CacheEntry<bool>)
    requires w.Good() && RightVerdict(w, specs, e)
    ensures GoodEntry(w, e, |specs|)
  {
  }

  lemma ClassEntryGood(w: World, e: CacheEntry<bool>, n: nat)
    requires |e.types| == n && AllCovered(w, e.types) && forall t :: t in e.types ==> t.ClassType?
    ensures GoodEntry(w, e, n)
  {
  }

  lemma NewVerdictRight(w: World, specs: seq<Type>, args: seq<Obj>, e: CacheEntry<bool>)
    requires w.Good() && |specs| == |args| && AllHave(w, args) && PlainSpecs(w, specs) && GoodEntry(w, e, |args|)
    requires AllCovered(w, Classes(args)) && AllNarrowed(w, args, Classes(args))
    requires e.types == NarrowFrom(w, specs, args, Classes(args), 0) && (e.result <==> Applies(w, specs, args))
    ensures RightVerdict(w, specs, e)
  {
    hide World.Good, Matches, AllNarrowed, GoodEntry, Instances, NarrowFrom, InstanceP;
    forall args' | AllHave(w, args') && Matches(w, e.types, args') ensures e.result <==> Applies(w, specs, args') {
      MatchesAreInstances(w, args', e.types);
      NarrowFromMeaning(w, specs, args, Classes(args), 0, args');
      assert |args'| == |specs|;
      assert AppliesFrom(w, specs, args, 0) <==> Applies(w, specs, args);
    }
  }
}
