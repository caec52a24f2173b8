/**
 Generic function dispatch: the insertion sort that orders the applicable methods, and the
 cache in front of it.
 */
module Dispatch {
  import opened Wrappers
  import opened Linearization
  import opened Types
  import opened Specificity

  // Two methods are given the same arguments for the same specializers.
  predicate SameSpecializers(w: World, specs1: seq<Type>, specs2: seq<Type>)
    requires |specs1| == |specs2| && PlainSpecs(w, specs1) && PlainSpecs(w, specs2)
  {
    forall i :: 0 <= i < |specs1| ==> SubtypeP(w, specs1[i], specs2[i]) && SubtypeP(w, specs2[i], specs1[i])
  }

  // A call: a world, the number of required arguments, and the arguments.
  datatype Call = Call(w: World, args: seq<Obj>) {
    ghost predicate Valid() {
      w.Good() && forall o :: o in args ==> w.Has(o)
    }

    ghost predicate Fits(m: Method) {
      |m.specs| == |args| && PlainSpecs(w, m.specs)
    }

    ghost predicate Applicable(m: Method)
      requires Valid()
    {
      Fits(m) && Applies(w, m.specs, args)
    }

    ghost function Compare(m: Method, n: Method): Comparison
      requires Valid() && Applicable(m) && Applicable(n)
    {
      CompareRanks(Ranks(w, args, m.specs), Ranks(w, args, n.specs))
    }
  }

  // The methods sorted so far, and those found to be ambiguous after them.
  datatype Sorted = Sorted(ordered: seq<Method>, ambiguous: seq<Method>)

  // The place where the scan of the ordered methods stops: the first method that m is not
  // less specific than.
  ghost function StopAt(c: Call, m: Method, ordered: seq<Method>): (i: nat)
    requires c.Valid() && c.Applicable(m) && forall n :: n in ordered ==> c.Applicable(n)
    ensures i <= |ordered|
  {
    if ordered == [] || c.Compare(m, ordered[0]) != LessSpecific then 0
    else 1 + StopAt(c, m, ordered[1..])
  }

  // The ambiguous methods that m is ambiguous with, the last one first.
  ghost function Clashing(c: Call, m: Method, ambiguous: seq<Method>): (r: seq<Method>)
    requires c.Valid() && c.Applicable(m) && forall n :: n in ambiguous ==> c.Applicable(n)
    ensures forall n :: n in r ==> n in ambiguous
  {
    if ambiguous == [] then []
    else Clashing(c, m, ambiguous[1..]) + (if c.Compare(m, ambiguous[0]) == Ambiguous then [ambiguous[0]] else [])
  }

  // One more applicable method.
  ghost function Insert(c: Call, s: Sorted, m: Method): (r: Sorted)
    requires c.Valid() && c.Applicable(m)
    requires forall n :: n in s.ordered || n in s.ambiguous ==> c.Applicable(n)
    ensures forall n :: n in r.ordered || n in r.ambiguous ==> c.Applicable(n)
  {
    var i := StopAt(c, m, s.ordered);
    if i < |s.ordered| then
      if c.Compare(m, s.ordered[i]) == MoreSpecific then
        s.(ordered := s.ordered[..i] + [m] + s.ordered[i..])
      else
        Sorted(s.ordered[..i], [m, s.ordered[i]])
    else
      var clashing := Clashing(c, m, s.ambiguous);
      if clashing != [] then s.(ambiguous := clashing)
      else if forall n :: n in s.ambiguous ==> c.Compare(m, n) != LessSpecific then s.(ordered := s.ordered + [m])
      else s
  }

  /** What the insertion sort makes of the first n methods. */
  ghost function SortFirst(c: Call, methods: seq<Method>, n: nat): (r: Sorted)
    requires c.Valid() && n <= |methods|
    ensures forall m :: m in r.ordered || m in r.ambiguous ==> c.Applicable(m)
  {
    if n == 0 then Sorted([], [])
    else if c.Applicable(methods[n - 1]) then Insert(c, SortFirst(c, methods, n - 1), methods[n - 1])
    else SortFirst(c, methods, n - 1)
  }

  /** The sorted applicable methods; if some are ambiguous, None and these follow. */
  ghost function SortMethods(c: Call, methods: seq<Method>): seq<Option<Method>>
    requires c.Valid()
  {
    Listed(SortFirst(c, methods, |methods|))
  }

  function Listed(s: Sorted): seq<Option<Method>> {
    Wrap(s.ordered) + (if s.ambiguous == [] then [] else [None] + Wrap(s.ambiguous))
  }

  function Wrap(s: seq<Method>): seq<Option<Method>> {
    seq(|s|, i requires 0 <= i < |s| => Some(s[i]))
  }

  // Two calls that the same methods apply to, in the same order of specificity.
  ghost predicate Alike(c: Call, d: Call, methods: seq<Method>)
    requires c.Valid() && d.Valid()
  {
    && (forall m :: m in methods ==> (c.Applicable(m) <==> d.Applicable(m)))
    && (forall m, n :: m in methods && n in methods && c.Applicable(m) && c.Applicable(n) ==>
          c.Compare(m, n) == d.Compare(m, n))
  }

  // The sort only depends on which methods apply and how they compare.
  lemma {:induction false} SortAlike(c: Call, d: Call, methods: seq<Method>, n: nat)
    requires c.Valid() && d.Valid() && Alike(c, d, methods) && n <= |methods|
    ensures SortFirst(c, methods, n) == SortFirst(d, methods, n)
    ensures FromList(SortFirst(c, methods, n), methods)
  {
    hide Alike, Insert, Call.Compare;
    if n > 0 {
      SortAlike(c, d, methods, n - 1);
      var m, s := methods[n - 1], SortFirst(c, methods, n - 1);
      ApplicableAlike(c, d, methods, m);
      if c.Applicable(m) {
        InsertAlike(c, d, methods, s, m);
      }
    }
  }

  ghost predicate FromList(s: Sorted, methods: seq<Method>) {
    forall m :: m in s.ordered || m in s.ambiguous ==> m in methods
  }

  lemma ApplicableAlike(c: Call, d: Call, methods: seq<Method>, m: Method)
    requires c.Valid() && d.Valid() && Alike(c, d, methods) && m in methods
    ensures c.Applicable(m) <==> d.Applicable(m)
  {
  }

  lemma InsertAlike(c: Call, d: Call, methods: seq<Method>, s: Sorted, m: Method)
    requires c.Valid() && d.Valid() && Alike(c, d, methods) && FromList(s, methods) && m in methods
    requires c.Applicable(m) && d.Applicable(m)
    requires forall n :: n in s.ordered || n in s.ambiguous ==> c.Applicable(n) && d.Applicable(n)
    ensures Insert(c, s, m) == Insert(d, s, m) && FromList(Insert(c, s, m), methods)
  {
    hide Call.Applicable, Call.Compare, StopAt, Clashing, Call.Valid;
    StopAlike(c, d, methods, m, s.ordered);
    ClashAlike(c, d, methods, m, s.ambiguous);
  }

  lemma {:induction false} StopAlike(c: Call, d: Call, methods: seq<Method>, m: Method, ordered: seq<Method>)
    requires c.Valid() && d.Valid() && Alike(c, d, methods) && m in methods && c.Applicable(m)
    requires forall n :: n in ordered ==> n in methods && c.Applicable(n) && d.Applicable(n)
    ensures StopAt(c, m, ordered) == StopAt(d, m, ordered)
  {
    if ordered != [] {
      StopAlike(c, d, methods, m, ordered[1..]);
    }
  }

  lemma {:induction false} ClashAlike(c: Call, d: Call, methods: seq<Method>, m: Method, ambiguous: seq<Method>)
    requires c.Valid() && d.Valid() && Alike(c, d, methods) && m in methods && c.Applicable(m)
    requires forall n :: n in ambiguous ==> n in methods && c.Applicable(n) && d.Applicable(n)
    ensures Clashing(c, m, ambiguous) == Clashing(d, m, ambiguous)
  {
    if ambiguous != [] {
      ClashAlike(c, d, methods, m, ambiguous[1..]);
    }
  }

  // Of any two different applicable methods, one is more specific.
  ghost predicate Unambiguous(c: Call, methods: seq<Method>)
    requires c.Valid()
  {
    forall m, n :: m in methods && n in methods && m != n && c.Applicable(m) && c.Applicable(n) ==>
      c.Compare(m, n) == MoreSpecific || c.Compare(m, n) == LessSpecific
  }

  // Most specific first, no method twice.
  ghost predicate SortedBySpecificity(c: Call, l: seq<Method>)
    requires c.Valid() && forall m :: m in l ==> c.Applicable(m)
  {
    forall i, j :: 0 <= i < j < |l| ==> c.Compare(l[i], l[j]) == MoreSpecific
  }

  lemma Swapped(c: Call, m: Method, n: Method)
    requires c.Valid() && c.Applicable(m) && c.Applicable(n)
    ensures c.Compare(m, n) == MoreSpecific <==> c.Compare(n, m) == LessSpecific
    ensures c.Compare(m, n) == MoreSpecific ==> c.Compare(n, m) != MoreSpecific
    ensures c.Compare(m, m) == Identical
  {
    CompareSwapped(Ranks(c.w, c.args, m.specs), Ranks(c.w, c.args, n.specs));
    CompareSwapped(Ranks(c.w, c.args, n.specs), Ranks(c.w, c.args, m.specs));
  }

  lemma Transitive(c: Call, m: Method, n: Method, p: Method)
    requires c.Valid() && c.Applicable(m) && c.Applicable(n) && c.Applicable(p)
    requires c.Compare(m, n) == MoreSpecific && c.Compare(n, p) == MoreSpecific
    ensures c.Compare(m, p) == MoreSpecific
  {
    CompareTransitive(Ranks(c.w, c.args, m.specs), Ranks(c.w, c.args, n.specs), Ranks(c.w, c.args, p.specs));
  }

  lemma {:induction false} StopAtMeaning(c: Call, m: Method, l: seq<Method>)
    requires c.Valid() && c.Applicable(m) && forall n :: n in l ==> c.Applicable(n)
    ensures forall j :: 0 <= j < StopAt(c, m, l) ==> c.Compare(m, l[j]) == LessSpecific
    ensures StopAt(c, m, l) < |l| ==> c.Compare(m, l[StopAt(c, m, l)]) != LessSpecific
  {
    hide Call.Compare;
    if l != [] && c.Compare(m, l[0]) == LessSpecific {
      StopAtMeaning(c, m, l[1..]);
      forall j | 0 <= j < StopAt(c, m, l) ensures c.Compare(m, l[j]) == LessSpecific {
        if j > 0 { assert l[1..][j - 1] == l[j]; }
      }
    }
  }

  // Inserting a method at the place where the scan stops keeps the list sorted.
  lemma InsertKeepsSorted(c: Call, m: Method, l: seq<Method>, i: nat)
    requires c.Valid() && c.Applicable(m) && (forall n :: n in l ==> c.Applicable(n)) && i <= |l|
    requires SortedBySpecificity(c, l)
    requires forall j :: 0 <= j < i ==> c.Compare(m, l[j]) == LessSpecific
    requires i < |l| ==> c.Compare(m, l[i]) == MoreSpecific
    ensures forall n :: n in l[..i] + [m] + l[i..] <==> n == m || n in l
    ensures SortedBySpecificity(c, l[..i] + [m] + l[i..])
  {
    hide Call.Compare, Call.Applicable;
    var r := l[..i] + [m] + l[i..];
    assert l == l[..i] + l[i..];
    forall j, k | 0 <= j < k < |r| ensures c.Compare(r[j], r[k]) == MoreSpecific {
      assert r[j] == if j < i then l[j] else if j == i then m else l[j - 1];
      assert r[k] == if k < i then l[k] else if k == i then m else l[k - 1];
      if k == i {
        Swapped(c, r[j], m);
      } else if j == i && k > i + 1 {
        Transitive(c, m, l[i], l[k - 1]);
      }
    }
  }

  /** When no two applicable methods are ambiguous, the sort returns each of them once, from
      most to least specific. */
  lemma {:induction false} SortSorts(c: Call, methods: seq<Method>, n: nat)
    requires c.Valid() && n <= |methods| && Unambiguous(c, methods) && NoDup(methods)
    ensures var s := SortFirst(c, methods, n);
            && s.ambiguous == []
            && SortedBySpecificity(c, s.ordered)
            && forall m :: m in s.ordered <==> m in methods[..n] && c.Applicable(m)
  {
    hide Call.Compare, Call.Applicable, Insert, Unambiguous, SortedBySpecificity;
    if n > 0 {
      SortSorts(c, methods, n - 1);
      var m, s := methods[n - 1], SortFirst(c, methods, n - 1);
      assert methods[..n] == methods[..n - 1] + [m];
      if c.Applicable(m) {
        InsertUnambiguous(c, methods, s.ordered, m);
      }
    } else {
      NothingSorted(c);
    }
  }

  lemma NothingSorted(c: Call)
    requires c.Valid()
    ensures SortedBySpecificity(c, [])
  {
  }

  lemma InsertUnambiguous(c: Call, methods: seq<Method>, l: seq<Method>, m: Method)
    requires c.Valid() && Unambiguous(c, methods) && m in methods && c.Applicable(m) && m !in l
    requires forall n :: n in l ==> n in methods && c.Applicable(n)
    requires SortedBySpecificity(c, l)
    ensures var s := Insert(c, Sorted(l, []), m);
            && s.ambiguous == []
            && SortedBySpecificity(c, s.ordered)
            && forall n :: n in s.ordered <==> n == m || n in l
  {
    hide Call.Compare, Call.Applicable;
    var i := StopAt(c, m, l);
    StopAtMeaning(c, m, l);
    InsertKeepsSorted(c, m, l, i);
    if i == |l| {
      assert l[..i] + [m] + l[i..] == l + [m];
    }
  }

  ghost predicate FromFirst(s: Sorted, methods: seq<Method>, k: nat)
    requires k <= |methods|
  {
    forall n :: n in s.ordered || n in s.ambiguous ==> n in methods[..k]
  }

  lemma {:induction false} SortFirstFrom(c: Call, methods: seq<Method>, k: nat)
    requires c.Valid() && k <= |methods|
    ensures FromFirst(SortFirst(c, methods, k), methods, k)
  {
    hide Call.Applicable, Call.Compare;
    if k > 0 {
      SortFirstFrom(c, methods, k - 1);
      assert methods[..k] == methods[..k - 1] + [methods[k - 1]];
    }
  }

  // Of two applicable methods neither is more specific.
  ghost predicate Undecided(c: Call, m: Method, n: Method)
    requires c.Valid()
  {
    c.Applicable(m) && c.Applicable(n) && c.Compare(m, n) == Ambiguous
  }

  // One method is more specific than all other applicable ones.
  ghost predicate MostSpecific(c: Call, m: Method, methods: seq<Method>)
    requires c.Valid()
  {
    && m in methods && c.Applicable(m)
    && forall n :: n in methods && n != m && c.Applicable(n) ==> c.Compare(m, n) == MoreSpecific
  }

  ghost predicate NeverAlike(c: Call, methods: seq<Method>)
    requires c.Valid()
  {
    && NoDup(methods)
    && forall m, n :: m in methods && n in methods && m != n && c.Applicable(m) && c.Applicable(n) ==> c.Compare(m, n) != Identical
  }

  /** Whatever is ambiguous, the methods before the mark are in the order of specificity, and
      without a mark they are all applicable methods. */
  lemma {:induction false} SortKeepsOrder(c: Call, methods: seq<Method>, n: nat)
    requires c.Valid() && n <= |methods|
    ensures var s := SortFirst(c, methods, n);
            && SortedBySpecificity(c, s.ordered)
            && (s.ambiguous == [] ==> forall m :: m in methods[..n] && c.Applicable(m) ==> m in s.ordered)
  {
    hide Call.Compare, Call.Applicable, Insert, SortedBySpecificity;
    if n > 0 {
      SortKeepsOrder(c, methods, n - 1);
      var m, s := methods[n - 1], SortFirst(c, methods, n - 1);
      assert methods[..n] == methods[..n - 1] + [m];
      if c.Applicable(m) { InsertKeepsOrder(c, s, m); }
    } else {
      NothingSorted(c);
    }
  }

  lemma InsertKeepsOrder(c: Call, s: Sorted, m: Method)
    requires c.Valid() && c.Applicable(m)
    requires forall n :: n in s.ordered || n in s.ambiguous ==> c.Applicable(n)
    requires SortedBySpecificity(c, s.ordered)
    ensures var r := Insert(c, s, m);
            && SortedBySpecificity(c, r.ordered)
            && (r.ambiguous == [] ==> s.ambiguous == [] && m in r.ordered && forall n :: n in s.ordered ==> n in r.ordered)
  {
    hide Call.Compare, Call.Applicable, Clashing;
    var i := StopAt(c, m, s.ordered);
    StopAtMeaning(c, m, s.ordered);
    if i == |s.ordered| {
      InsertKeepsSorted(c, m, s.ordered, i);
      assert s.ordered[..i] + [m] + s.ordered[i..] == s.ordered + [m];
      if s.ambiguous == [] { assert Clashing(c, m, s.ambiguous) == [] by { NoneClash(c, m, s.ambiguous); } }
    } else if c.Compare(m, s.ordered[i]) == MoreSpecific {
      InsertKeepsSorted(c, m, s.ordered, i);
    }
  }

  lemma {:induction false} NoneClash(c: Call, m: Method, ambiguous: seq<Method>)
    requires c.Valid() && c.Applicable(m) && forall n :: n in ambiguous ==> c.Applicable(n) && c.Compare(m, n) != Ambiguous
    ensures Clashing(c, m, ambiguous) == []
  {
    hide Call.Compare, Call.Applicable;
    if ambiguous != [] { NoneClash(c, m, ambiguous[1..]); }
  }

  /** An ambiguity is marked if and only if two applicable methods are ambiguous. */
  lemma AmbiguityMarked(c: Call, methods: seq<Method>)
    requires c.Valid() && NeverAlike(c, methods)
    ensures None in SortMethods(c, methods) <==> exists m, n :: m in methods && n in methods && Undecided(c, m, n)
  {
    hide Call.Compare, Call.Applicable, SortFirst;
    var s := SortFirst(c, methods, |methods|);
    assert methods[..|methods|] == methods;
    NoneInList(s);
    SortKeepsOrder(c, methods, |methods|);
    if m, n :| m in methods && n in methods && Undecided(c, m, n) {
      if s.ambiguous == [] { OrderDecides(c, s.ordered, m, n); }
    } else {
      NoneUndecided(c, methods);
      SortSorts(c, methods, |methods|);
    }
  }

  lemma NoneUndecided(c: Call, methods: seq<Method>)
    requires c.Valid() && NeverAlike(c, methods)
    requires forall m, n :: m in methods && n in methods ==> !Undecided(c, m, n)
    ensures Unambiguous(c, methods)
  {
    hide Call.Compare, Call.Applicable;
    forall m, n | m in methods && n in methods && m != n && c.Applicable(m) && c.Applicable(n)
      ensures c.Compare(m, n) == MoreSpecific || c.Compare(m, n) == LessSpecific
    {
      assert !Undecided(c, m, n);
    }
  }

  lemma NoneInList(s: Sorted)
    ensures None in Listed(s) <==> s.ambiguous != []
  {
    if s.ambiguous != [] { assert Listed(s)[|s.ordered|] == None; }
  }

  // Of two methods in order, one is more specific.
  lemma OrderDecides(c: Call, l: seq<Method>, m: Method, n: Method)
    requires c.Valid() && (forall x :: x in l ==> c.Applicable(x)) && SortedBySpecificity(c, l) && m in l && n in l
    ensures c.Compare(m, n) != Ambiguous
  {
    hide Call.Compare, Call.Applicable;
    var i :| 0 <= i < |l| && l[i] == m;
    var j :| 0 <= j < |l| && l[j] == n;
    Swapped(c, n, m);
    Swapped(c, m, n);
  }

  /** If one method is more specific than all others, it comes first. */
  lemma {:induction false} MostSpecificFirst(c: Call, methods: seq<Method>, m: Method, k: nat, n: nat)
    requires c.Valid() && k < n <= |methods| && NoDup(methods) && methods[k] == m && MostSpecific(c, m, methods)
    ensures var s := SortFirst(c, methods, n); s.ordered != [] && s.ordered[0] == m
    decreases n
  {
    hide Call.Compare, Call.Applicable, Insert;
    var x, s := methods[n - 1], SortFirst(c, methods, n - 1);
    SortFirstFrom(c, methods, n - 1);
    if n - 1 == k {
      forall y | y in s.ordered || y in s.ambiguous ensures c.Compare(m, y) == MoreSpecific {
        var j :| 0 <= j < k && methods[j] == y;
      }
      InsertFirst(c, s, m);
    } else {
      MostSpecificFirst(c, methods, m, k, n - 1);
      if c.Applicable(x) {
        Swapped(c, m, x);
        Swapped(c, x, m);
        InsertAfter(c, s, x);
      }
    }
  }

  lemma InsertFirst(c: Call, s: Sorted, m: Method)
    requires c.Valid() && c.Applicable(m)
    requires forall n :: n in s.ordered || n in s.ambiguous ==> c.Applicable(n) && c.Compare(m, n) == MoreSpecific
    ensures var r := Insert(c, s, m); r.ordered != [] && r.ordered[0] == m
  {
    hide Call.Compare, Call.Applicable, Clashing;
    NoneClash(c, m, s.ambiguous);
    assert s.ordered != [] ==> s.ordered[0] in s.ordered;
  }

  lemma InsertAfter(c: Call, s: Sorted, x: Method)
    requires c.Valid() && c.Applicable(x) && s.ordered != []
    requires forall n :: n in s.ordered || n in s.ambiguous ==> c.Applicable(n)
    requires c.Compare(x, s.ordered[0]) == LessSpecific
    ensures var r := Insert(c, s, x); r.ordered != [] && r.ordered[0] == s.ordered[0]
  {
    hide Call.Compare, Call.Applicable, Clashing;
  }

  // Which of two methods is more specific, argument by argument.

  // For an argument o, s is t, or a singleton, or a class that comes before t in the list.
  predicate Closer(w: World, o: Obj, s: Type, t: Type)
    requires w.Has(o)
  {
    || s == t || s.Singleton?
    || (s.ClassType? && t.ClassType? && exists i, j :: 0 <= i < j < |w.cpl[o.cls]| && w.cpl[o.cls][i] == s.cls && w.cpl[o.cls][j] == t.cls)
  }

  ghost predicate CloserEverywhere(c: Call, m: Method, n: Method)
    requires c.Valid() && |m.specs| == |n.specs| == |c.args|
  {
    forall i :: 0 <= i < |c.args| ==> (assert c.args[i] in c.args; Closer(c.w, c.args[i], m.specs[i], n.specs[i]))
  }

  /** A method is more specific than another one if its specializers differ from those of the other
      and are nowhere farther from the arguments. */
  lemma ComparesExactly(c: Call, m: Method, n: Method)
    requires c.Valid() && c.Applicable(m) && c.Applicable(n)
    ensures c.Compare(m, n) == Identical <==> m.specs == n.specs
    ensures c.Compare(m, n) == MoreSpecific <==> m.specs != n.specs && CloserEverywhere(c, m, n)
    ensures c.Compare(m, n) == LessSpecific <==> m.specs != n.specs && CloserEverywhere(c, n, m)
    ensures c.Compare(m, n) == Ambiguous <==> !CloserEverywhere(c, m, n) && !CloserEverywhere(c, n, m)
  {
    hide World.Good, InstanceP, Rank, Closer;
    var r, q := Ranks(c.w, c.args, m.specs), Ranks(c.w, c.args, n.specs);
    forall i | 0 <= i < |c.args|
      ensures c.args[i] in c.args
      ensures r[i] <= q[i] <==> Closer(c.w, c.args[i], m.specs[i], n.specs[i])
      ensures q[i] <= r[i] <==> Closer(c.w, c.args[i], n.specs[i], m.specs[i])
      ensures r[i] == q[i] <==> m.specs[i] == n.specs[i]
    {
      assert c.args[i] in c.args && m.specs[i] in m.specs && n.specs[i] in n.specs;
      RankExactly(c.w, c.args[i], m.specs[i], n.specs[i]);
      RankExactly(c.w, c.args[i], n.specs[i], m.specs[i]);
    }
    assert AtMost(r, q) <==> CloserEverywhere(c, m, n);
    assert AtMost(q, r) <==> CloserEverywhere(c, n, m);
    assert r == q <==> m.specs == n.specs;
  }

  lemma RankExactly(w: World, o: Obj, s: Type, t: Type)
    requires w.Good() && w.Has(o) && s.Plain() && t.Plain() && InstanceP(w, o, s) && InstanceP(w, o, t)
    ensures Rank(w, o, s) <= Rank(w, o, t) <==> Closer(w, o, s, t)
    ensures Rank(w, o, s) == Rank(w, o, t) <==> s == t
  {
    if s.ClassType? && t.ClassType? && s != t {
      var l := w.cpl[o.cls];
      var i, j := Position(l, s.cls), Position(l, t.cls);
      assert NoDup(l) && l[i] == s.cls && l[j] == t.cls && i != j;
      if Closer(w, o, s, t) {
        var i', j' :| 0 <= i' < j' < |l| && l[i'] == s.cls && l[j'] == t.cls;
        assert i' == i && j' == j;
      }
    }
  }

  // There is only one way to sort a set of methods.
  lemma {:induction false} SortUnique(c: Call, l: seq<Method>, r: seq<Method>)
    requires c.Valid() && (forall m :: m in l <==> m in r) && forall m :: m in l ==> c.Applicable(m)
    requires SortedBySpecificity(c, l) && SortedBySpecificity(c, r)
    ensures l == r
  {
    hide Call.Compare, Call.Applicable;
    assert r != [] ==> r[0] in l;
    if l != [] {
      assert l[0] in r;
      FirstSame(c, l, r);
      NoneTwice(c, l);
      NoneTwice(c, r);
      assert l == [l[0]] + l[1..] && r == [r[0]] + r[1..];
      assert forall m :: m in l[1..] <==> m in l && m != l[0];
      assert forall m :: m in r[1..] <==> m in r && m != r[0];
      SortUnique(c, l[1..], r[1..]);
    }
  }

  // The most specific method comes first in both.
  lemma FirstSame(c: Call, l: seq<Method>, r: seq<Method>)
    requires c.Valid() && l != [] && r != [] && (forall m :: m in l ==> c.Applicable(m)) && forall m :: m in r ==> c.Applicable(m)
    requires SortedBySpecificity(c, l) && SortedBySpecificity(c, r) && l[0] in r && r[0] in l
    ensures l[0] == r[0]
  {
    hide Call.Compare, Call.Applicable;
    var j :| 0 <= j < |r| && r[j] == l[0];
    var k :| 0 <= k < |l| && l[k] == r[0];
    if j > 0 && k > 0 {
      Swapped(c, l[0], r[0]);
    }
  }

  lemma NoneTwice(c: Call, l: seq<Method>)
    requires c.Valid() && l != [] && (forall m :: m in l ==> c.Applicable(m)) && SortedBySpecificity(c, l)
    ensures l[0] !in l[1..]
  {
    hide Call.Compare, Call.Applicable;
    Swapped(c, l[0], l[0]);
  }

  /** The order in which the methods were added makes no difference. */
  lemma SortOrderIndependent(c: Call, methods: seq<Method>, methods': seq<Method>)
    requires c.Valid() && NoDup(methods) && NoDup(methods') && forall m :: m in methods <==> m in methods'
    requires Unambiguous(c, methods)
    ensures SortMethods(c, methods) == SortMethods(c, methods')
  {
    hide Call.Compare, Call.Applicable;
    SortSorts(c, methods, |methods|);
    SortSorts(c, methods', |methods'|);
    assert methods[..|methods|] == methods && methods'[..|methods'|] == methods';
    SortUnique(c, SortFirst(c, methods, |methods|).ordered, SortFirst(c, methods', |methods'|).ordered);
  }
}
