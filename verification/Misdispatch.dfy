/**
 What the sort makes of ambiguous methods that later ones drive out of its list: a method can
 come first although another one is as specific, or even more specific.
 */
module Misdispatch {
  import opened Wrappers
  import opened Linearization
  import opened Types
  import opened Specificity
  import opened Dispatch

  // Seven classes, each below the one before.
  const TOP_TO_BOTTOM := World(seq(7, c requires 0 <= c < 7 => seq(c + 1, i requires 0 <= i <= c => c - i)))
  const BOTTOM := Obj(0, 6)

  // A call with two instances of the lowest class.
  const CALL := Call(TOP_TO_BOTTOM, [BOTTOM, BOTTOM])

  lemma ChainGood()
    ensures TOP_TO_BOTTOM.Good() && CALL.Valid()
  {
    var w := TOP_TO_BOTTOM;
    forall c: Class, d: Class | c < 7 ensures d in w.cpl[c] <==> d <= c { InChain(c, d); }
    forall c: Class, i, j | c < 7 && 0 <= i < |w.cpl[c]| && 0 <= j < |w.cpl[c]| ensures w.InOrder(c, i, j) {
      InChain(c - i, c - j);
    }
  }

  lemma InChain(c: Class, d: Class)
    requires c < 7
    ensures d in TOP_TO_BOTTOM.cpl[c] <==> d <= c
  {
    if d <= c { assert TOP_TO_BOTTOM.cpl[c][c - d] == d; }
  }

  // A method whose specializers are so many classes above those of the arguments.
  function Far(id: nat, x: nat, y: nat): Method
    requires x <= 6 && y <= 6
  {
    Method(id, [ClassType(6 - x), ClassType(6 - y)])
  }

  lemma FarApplies(id: nat, x: nat, y: nat)
    requires x <= 6 && y <= 6
    ensures CALL.Valid() && CALL.Applicable(Far(id, x, y))
  {
    ChainGood();
    InChain(6, 6 - x);
    InChain(6, 6 - y);
  }

  predicate Below(x: nat, y: nat, x': nat, y': nat) {
    x <= x' && y <= y' && (x, y) != (x', y')
  }

  lemma FarCompares(id: nat, x: nat, y: nat, id': nat, x': nat, y': nat)
    requires x <= 6 && y <= 6 && x' <= 6 && y' <= 6
    ensures CALL.Valid() && CALL.Applicable(Far(id, x, y)) && CALL.Applicable(Far(id', x', y'))
    ensures CALL.Compare(Far(id, x, y), Far(id', x', y')) ==
            if (x, y) == (x', y') then Identical
            else if Below(x, y, x', y') then MoreSpecific
            else if Below(x', y', x, y) then LessSpecific
            else Ambiguous
  {
    hide Call.Compare, World.Good, Closer;
    FarApplies(id, x, y);
    FarApplies(id', x', y');
    var m, n := Far(id, x, y), Far(id', x', y');
    ComparesExactly(CALL, m, n);
    CloserInChain(x, x');
    CloserInChain(y, y');
    CloserInChain(x', x);
    CloserInChain(y', y);
    CloserBoth(id, x, y, id', x', y');
    CloserBoth(id', x', y', id, x, y);
  }

  lemma CloserBoth(id: nat, x: nat, y: nat, id': nat, x': nat, y': nat)
    requires x <= 6 && y <= 6 && x' <= 6 && y' <= 6 && CALL.Valid()
    ensures CloserEverywhere(CALL, Far(id, x, y), Far(id', x', y')) <==> x <= x' && y <= y'
  {
    hide Call.Valid, Closer;
    var m, n := Far(id, x, y), Far(id', x', y');
    CloserInChain(x, x');
    CloserInChain(y, y');
    assert CALL.args[0] == BOTTOM && CALL.args[1] == BOTTOM;
    assert CloserEverywhere(CALL, m, n) <==>
           Closer(TOP_TO_BOTTOM, BOTTOM, m.specs[0], n.specs[0]) && Closer(TOP_TO_BOTTOM, BOTTOM, m.specs[1], n.specs[1]);
  }

  lemma CloserInChain(x: nat, x': nat)
    requires x <= 6 && x' <= 6
    ensures Closer(TOP_TO_BOTTOM, BOTTOM, ClassType(6 - x), ClassType(6 - x')) <==> x <= x'
  {
    var l := TOP_TO_BOTTOM.cpl[6];
    assert l[x] == 6 - x && l[x'] == 6 - x';
  }

  // Pairs of methods of which neither is more specific: the first of them with the second, which
  // the third drives out, ...
  const A := Far(0, 3, 3)
  const B := Far(1, 1, 4)
  const C := Far(2, 1, 6)
  const D := Far(3, 3, 2)

  // ... and the fourth with the fifth, which the sixth drives out.
  const E := Far(4, 2, 6)
  const F := Far(5, 4, 2)
  const G := Far(6, 2, 5)
  const METHODS := [A, B, C, D, E, F, G]

  // The sort, method by method.

  lemma AfterFour()
    ensures CALL.Valid() && SortFirst(CALL, METHODS, 4) == Sorted([D], [A])
  {
    hide Call.Compare, Call.Applicable, World.Good, Insert, Call.Valid;
    ChainGood();
    var c := CALL;
    FarCompares(1, 1, 4, 0, 3, 3);
    FarCompares(2, 1, 6, 1, 1, 4);
    FarCompares(2, 1, 6, 0, 3, 3);
    FarCompares(3, 3, 2, 0, 3, 3);
    assert SortFirst(c, METHODS, 0) == Sorted([], []);
    InsertAlone(c, A);
    assert SortFirst(c, METHODS, 1) == Sorted([A], []);
    InsertAmbiguous(c, A, B, []);
    assert SortFirst(c, METHODS, 2) == Sorted([], [B, A]);
    InsertDriving(c, B, A, C);
    assert SortFirst(c, METHODS, 3) == Sorted([], [A]);
    InsertAbove(c, A, D);
  }

  lemma AfterSeven()
    ensures CALL.Valid() && SortFirst(CALL, METHODS, 7) == Sorted([G], [E])
  {
    hide Call.Compare, Call.Applicable, World.Good, Insert, Call.Valid;
    ChainGood();
    var c := CALL;
    AfterFour();
    FarCompares(4, 2, 6, 3, 3, 2);
    FarCompares(5, 4, 2, 4, 2, 6);
    FarCompares(5, 4, 2, 3, 3, 2);
    FarCompares(6, 2, 5, 4, 2, 6);
    InsertAmbiguous(c, D, E, [A]);
    assert SortFirst(c, METHODS, 5) == Sorted([], [E, D]);
    InsertDrivingSecond(c, E, D, F);
    assert SortFirst(c, METHODS, 6) == Sorted([], [E]);
    InsertAbove(c, E, G);
  }

  lemma InsertAlone(c: Call, m: Method)
    requires c.Valid() && c.Applicable(m)
    ensures Insert(c, Sorted([], []), m) == Sorted([m], [])
  {
    assert [] + [m] == [m];
  }

  lemma InsertAmbiguous(c: Call, m: Method, n: Method, ambiguous: seq<Method>)
    requires c.Valid() && c.Applicable(m) && c.Applicable(n) && (forall x :: x in ambiguous ==> c.Applicable(x))
    requires c.Compare(n, m) == Ambiguous
    ensures Insert(c, Sorted([m], ambiguous), n) == Sorted([], [n, m])
  {
    hide Call.Compare, Call.Applicable;
  }

  lemma InsertDriving(c: Call, m: Method, n: Method, x: Method)
    requires c.Valid() && c.Applicable(m) && c.Applicable(n) && c.Applicable(x)
    requires c.Compare(x, m) == LessSpecific && c.Compare(x, n) == Ambiguous
    ensures Insert(c, Sorted([], [m, n]), x) == Sorted([], [n])
  {
    hide Call.Compare, Call.Applicable;
    assert [m, n][1..] == [n] && [n][1..] == [];
    assert Clashing(c, x, [n]) == [n];
    assert Clashing(c, x, [m, n]) == [n];
  }

  lemma InsertDrivingSecond(c: Call, m: Method, n: Method, x: Method)
    requires c.Valid() && c.Applicable(m) && c.Applicable(n) && c.Applicable(x)
    requires c.Compare(x, m) == Ambiguous && c.Compare(x, n) == LessSpecific
    ensures Insert(c, Sorted([], [m, n]), x) == Sorted([], [m])
  {
    hide Call.Compare, Call.Applicable;
    assert [m, n][1..] == [n] && [n][1..] == [];
    assert Clashing(c, x, [n]) == [];
    assert Clashing(c, x, [m, n]) == [m];
  }

  lemma InsertAbove(c: Call, m: Method, x: Method)
    requires c.Valid() && c.Applicable(m) && c.Applicable(x) && c.Compare(x, m) == MoreSpecific
    ensures Insert(c, Sorted([], [m]), x) == Sorted([x], [m])
  {
    hide Call.Compare, Call.Applicable;
    assert Clashing(c, x, [m]) == [];
    assert [] + [x] == [x];
  }

  /** With the first four methods D is called, although B applies and neither is more specific than
      the other. */
  lemma AmbiguityForgotten()
    ensures CALL.Valid() && SortMethods(CALL, METHODS[..4]) == [Some(D), None, Some(A)]
    ensures B in METHODS[..4] && Undecided(CALL, D, B)
  {
    hide Call.Compare, Call.Applicable, World.Good, SortFirst, Call.Valid;
    ChainGood();
    AfterFour();
    FarCompares(3, 3, 2, 1, 1, 4);
    assert METHODS[..4] == [A, B, C, D] && METHODS[..4][1] == B;
    PrefixSorts(CALL, METHODS, 4, 4);
    assert METHODS[..4][..4] == METHODS[..4];
  }

  /** With all seven G is called, although B applies and is more specific. */
  lemma LessSpecificCalled()
    ensures CALL.Valid() && SortMethods(CALL, METHODS) == [Some(G), None, Some(E)]
    ensures B in METHODS && CALL.Applicable(B) && CALL.Applicable(G) && CALL.Compare(B, G) == MoreSpecific
  {
    hide Call.Compare, Call.Applicable, World.Good, SortFirst, Call.Valid;
    ChainGood();
    AfterSeven();
    FarCompares(1, 1, 4, 6, 2, 5);
    assert METHODS[1] == B;
  }

  // The sort of the first methods depends on these only.
  lemma {:induction false} PrefixSorts(c: Call, methods: seq<Method>, k: nat, n: nat)
    requires c.Valid() && n <= k <= |methods|
    ensures SortFirst(c, methods[..k], n) == SortFirst(c, methods, n)
  {
    hide Insert, Call.Applicable;
    if n > 0 { PrefixSorts(c, methods, k, n - 1); }
  }
}
