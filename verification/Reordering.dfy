/**
 A hierarchy in which a class reverses the order that its superclass has for two others: the
 class table accepts it, and remembered dispatch results are wrong in it.
 */
module Reordering {
  import opened Wrappers
  import opened Linearization
  import opened Types
  import opened Specificity
  import opened Dispatch
  import opened Narrowing

  // Class 3 has the direct superclasses 1 and 2, and 1 has 0. Class 4 has 3, 2 and 0, and so
  // asks for 2 before 0.
  const SUPERS: seq<seq<Class>> := [[], [0], [], [1, 2], [3, 2, 0]]
  const LISTS: seq<seq<Class>> := [[0], [1, 0], [2], [3, 1, 0, 2], [4, 3, 1, 2, 0]]

  function Twisted(): (h: Hierarchy)
    ensures h.Valid() && |h.supers| == 5
  {
    Hierarchy(SUPERS)
  }

  lemma {:induction false} TwistedAncestors(c: Class, a: Class)
    requires c < 5
    ensures Ancestor(Twisted(), c, a) <==> a in LISTS[c]
    decreases c
  {
    hide Ancestor;
    AncestorStep(c, a);
    if c == 1 {
      TwistedAncestors(0, a);
    } else if c == 3 {
      TwistedAncestors(1, a);
      TwistedAncestors(2, a);
    } else if c == 4 {
      TwistedAncestors(3, a);
      TwistedAncestors(2, a);
      TwistedAncestors(0, a);
    }
  }

  lemma AncestorStep(c: Class, a: Class)
    requires c < 5
    ensures Ancestor(Twisted(), c, a) <==>
              || a == c || (c == 1 && Ancestor(Twisted(), 0, a))
              || (c == 3 && (Ancestor(Twisted(), 1, a) || Ancestor(Twisted(), 2, a)))
              || (c == 4 && (Ancestor(Twisted(), 3, a) || Ancestor(Twisted(), 2, a) || Ancestor(Twisted(), 0, a)))
  {
    assert c == 1 ==> SUPERS[c] == [0];
    assert c == 3 ==> SUPERS[c] == [1, 2];
    assert c == 4 ==> SUPERS[c] == [3, 2, 0];
  }

  lemma TwistedDemands(d: Class, x: Class, y: Class)
    requires d < 5
    ensures Demands(Twisted(), d, x, y) <==>
              || (d == 1 && (x, y) == (1, 0))
              || (d == 3 && (x, y) in [(3, 1), (3, 2), (1, 2)])
              || (d == 4 && (x, y) in [(4, 3), (4, 2), (4, 0), (3, 2), (2, 0)])
  {
    var s := SUPERS[d];
    assert d == 3 ==> s[0] == 1 && s[1] == 2;
    assert d == 4 ==> s[0] == 3 && s[1] == 2 && s[2] == 0;
  }

  // What has to come before y.
  lemma TwistedPrecedes(c: Class, x: Class, y: Class)
    requires c in [3, 4]
    ensures Precedes(Twisted(), c, x, y) <==>
              || (x, y) in [(1, 0), (3, 1), (3, 2), (1, 2)]
              || (c == 4 && (x, y) in [(4, 3), (4, 2), (4, 0), (2, 0)])
  {
    hide Ancestor, Demands;
    var h := Twisted();
    forall d: Class ensures Ancestor(h, c, d) && h.Has(d) && Demands(h, d, x, y) <==> d in LISTS[c] && Demands(h, d, x, y) {
      TwistedAncestors(c, d);
    }
    forall d: Class | d < 5
      ensures Demands(h, d, x, y) <==>
              || (d == 1 && (x, y) == (1, 0))
              || (d == 3 && (x, y) in [(3, 1), (3, 2), (1, 2)])
              || (d == 4 && (x, y) in [(4, 3), (4, 2), (4, 0), (3, 2), (2, 0)])
    {
      TwistedDemands(d, x, y);
    }
    assert forall d | d in LISTS[c] :: d < 5;
    if (x, y) == (1, 0) { assert Demands(h, 1, x, y); }
    if (x, y) in [(3, 1), (3, 2), (1, 2)] { assert Demands(h, 3, x, y); }
    if (x, y) in [(4, 3), (4, 2), (4, 0), (3, 2), (2, 0)] { assert Demands(h, 4, x, y); }
  }

  // Which class can come next.
  lemma TwistedEligible(c: Class, n: nat, y: Class)
    requires c in [3, 4] && 0 < n < |LISTS[c]|
    ensures Eligible(Twisted(), c, LISTS[c][..n], y) <==>
              y == LISTS[c][n] || (c == 3 && n == 2 && y == 2)
  {
    hide Ancestor, Precedes;
    var h := Twisted();
    TwistedAncestors(c, y);
    forall x: Class
      ensures Precedes(h, c, x, y) <==>
              || (x, y) in [(1, 0), (3, 1), (3, 2), (1, 2)]
              || (c == 4 && (x, y) in [(4, 3), (4, 2), (4, 0), (2, 0)])
    {
      TwistedPrecedes(c, x, y);
    }
    if c == 3 {
      assert LISTS[c][..1] == [3] && LISTS[c][..2] == [3, 1] && LISTS[c][..3] == [3, 1, 0];
      assert y in [0, 2] ==> Precedes(h, c, 1, y);
    } else {
      assert LISTS[c][..1] == [4] && LISTS[c][..2] == [4, 3] && LISTS[c][..3] == [4, 3, 1] && LISTS[c][..4] == [4, 3, 1, 2];
      assert y == 1 ==> Precedes(h, c, 3, y);
      assert y == 2 ==> Precedes(h, c, 1, y);
      assert y == 0 ==> Precedes(h, c, 2, y);
    }
  }

  lemma TwistedNext(c: Class, n: nat)
    requires c in [3, 4] && n < |LISTS[c]|
    ensures Next(Twisted(), c, LISTS[c][..n], LISTS[c][n])
  {
    hide Eligible;
    var h, placed := Twisted(), LISTS[c][..n];
    if n > 0 {
      forall y ensures Eligible(h, c, placed, y) <==> y == LISTS[c][n] || (c == 3 && n == 2 && y == 2) {
        TwistedEligible(c, n, y);
      }
      var k := if c == 3 && n == 3 then 0 else if c == 4 && n == 3 then 1 else if c == 4 && n == 4 then 2 else n - 1;
      assert Chosen(h, c, placed, k, LISTS[c][n]);
    }
  }

  /** These are the lists that the class table computes. */
  lemma TwistedLists(c: Class)
    requires c < 5
    ensures IsPrecedenceList(Twisted(), c, Some(LISTS[c]))
  {
    hide Ancestor, Next;
    var h := Twisted();
    forall a ensures Ancestor(h, c, a) <==> a in LISTS[c] {
      TwistedAncestors(c, a);
    }
    if c == 0 || c == 2 {
      NoSupers(h, c);
    } else if c == 1 {
      NoSupers(h, 0);
      ShortcutCorrect(h, 1, 0, [0]);
      assert [1] + [0] == LISTS[1];
    } else {
      forall n: nat | n < |LISTS[c]| ensures Next(h, c, LISTS[c][..n], LISTS[c][n]) {
        TwistedNext(c, n);
      }
    }
  }

  function TwistedWorld(): World {
    World(LISTS)
  }

  /** In this hierarchy a remembered result is wrong: with methods on 0, on 2 and on one instance
      of 4, the entry made for an instance of 3 misorders the methods for another instance of 4. */
  lemma TwistedEntryWrong()
    ensures TwistedWorld().Good() && !OrderPreserving(TwistedWorld())
    ensures !EntryRight(Call(TwistedWorld(), [Obj(0, 3)]), ThreeMethods(4, 0, 2), [Obj(1, 4)])
  {
    hide IsPrecedenceList, World.Good, EntryRight;
    forall c: Class | c < 5 ensures IsPrecedenceList(Twisted(), c, Some(LISTS[c])) {
      TwistedLists(c);
    }
    PrecedenceListsGood(Twisted(), LISTS);
    TwistedReordered();
    ReorderedEntryWrong(TwistedWorld(), 3, 4, 0, 2);
    var w := TwistedWorld();
    WrongNotPreserving(Call(w, [Obj(0, 3)]), ThreeMethods(4, 0, 2), [Obj(1, 4)]);
  }

  lemma WrongNotPreserving(c: Call, methods: seq<Method>, args': seq<Obj>)
    requires !EntryRight(c, methods, args')
    ensures !OrderPreserving(c.w)
  {
    hide EntryRight, OrderPreserving;
    if OrderPreserving(c.w) {
      PreservingEntryRight(c, methods, args');
    }
  }

  lemma TwistedReordered()
    requires TwistedWorld().Good()
    ensures Reordered(TwistedWorld(), 3, 4, 0, 2)
  {
    assert LISTS[3][2] == 0 && LISTS[3][3] == 2 && LISTS[4][3] == 2 && LISTS[4][4] == 0 && LISTS[4][1] == 3;
    assert Position(LISTS[3], 0) == 2 && Position(LISTS[3], 2) == 3;
    assert Position(LISTS[4], 0) == 4 && Position(LISTS[4], 2) == 3;
  }
}
