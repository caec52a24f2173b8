/**
 What the invariant of a collection says about layouts, about where the next copy goes, and
 about the end of the collection.
 */
module Collection {
  import opened Wrappers
  import opened Memory
  import opened Spaces
  import opened Copying

  // w describes the heap of memory w.m for classes of the given shape. Root slots are static
  // data, which is block 0.
  ghost predicate Describes(sh: Shape, w: World) {
    && GoodHeap(sh, w.m, w.objs)
    && NoDup(w.roots)
    && (forall r :: r in w.roots ==> r.block == 0 && GoodRef(w.objs, w.m(r)))
    && (forall o :: o in w.objs ==>
          && 0 < o.block
          && w.words(o) == LayoutOf(sh, w.m, o).words
          && w.slots(o) == [0] + LayoutOf(sh, w.m, o).slots)
    && (forall o :: w.live(o) <==> Reachable(sh, w.m, w.roots, o))
  }

  lemma DescribedIsGood(sh: Shape, w: World)
    requires Describes(sh, w)
    ensures w.Good()
  {
    hide Describes;
    forall o | o in w.objs ensures 1 <= w.words(o) {
      HasWords(sh, w, o);
    }
    forall o, p, x | o in w.objs && p in w.objs && w.Owns(o, x) && w.Owns(p, x) ensures o == p {
      OneOwner(sh, w, o, p, x);
    }
  }

  lemma HasWords(sh: Shape, w: World, o: Addr)
    requires Describes(sh, w) && o in w.objs
    ensures 1 <= w.words(o) && Align(w.words(o)) <= CAPACITY
  {
    assert GoodObject(sh, w.m, w.objs, o);
  }

  lemma OneOwner(sh: Shape, w: World, o: Addr, p: Addr, x: Addr)
    requires Describes(sh, w) && o in w.objs && p in w.objs && w.Owns(o, x) && w.Owns(p, x)
    ensures o == p
  {
    hide GoodObject, LayoutOf;
    assert o != p ==> Disjoint(sh, w.m, o, p);
  }

  // The layout of an object that is not copied yet can still be read, even when its class
  // has been overwritten with a forwarding pointer.
  lemma OldLayout(sh: Shape, w: World, s: State, o: Addr)
    requires Describes(sh, w) && OldWorld(w, s)
    requires o in w.objs && o !in s.f
    ensures s.m(o) == w.m(o)
    ensures LayoutOf(sh, s.m, o) == LayoutOf(sh, w.m, o)
  {
    assert GoodObject(sh, w.m, w.objs, o);
    assert w.Owns(o, o);
    var c := w.m(o).a;
    assert w.Owns(c, At(c, METHODS));
    assert At(c, METHODS) != c && At(c, METHODS) != At(c, 1);
    var l := At(o, sh.lengthAt(Descriptor(w.m, c)));
    assert w.Owns(o, l);
  }

  // The layout of a copy can be read as soon as its class word has been scavenged.
  lemma NewLayout(sh: Shape, w: World, s: State, o: Addr)
    requires Describes(sh, w) && Mapped(w, s) && NewWorld(w, s)
    requires o in s.f && o in w.objs && s.f[o] in s.done
    ensures LayoutOf(sh, s.m, s.f[o]) == LayoutOf(sh, w.m, o)
  {
    assert GoodObject(sh, w.m, w.objs, o);
    var n, c := s.f[o], w.m(o).a;
    assert n == At(n, 0) && o == At(o, 0) && s.src[n] == o && WordOk(w, s, n);
    var x := At(s.f[c], METHODS);
    assert s.src[x] == At(c, METHODS) && WordOk(w, s, x);
    var l := sh.lengthAt(Descriptor(w.m, c));
    assert s.src[At(n, l)] == At(o, l) && WordOk(w, s, At(n, l));
  }

  // The i-th object of the new space is the copy of the i-th queued object.
  ghost predicate Linked(w: World, s: State, ch: Chain) {
    && |ch.contents| == |s.queue|
    && forall i :: 0 <= i < |s.queue| ==>
         && ch.contents[i].index < |ch.blocks|
         && s.queue[i] in s.f
         && s.f[s.queue[i]] == ch.Place(ch.contents[i])
         && ch.contents[i].words == Align(w.words(s.queue[i]))
  }

  // The place allocated for the next copy is unused.
  lemma NextPlaceIsFresh(w: World, s: State, ch: Chain, t: Chain, o: Addr)
    requires Linked(w, s, ch) && Queued(w, s) && Tight(w, s)
    requires forall r :: r in w.roots ==> r.block == 0
    requires t.Good() && Extends(ch, t, Align(w.words(o)))
    requires forall b :: b in t.Ids() ==> b != 0 && forall q :: q in w.objs ==> q.block != b
    ensures t.contents[|ch.contents|].index < |t.blocks|
    ensures Fresh(w, s, t.Place(t.contents[|ch.contents|]), w.words(o))
  {
    var n := |ch.contents|;
    var c := t.contents[n];
    assert t.Fits(c);
    var p := t.Place(c);
    assert p.block in t.Ids();
    forall x | x in s.src ensures !Within(x, p, w.words(o)) {
      if x !in w.roots {
        var q :| q in s.f && Within(x, s.f[q], w.words(q));
        assert q in s.queue;
        var i :| 0 <= i < |s.queue| && s.queue[i] == q;
        var d := ch.contents[i];
        assert t.contents[i] == d && t.blocks[d.index].id == ch.blocks[d.index].id;
        assert Chain.Before(t.contents[i], t.contents[n]);
        assert d.index != c.index ==> t.blocks[d.index].id != t.blocks[c.index].id;
      }
    }
  }

  lemma TransportKeepsLinked(w: World, s: State, ch: Chain, t: Chain, o: Addr)
    requires Linked(w, s, ch) && o !in s.f
    requires Extends(ch, t, Align(w.words(o))) && t.contents[|ch.contents|].index < |t.blocks|
    ensures Linked(w, Transported(w, s, o, t.Place(t.contents[|ch.contents|])), t)
  {
    var n := |ch.contents|;
    var u := Transported(w, s, o, t.Place(t.contents[n]));
    forall i | 0 <= i < |u.queue|
      ensures t.contents[i].index < |t.blocks| && u.queue[i] in u.f
      ensures u.f[u.queue[i]] == t.Place(t.contents[i])
      ensures t.contents[i].words == Align(w.words(u.queue[i]))
    {
      if i < n {
        assert t.contents[i] == t.contents[..n][i] == ch.contents[i];
        assert u.queue[i] == s.queue[i];
      }
    }
  }

  // Copying one more object to the place that was allocated for it.
  lemma TransportStep(sh: Shape, w: World, s: State, ch: Chain, t: Chain, o: Addr, olds: set<nat>)
    requires Describes(sh, w) && Inv(w, s) && Linked(w, s, ch)
    requires o in w.objs && o !in s.f && w.live(o)
    requires t.Good() && Extends(ch, t, Align(w.words(o)))
    requires t.Ids() !! olds && 0 !in t.Ids() && forall q :: q in w.objs ==> q.block in olds
    ensures t.contents[|ch.contents|].index < |t.blocks|
    ensures var u := Transported(w, s, o, t.Place(t.contents[|ch.contents|]));
            Inv(w, u) && Linked(w, u, t) && Advances(s, u)
  {
    hide GoodHeap, OldWorld, NewWorld, Mapped, Tight, Chain.Good;
    NextPlaceIsFresh(w, s, ch, t, o);
    DescribedIsGood(sh, w);
    TransportKeepsInv(w, s, o, t.Place(t.contents[|ch.contents|]));
    TransportAdvances(w, s, o, t.Place(t.contents[|ch.contents|]));
    TransportKeepsLinked(w, s, ch, t, o);
  }

  // What a pending slot holds, and what the object it refers to says about its size.
  lemma PendingWord(sh: Shape, w: World, s: State, x: Addr)
    requires Describes(sh, w) && Inv(w, s) && Pending(w, s, x)
    ensures s.m(x) == w.m(s.src[x]) && !s.m(x).Marker?
    ensures s.m(x).Ptr? ==>
              var o := s.m(x).a;
              && o in w.objs && w.live(o)
              && (o in s.f <==> s.m(o) == Marker)
              && (o in s.f ==> s.m(At(o, 1)) == Ptr(s.f[o]))
              && (o !in s.f ==> s.m(o).Ptr? && LayoutOf(sh, s.m, o).words == w.words(o))
  {
    assert WordOk(w, s, x);
    if s.m(x).Ptr? && s.m(x).a !in s.f {
      OldLayout(sh, w, s, s.m(x).a);
      assert GoodObject(sh, w.m, w.objs, s.m(x).a);
    }
  }

  lemma ForwardStep(w: World, s: State, ch: Chain, x: Addr)
    requires Inv(w, s) && Linked(w, s, ch) && Pending(w, s, x)
    requires s.m(x).Ptr? ==> s.m(x).a in s.f
    ensures Inv(w, Forwarded(s, x)) && Linked(w, Forwarded(s, x), ch) && Advances(s, Forwarded(s, x))
  {
    hide Inv;
    ForwardKeepsInv(w, s, x);
  }

  lemma TransportKeepsPending(w: World, s: State, o: Addr, p: Addr, x: Addr)
    requires Inv(w, s) && Pending(w, s, x) && s.m(x) == w.m(s.src[x]) && s.m(x) == Ptr(o)
    requires Inv(w, Transported(w, s, o, p)) && Advances(s, Transported(w, s, o, p))
    ensures var u := Transported(w, s, o, p); Pending(w, u, x) && u.m(x) == Ptr(o)
  {
    assert WordOk(w, Transported(w, s, o, p), x);
  }

  // After the object that a slot refers to has been copied, the slot is made to point to the copy.
  lemma FollowStep(w: World, s: State, t: State, ch: Chain, o: Addr, p: Addr, x: Addr)
    requires Inv(w, s) && Pending(w, s, x) && s.m(x) == w.m(s.src[x]) && s.m(x) == Ptr(o)
    requires t == Transported(w, s, o, p) && Inv(w, t) && Linked(w, t, ch) && Advances(s, t)
    ensures x in t.src
    ensures var u := Forwarded(t, x);
            && u == t.(m := Store(t.m, x, Ptr(p)), done := s.done + [x])
            && Inv(w, u) && Linked(w, u, ch) && Advances(s, u)
  {
    hide Inv, Linked, Store, Copy, Region;
    TransportKeepsPending(w, s, o, p, x);
    ForwardStep(w, t, ch, x);
    AdvancesTransitive(s, t, Forwarded(t, x));
  }

  // A slot stays pending until it is scavenged.
  lemma PendingStays(w: World, s: State, t: State, refs: seq<Addr>)
    requires forall x :: x in refs ==> Pending(w, s, x)
    requires Advances(s, t) && forall x :: x in refs ==> x !in t.done
    ensures forall x :: x in refs ==> Pending(w, t, x)
  {
  }

  // The slots of the object at n other than its class word.
  function SlotAddrs(n: Addr, slots: seq<nat>): (r: seq<Addr>)
    ensures |r| == |slots| && forall i :: 0 <= i < |r| ==> r[i] == At(n, slots[i])
  {
    seq(|slots|, i requires 0 <= i < |slots| => At(n, slots[i]))
  }

  // The slots of the copy at n of the object at o.
  function SlotsAt(w: World, o: Addr, n: Addr): seq<Addr> {
    SlotAddrs(n, w.slots(o))
  }

  // Besides the roots, exactly the slots of the first k copies have been scavenged.
  ghost predicate Scanned(w: World, s: State, k: nat) {
    && k <= |s.queue|
    && (forall o :: o in s.queue ==> o in s.f)
    && (forall r :: r in w.roots ==> r in s.done)
    && (forall i, x :: 0 <= i < k && x in SlotsAt(w, s.queue[i], s.f[s.queue[i]]) ==> x in s.done)
    && (forall x :: x in s.done ==> x in w.roots || InScanned(w, s, k, x))
  }

  ghost predicate InScanned(w: World, s: State, k: nat, x: Addr)
    requires k <= |s.queue| && forall o :: o in s.queue ==> o in s.f
  {
    exists i :: 0 <= i < k && x in SlotsAt(w, s.queue[i], s.f[s.queue[i]])
  }

  lemma ScanStep(w: World, s: State, t: State, k: nat)
    requires Scanned(w, s, k) && k < |s.queue| && Advances(s, t)
    requires forall o :: o in t.queue ==> o in t.f
    requires t.done == s.done + SlotsAt(w, s.queue[k], s.f[s.queue[k]])
    ensures Scanned(w, t, k + 1)
  {
    forall i | 0 <= i <= k ensures t.queue[i] == s.queue[i] && t.f[t.queue[i]] == s.f[s.queue[i]] {
      assert t.queue[i] == t.queue[..|s.queue|][i];
      assert s.queue[i] in s.queue;
    }
    forall x | x in t.done ensures x in w.roots || InScanned(w, t, k + 1, x) {
      if x in s.done && x !in w.roots {
        var i :| 0 <= i < k && x in SlotsAt(w, s.queue[i], s.f[s.queue[i]]);
        assert x in SlotsAt(w, t.queue[i], t.f[t.queue[i]]);
      } else if x !in w.roots {
        assert x in SlotsAt(w, t.queue[k], t.f[t.queue[k]]);
      }
    }
  }

  // The slots of the next copy to scan are all still to be scavenged.
  lemma NextSlotsPending(sh: Shape, w: World, s: State, k: nat)
    requires Describes(sh, w) && Inv(w, s) && Scanned(w, s, k) && k < |s.queue|
    ensures var o := s.queue[k];
            && NoDup(SlotsAt(w, o, s.f[o]))
            && forall x :: x in SlotsAt(w, o, s.f[o]) ==> Pending(w, s, x)
  {
    hide Inv, Scanned, Describes;
    var o := s.queue[k];
    QueuedObject(w, s, k);
    SlotsDistinct(sh, w, o, s.f[o]);
    forall x | x in SlotsAt(w, o, s.f[o]) ensures Pending(w, s, x) {
      var j :| j in w.slots(o) && x == At(s.f[o], j);
      SlotRef(sh, w, o, j);
      SlotNotDone(sh, w, s, k, j);
    }
  }

  lemma SlotsDistinct(sh: Shape, w: World, o: Addr, n: Addr)
    requires Describes(sh, w) && o in w.objs
    ensures NoDup(SlotsAt(w, o, n))
  {
    GoodSlots(sh, w, o);
    hide Describes;
    AfterClassWord(LayoutOf(sh, w.m, o).slots);
  }

  lemma GoodSlots(sh: Shape, w: World, o: Addr)
    requires Describes(sh, w) && o in w.objs
    ensures w.slots(o) == [0] + LayoutOf(sh, w.m, o).slots
    ensures NoDup(LayoutOf(sh, w.m, o).slots)
    ensures forall s :: s in LayoutOf(sh, w.m, o).slots ==> 0 < s < w.words(o)
  {
    assert GoodObject(sh, w.m, w.objs, o);
  }

  lemma AfterClassWord(s: seq<nat>)
    requires NoDup(s) && forall x :: x in s ==> 0 < x
    ensures NoDup([0] + s)
  {
    forall i, j | 0 <= i < j < |[0] + s| ensures ([0] + s)[i] != ([0] + s)[j] {
      assert ([0] + s)[j] == s[j - 1];
      assert s[j - 1] in s;
    }
  }

  lemma QueuedObject(w: World, s: State, i: nat)
    requires Inv(w, s) && i < |s.queue|
    ensures s.queue[i] in s.f && s.queue[i] in w.objs && w.live(s.queue[i])
    ensures forall j :: 0 <= j < w.words(s.queue[i]) ==>
              && At(s.f[s.queue[i]], j) in s.src
              && s.src[At(s.f[s.queue[i]], j)] == At(s.queue[i], j)
    ensures forall j :: 0 <= j < i ==> s.queue[j] != s.queue[i]
    ensures forall r :: r in w.roots ==> r in s.src && s.src[r] == r
  {
  }

  // A slot of a live object holds a reference to a live object.
  lemma SlotRef(sh: Shape, w: World, o: Addr, j: nat)
    requires Describes(sh, w) && o in w.objs && w.live(o) && j in w.slots(o)
    ensures j < w.words(o)
    ensures GoodRef(w.objs, w.m(At(o, j)))
    ensures w.m(At(o, j)).Ptr? ==> w.live(w.m(At(o, j)).a)
  {
    assert GoodObject(sh, w.m, w.objs, o);
    assert At(o, 0) == o;
    if w.m(At(o, j)).Ptr? {
      hide LayoutOf;
      assert IsSlot(sh, w.m, o, j);
      assert Refers(sh, w.m, o, w.m(At(o, j)).a);
      ReferenceReachable(sh, w.m, w.roots, o, w.m(At(o, j)).a);
    }
  }

  lemma SlotNotDone(sh: Shape, w: World, s: State, k: nat, j: nat)
    requires Describes(sh, w) && Inv(w, s) && Scanned(w, s, k) && k < |s.queue|
    requires j in w.slots(s.queue[k]) && j < w.words(s.queue[k])
    ensures var x := At(s.f[s.queue[k]], j); x in s.src && x !in s.done && s.src[x] == At(s.queue[k], j)
  {
    hide Inv, Scanned, Describes;
    var o := s.queue[k];
    QueuedObject(w, s, k);
    StaticBlock(sh, w);
    var x := At(s.f[o], j);
    if x in s.done {
      var i := WhereScanned(w, s, k, x);
      QueuedObject(w, s, i);
      var p := s.queue[i];
      var l :| l in w.slots(p) && x == At(s.f[p], l);
      SlotRef(sh, w, p, l);
      OneOwner(sh, w, o, p, At(o, j));
    }
  }

  lemma StaticBlock(sh: Shape, w: World)
    requires Describes(sh, w)
    ensures forall r :: r in w.roots ==> r.block == 0
    ensures forall o :: o in w.objs ==> 0 < o.block
  {
  }

  lemma WhereScanned(w: World, s: State, k: nat, x: Addr) returns (i: nat)
    requires Scanned(w, s, k) && x in s.done && x !in w.roots
    ensures i < k <= |s.queue| && s.queue[i] in s.f && x in SlotsAt(w, s.queue[i], s.f[s.queue[i]])
  {
    assert InScanned(w, s, k, x);
    i :| 0 <= i < k && x in SlotsAt(w, s.queue[i], s.f[s.queue[i]]);
    assert s.queue[i] in s.queue;
  }

  // When the scan starts, the roots have been scavenged and nothing else.
  lemma ScanStart(w: World, s: State)
    requires Inv(w, s) && s.done == w.roots
    ensures Scanned(w, s, 0)
  {
  }

  // The state at the start of a collection: everything is where it was.
  ghost function Start(w: World): State {
    State(w.m, map[], [], map r | r in w.roots :: r, [])
  }

  lemma StartInv(sh: Shape, w: World)
    requires Describes(sh, w)
    ensures Inv(w, Start(w))
    ensures forall r :: r in w.roots ==> Pending(w, Start(w), r)
  {
    forall r | r in w.roots && w.m(r).Ptr? ensures w.live(w.m(r).a) {
      assert Rooted(w.m, w.roots, w.m(r).a);
      RootReachable(sh, w.m, w.roots, w.m(r).a);
    }
  }

  // At the end, every slot of a copied object refers to a copied object, ...
  lemma CopiedClosed(sh: Shape, w: World, s: State, o: Addr, q: Addr)
    requires Describes(sh, w) && Inv(w, s) && Scanned(w, s, |s.queue|)
    requires o in s.f && Refers(sh, w.m, o, q)
    ensures q in s.f
  {
    hide Describes, LayoutOf, Inv, Scanned;
    var j :| IsSlot(sh, w.m, o, j) && w.m(At(o, j)) == Ptr(q);
    assert o in s.queue by { InQueue(w, s, o); }
    var i :| 0 <= i < |s.queue| && s.queue[i] == o;
    QueuedObject(w, s, i);
    GoodSlots(sh, w, o);
    HasWords(sh, w, o);
    assert w.slots(o)[0] == 0 && j in w.slots(o);
    var x := At(s.f[o], j);
    assert x in SlotsAt(w, o, s.f[o]);
    ScannedSlot(w, s, i, x);
    DoneSlot(w, s, x);
  }

  lemma InQueue(w: World, s: State, o: Addr)
    requires Inv(w, s) && o in s.f
    ensures o in s.queue
  {
  }

  lemma ScannedSlot(w: World, s: State, i: nat, x: Addr)
    requires Scanned(w, s, |s.queue|) && i < |s.queue| && s.queue[i] in s.f
    requires x in SlotsAt(w, s.queue[i], s.f[s.queue[i]])
    ensures x in s.done
  {
  }

  // A slot that has been scavenged refers to a copied object.
  lemma DoneSlot(w: World, s: State, x: Addr)
    requires Inv(w, s) && x in s.done
    ensures x in s.src && (w.m(s.src[x]).Ptr? ==> w.m(s.src[x]).a in s.f)
  {
    assert WordOk(w, s, x);
  }

  lemma CopiedRoots(w: World, s: State, q: Addr)
    requires Inv(w, s) && Scanned(w, s, |s.queue|) && Rooted(w.m, w.roots, q)
    ensures q in s.f
  {
    var r :| r in w.roots && w.m(r) == Ptr(q);
    assert r in s.src && WordOk(w, s, r);
  }

  lemma CopiedIsLive(sh: Shape, w: World, s: State)
    requires Describes(sh, w) && Inv(w, s)
    ensures forall o :: o in s.f ==> o in w.objs && Reachable(sh, w.m, w.roots, o)
  {
  }

  // ... so the copied objects are exactly the reachable ones.
  lemma CopiedIsReachable(sh: Shape, w: World, s: State)
    requires Describes(sh, w) && Inv(w, s) && Scanned(w, s, |s.queue|)
    ensures forall o :: o in s.f <==> Reachable(sh, w.m, w.roots, o)
  {
    hide Inv, Describes, Scanned, Refers, Rooted, Reachable;
    CopiedIsLive(sh, w, s);
    forall q | Rooted(w.m, w.roots, q) ensures q in s.f.Keys {
      CopiedRoots(w, s, q);
    }
    forall p, q | p in s.f.Keys && Refers(sh, w.m, p, q) ensures q in s.f.Keys {
      CopiedClosed(sh, w, s, p, q);
    }
    forall o | Reachable(sh, w.m, w.roots, o) ensures o in s.f {
      ClosedHoldsReachable(sh, w.m, w.roots, s.f.Keys, o);
    }
  }

  lemma CopyOf(sh: Shape, w: World, s: State, o: Addr)
    requires Describes(sh, w) && Inv(w, s) && Scanned(w, s, |s.queue|)
    requires o in s.f
    ensures CopyAt(sh, w.m, s.m, s.f, o)
  {
    hide Describes, Inv, Scanned, LayoutOf;
    var k := IndexOf(w, s, o);
    WordsIs(sh, w, o);
    GoodSlots(sh, w, o);
    HasWords(sh, w, o);
    assert At(s.f[o], 0) == s.f[o] && w.slots(o)[0] == 0;
    forall i | 0 <= i < w.words(o)
      ensures At(s.f[o], i) in s.done <==> IsSlot(sh, w.m, o, i)
    {
      assert IsSlot(sh, w.m, o, i) <==> i in w.slots(o);
      if i in w.slots(o) {
        SlotDone(w, s, o, i);
      } else {
        OnlySlotsDone(sh, w, s, o, i);
      }
    }
    NewLayoutOf(sh, w, s, o);
    WordsOf(w, s, o);
  }

  lemma NewLayoutOf(sh: Shape, w: World, s: State, o: Addr)
    requires Describes(sh, w) && Inv(w, s) && o in s.f && s.f[o] in s.done
    ensures LayoutOf(sh, s.m, s.f[o]) == LayoutOf(sh, w.m, o)
  {
    hide LayoutOf, Describes;
    NewLayout(sh, w, s, o);
  }

  lemma WordsOf(w: World, s: State, o: Addr)
    requires Inv(w, s) && o in s.f
    ensures forall i :: 0 <= i < w.words(o) ==>
              s.m(At(s.f[o], i)) == if At(s.f[o], i) in s.done then Relocate(s.f, w.m(At(o, i))) else w.m(At(o, i))
  {
    forall i | 0 <= i < w.words(o)
      ensures s.m(At(s.f[o], i)) == if At(s.f[o], i) in s.done then Relocate(s.f, w.m(At(o, i))) else w.m(At(o, i))
    {
      assert s.src[At(s.f[o], i)] == At(o, i) && WordOk(w, s, At(s.f[o], i));
    }
  }

  lemma IndexOf(w: World, s: State, o: Addr) returns (k: nat)
    requires Inv(w, s) && o in s.f
    ensures k < |s.queue| && s.queue[k] == o && o in w.objs && w.live(o)
  {
    k :| 0 <= k < |s.queue| && s.queue[k] == o;
  }

  lemma SlotDone(w: World, s: State, o: Addr, j: nat)
    requires Scanned(w, s, |s.queue|) && o in s.queue && j in w.slots(o)
    ensures o in s.f && At(s.f[o], j) in s.done
  {
    var i :| 0 <= i < |s.queue| && s.queue[i] == o;
    var l :| 0 <= l < |w.slots(o)| && w.slots(o)[l] == j;
    assert SlotsAt(w, o, s.f[o])[l] == At(s.f[o], j);
    assert At(s.f[o], j) in SlotsAt(w, s.queue[i], s.f[s.queue[i]]);
  }

  lemma OnlySlotsDone(sh: Shape, w: World, s: State, o: Addr, i: nat)
    requires Describes(sh, w) && Inv(w, s) && Scanned(w, s, |s.queue|)
    requires o in s.f && i < w.words(o) && i !in w.slots(o)
    ensures At(s.f[o], i) !in s.done
  {
    hide Describes, Inv, Scanned;
    var k := IndexOf(w, s, o);
    QueuedObject(w, s, k);
    StaticBlock(sh, w);
    var x := At(s.f[o], i);
    if x in s.done {
      var n := WhereScanned(w, s, |s.queue|, x);
      QueuedObject(w, s, n);
      var p := s.queue[n];
      var l :| l in w.slots(p) && x == At(s.f[p], l);
      SlotRef(sh, w, p, l);
      OneOwner(sh, w, o, p, At(o, i));
    }
  }

  // Different objects have different copies.
  lemma CopiesDiffer(w: World, s: State, ch: Chain)
    requires Inv(w, s) && Linked(w, s, ch) && ch.Good()
    ensures Injective(s.f)
  {
    hide Inv, Linked, Chain.Good, Chain.Place;
    LinkedSize(w, s, ch);
    forall o, p | o in s.f && p in s.f && s.f[o] == s.f[p] ensures o == p {
      var i := IndexOf(w, s, o);
      var j := IndexOf(w, s, p);
      LinkedAt(w, s, ch, i);
      LinkedAt(w, s, ch, j);
      if i < j { PlacesDiffer(ch, i, j); }
      if j < i { PlacesDiffer(ch, j, i); }
    }
  }

  lemma PlacesDiffer(ch: Chain, i: nat, j: nat)
    requires ch.Good() && i < j < |ch.contents|
    requires ch.contents[i].index < |ch.blocks| && ch.contents[j].index < |ch.blocks|
    ensures ch.Place(ch.contents[i]) != ch.Place(ch.contents[j])
  {
    assert ch.Fits(ch.contents[i]) && ch.Fits(ch.contents[j]);
    assert Chain.Before(ch.contents[i], ch.contents[j]);
  }

  /** The result of a collection: a relocation of exactly the reachable objects. */
  lemma CopyIsIsomorphic(sh: Shape, w: World, s: State, ch: Chain)
    requires Describes(sh, w) && Inv(w, s) && Scanned(w, s, |s.queue|)
    requires Linked(w, s, ch) && ch.Good()
    ensures forall o :: o in s.f <==> Reachable(sh, w.m, w.roots, o)
    ensures Isomorphic(sh, w.m, s.m, s.f)
    ensures forall r :: r in w.roots ==> s.m(r) == Relocate(s.f, w.m(r))
    ensures forall o :: o in w.objs ==> (s.m(o) != Marker <==> !Reachable(sh, w.m, w.roots, o))
  {
    hide Describes, Inv, Scanned, Linked, Chain.Good, CopyAt, Reachable;
    CopiedIsReachable(sh, w, s);
    CopiesDiffer(w, s, ch);
    forall o | o in s.f ensures CopyAt(sh, w.m, s.m, s.f, o) {
      CopyOf(sh, w, s, o);
    }
    forall r | r in w.roots ensures s.m(r) == Relocate(s.f, w.m(r)) {
      RootDone(w, s, r);
    }
    forall o | o in w.objs ensures s.m(o) != Marker <==> o !in s.f {
      MarkedIsCopied(sh, w, s, o);
    }
  }

  lemma WordsIs(sh: Shape, w: World, o: Addr)
    requires Describes(sh, w) && o in w.objs
    ensures w.words(o) == LayoutOf(sh, w.m, o).words
  {
  }

  lemma RootDone(w: World, s: State, r: Addr)
    requires Inv(w, s) && Scanned(w, s, |s.queue|) && r in w.roots
    ensures s.m(r) == Relocate(s.f, w.m(r))
  {
    assert s.src[r] == r && r in s.done && WordOk(w, s, r);
  }

  lemma MarkedIsCopied(sh: Shape, w: World, s: State, o: Addr)
    requires Describes(sh, w) && Inv(w, s) && o in w.objs
    ensures s.m(o) != Marker <==> o !in s.f
  {
    hide Describes;
    HasWords(sh, w, o);
    HasClass(sh, w, o);
    assert w.Owns(o, o);
  }

  lemma HasClass(sh: Shape, w: World, o: Addr)
    requires Describes(sh, w) && o in w.objs
    ensures w.m(o).Ptr?
  {
    assert GoodObject(sh, w.m, w.objs, o);
  }

  // A copy is as well formed as its original.
  lemma CopyIsGood(sh: Shape, m: Mem, m': Mem, objs: set<Addr>, f: map<Addr, Addr>, o: Addr)
    requires GoodObject(sh, m, objs, o) && o in f && At(o, 0) == o
    requires m(o).a in f && CopyAt(sh, m, m', f, o) && CopyAt(sh, m, m', f, m(o).a)
    requires forall i :: i in LayoutOf(sh, m, o).slots && m(At(o, i)).Ptr? ==> m(At(o, i)).a in f
    ensures GoodObject(sh, m', f.Values, f[o])
  {
    hide LayoutOf;
    var c := m(o).a;
    assert At(f[o], 0) == f[o];
    assert m'(f[o]) == Ptr(f[c]);
    assert m'(At(f[c], METHODS)) == m(At(c, METHODS));
    forall i | i in LayoutOf(sh, m', f[o]).slots ensures GoodRef(f.Values, m'(At(f[o], i))) {
      assert GoodRef(objs, m(At(o, i)));
      assert m'(At(f[o], i)) == Relocate(f, m(At(o, i)));
    }
  }

  // The objects of a space.
  ghost function Places(ch: Chain): set<Addr> {
    set i | 0 <= i < |ch.contents| && ch.contents[i].index < |ch.blocks| :: ch.Place(ch.contents[i])
  }

  // The objects in the set s are those the chain holds, and each fits in its chunk.
  ghost predicate Holds(sh: Shape, m: Mem, ch: Chain, s: set<Addr>) {
    && s == Places(ch)
    && forall i :: 0 <= i < |ch.contents| ==>
         ch.contents[i].index < |ch.blocks| && Extent(sh, m, ch.Place(ch.contents[i])) <= ch.contents[i].words
  }

  lemma NewSpaceHolds(sh: Shape, w: World, s: State, ch: Chain)
    requires Describes(sh, w) && Inv(w, s) && Scanned(w, s, |s.queue|) && Linked(w, s, ch)
    ensures Holds(sh, s.m, ch, s.f.Values)
  {
    hide Describes, Inv, Scanned, LayoutOf;
    forall i | 0 <= i < |ch.contents|
      ensures ch.contents[i].index < |ch.blocks|
      ensures Extent(sh, s.m, ch.Place(ch.contents[i])) <= ch.contents[i].words
    {
      QueuedObject(w, s, i);
      CopyOf(sh, w, s, s.queue[i]);
      WordsIs(sh, w, s.queue[i]);
    }
    forall a | a in s.f.Values ensures a in Places(ch) {
      var o :| o in s.f && s.f[o] == a;
      var k := IndexOf(w, s, o);
      assert a == ch.Place(ch.contents[k]);
    }
    forall a | a in Places(ch) ensures a in s.f.Values {
      var i :| 0 <= i < |ch.contents| && ch.contents[i].index < |ch.blocks| && ch.Place(ch.contents[i]) == a;
      assert s.f[s.queue[i]] == a;
    }
  }

  lemma ChunksDisjoint(sh: Shape, m: Mem, ch: Chain, s: set<Addr>, o: Addr, p: Addr)
    requires Holds(sh, m, ch, s) && ch.Good() && o in s && p in s && o != p
    ensures Disjoint(sh, m, o, p)
  {
    hide LayoutOf;
    var i :| 0 <= i < |ch.contents| && ch.contents[i].index < |ch.blocks| && ch.Place(ch.contents[i]) == o;
    var j :| 0 <= j < |ch.contents| && ch.contents[j].index < |ch.blocks| && ch.Place(ch.contents[j]) == p;
    if i < j {
      assert Chain.Before(ch.contents[i], ch.contents[j]);
    } else {
      assert Chain.Before(ch.contents[j], ch.contents[i]);
    }
  }

  // The heap is well formed again after a collection.
  lemma NewHeapIsGood(sh: Shape, w: World, s: State, ch: Chain)
    requires Describes(sh, w) && Inv(w, s) && Scanned(w, s, |s.queue|) && Linked(w, s, ch) && ch.Good()
    ensures GoodHeap(sh, s.m, s.f.Values)
  {
    hide Describes, Inv, Scanned, Linked, LayoutOf, GoodObject, CopyAt, Chain.Good, Holds;
    NewSpaceHolds(sh, w, s, ch);
    forall a | a in s.f.Values ensures GoodObject(sh, s.m, s.f.Values, a) {
      var o :| o in s.f && s.f[o] == a;
      CopiedIsGood(sh, w, s, o);
    }
    forall a, b | a in s.f.Values && b in s.f.Values && a != b ensures Disjoint(sh, s.m, a, b) {
      ChunksDisjoint(sh, s.m, ch, s.f.Values, a, b);
    }
  }

  lemma CopiedIsGood(sh: Shape, w: World, s: State, o: Addr)
    requires Describes(sh, w) && Inv(w, s) && Scanned(w, s, |s.queue|)
    requires o in s.f
    ensures GoodObject(sh, s.m, s.f.Values, s.f[o])
  {
    hide Describes, Inv, Scanned, LayoutOf, GoodObject, CopyAt;
    var k := IndexOf(w, s, o);
    HasClass(sh, w, o);
    assert At(o, 0) == o;
    assert Refers(sh, w.m, o, w.m(o).a) by {
      assert IsSlot(sh, w.m, o, 0) && w.m(At(o, 0)) == Ptr(w.m(o).a);
    }
    CopiedClosed(sh, w, s, o, w.m(o).a);
    CopyOf(sh, w, s, o);
    CopyOf(sh, w, s, w.m(o).a);
    forall i | i in LayoutOf(sh, w.m, o).slots && w.m(At(o, i)).Ptr? ensures w.m(At(o, i)).a in s.f {
      assert IsSlot(sh, w.m, o, i) && w.m(At(o, i)) == Ptr(w.m(At(o, i)).a);
      CopiedClosed(sh, w, s, o, w.m(At(o, i)).a);
    }
    ObjectIsGood(sh, w, o);
    CopyIsGood(sh, w.m, s.m, w.objs, s.f, o);
  }

  lemma ObjectIsGood(sh: Shape, w: World, o: Addr)
    requires Describes(sh, w) && o in w.objs
    ensures GoodObject(sh, w.m, w.objs, o)
  {
  }

  // The words the first n objects of the chain would take up in the new space, counting only
  // those that have been copied.
  ghost function Copied(w: World, ch: Chain, s: set<Addr>, n: nat): nat
    requires n <= |ch.contents| && forall i :: 0 <= i < n ==> ch.contents[i].index < |ch.blocks|
  {
    if n == 0 then 0 else
      Copied(w, ch, s, n - 1) +
      (if ch.Place(ch.contents[n - 1]) in s then Align(w.words(ch.Place(ch.contents[n - 1]))) else 0)
  }

  lemma {:induction false} CopiedBelowTotal(w: World, ch: Chain, s: set<Addr>, n: nat)
    requires n <= |ch.contents|
    requires forall i :: 0 <= i < n ==>
               && ch.contents[i].index < |ch.blocks|
               && Align(w.words(ch.Place(ch.contents[i]))) <= ch.contents[i].words
    ensures Copied(w, ch, s, n) <= Total(ch.contents[..n])
  {
    if n > 0 {
      CopiedBelowTotal(w, ch, s, n - 1);
      TotalSnoc(ch.contents[..n - 1], ch.contents[n - 1]);
      assert ch.contents[..n] == ch.contents[..n - 1] + [ch.contents[n - 1]];
    }
  }

  lemma {:induction false} CopiedOneMore(w: World, ch: Chain, s: set<Addr>, o: Addr, n: nat)
    requires ch.Good() && n <= |ch.contents| && o !in s
    requires forall i :: 0 <= i < |ch.contents| ==> ch.contents[i].index < |ch.blocks|
    ensures Copied(w, ch, s + {o}, n) ==
            Copied(w, ch, s, n) +
            (if exists i :: 0 <= i < n && ch.Place(ch.contents[i]) == o then Align(w.words(o)) else 0)
  {
    if n > 0 {
      CopiedOneMore(w, ch, s, o, n - 1);
      if ch.Place(ch.contents[n - 1]) == o {
        forall i | 0 <= i < n - 1 ensures ch.Place(ch.contents[i]) != o {
          PlacesDiffer(ch, i, n - 1);
        }
      } else if exists i :: 0 <= i < n && ch.Place(ch.contents[i]) == o {
        var i :| 0 <= i < n && ch.Place(ch.contents[i]) == o;
        assert i < n - 1;
      }
    }
  }

  function FirstOf(q: seq<Addr>, n: nat): (r: set<Addr>)
    requires n <= |q|
    ensures forall a :: a in r <==> a in q[..n]
  {
    if n == 0 then {} else
      assert q[..n] == q[..n - 1] + [q[n - 1]];
      FirstOf(q, n - 1) + {q[n - 1]}
  }

  lemma {:induction false} NewTotal(w: World, s: State, before: Chain, ch: Chain, n: nat)
    requires Inv(w, s) && Linked(w, s, ch) && before.Good() && n <= |s.queue|
    requires forall i :: 0 <= i < |before.contents| ==> before.contents[i].index < |before.blocks|
    requires w.objs == Places(before)
    ensures Total(ch.contents[..n]) == Copied(w, before, FirstOf(s.queue, n), |before.contents|)
  {
    hide Inv, Chain.Good, Linked, Places;
    if n == 0 {
      CopiedNone(w, before, |before.contents|);
    } else {
      NewTotal(w, s, before, ch, n - 1);
      var o := s.queue[n - 1];
      QueuedObject(w, s, n - 1);
      LinkedChunk(w, s, ch, n - 1);
      HasPlace(before, o);
      TotalSnoc(ch.contents[..n - 1], ch.contents[n - 1]);
      assert ch.contents[..n] == ch.contents[..n - 1] + [ch.contents[n - 1]];
      CopiedOneMore(w, before, FirstOf(s.queue, n - 1), o, |before.contents|);
    }
  }

  lemma HasPlace(ch: Chain, o: Addr)
    requires forall i :: 0 <= i < |ch.contents| ==> ch.contents[i].index < |ch.blocks|
    requires o in Places(ch)
    ensures exists i :: 0 <= i < |ch.contents| && ch.Place(ch.contents[i]) == o
  {
  }

  lemma LinkedChunk(w: World, s: State, ch: Chain, i: nat)
    requires Linked(w, s, ch) && i < |s.queue|
    ensures |ch.contents| == |s.queue| && ch.contents[i].words == Align(w.words(s.queue[i]))
  {
  }

  lemma CopiedNone(w: World, ch: Chain, n: nat)
    requires n <= |ch.contents| && forall i :: 0 <= i < n ==> ch.contents[i].index < |ch.blocks|
    ensures Copied(w, ch, {}, n) == 0
  {
  }

  // Copying never takes more room than the objects took before.
  lemma NoGrowth(sh: Shape, w: World, s: State, before: Chain, ch: Chain)
    requires Describes(sh, w) && Inv(w, s) && Linked(w, s, ch)
    requires before.Good() && Holds(sh, w.m, before, w.objs)
    ensures Total(ch.contents) <= Total(before.contents)
  {
    hide Describes, Inv, Chain.Good, LayoutOf;
    NewTotal(w, s, before, ch, |s.queue|);
    assert ch.contents[..|s.queue|] == ch.contents;
    assert before.contents[..|before.contents|] == before.contents;
    forall i | 0 <= i < |before.contents|
      ensures Align(w.words(before.Place(before.contents[i]))) <= before.contents[i].words
    {
      WordsIs(sh, w, before.Place(before.contents[i]));
    }
    CopiedBelowTotal(w, before, FirstOf(s.queue, |s.queue|), |before.contents|);
  }

  lemma AdvancedObject(s: State, t: State, k: nat)
    requires Advances(s, t) && k < |s.queue| && s.queue[k] in s.f
    ensures s.queue[k] in t.f && t.f[s.queue[k]] == s.f[s.queue[k]]
    ensures k < |t.queue| && t.queue[k] == s.queue[k]
  {
    assert t.queue[k] == t.queue[..|s.queue|][k];
  }

  lemma AllCopied(w: World, s: State)
    requires Inv(w, s)
    ensures forall o :: o in s.queue ==> o in s.f
  {
  }

  // The slots of the object that is next to be scanned: its class word and its references.
  lemma ObjectSlots(sh: Shape, w: World, s: State, k: nat)
    requires Describes(sh, w) && Inv(w, s) && Scanned(w, s, k) && k < |s.queue|
    ensures var o := s.queue[k];
            && o in s.f && o in w.objs && LayoutOf(sh, w.m, o).words == w.words(o)
            && var refs := SlotAddrs(s.f[o], LayoutOf(sh, w.m, o).slots);
               && SlotsAt(w, o, s.f[o]) == [s.f[o]] + refs
               && Pending(w, s, s.f[o]) && NoDup(refs)
               && forall x :: x in refs ==> Pending(w, s, x) && x !in s.done + [s.f[o]]
  {
    hide Describes, Inv, Pending, Scanned, LayoutOf, NoDup;
    QueuedObject(w, s, k);
    NextSlotsPending(sh, w, s, k);
    var o := s.queue[k];
    var n := s.f[o];
    GoodSlots(sh, w, o);
    WordsIs(sh, w, o);
    assert At(n, 0) == n;
    var refs := SlotAddrs(n, LayoutOf(sh, w.m, o).slots);
    assert SlotsAt(w, o, n) == [n] + refs;
    assert ([n] + refs)[0] == n;
    SplitRefs(w, s, n, refs);
  }

  // Once they have been scavenged, so has the object.
  lemma ObjectScanned(w: World, s: State, t: State, k: nat, n: Addr, refs: seq<Addr>)
    requires Scanned(w, s, k) && k < |s.queue| && Advances(s, t) && Inv(w, t) && s.queue[k] in s.f
    requires n == s.f[s.queue[k]] && SlotsAt(w, s.queue[k], n) == [n] + refs && t.done == s.done + [n] + refs
    ensures Scanned(w, t, k + 1)
  {
    hide Inv, Scanned, Advances;
    AllCopied(w, t);
    assert s.done + [n] + refs == s.done + ([n] + refs);
    ScanStep(w, s, t, k);
  }

  lemma SplitRefs(w: World, s: State, n: Addr, refs: seq<Addr>)
    requires NoDup([n] + refs) && forall x :: x in [n] + refs ==> Pending(w, s, x)
    ensures NoDup(refs)
    ensures forall x :: x in refs ==> Pending(w, s, x) && x !in s.done + [n]
  {
    forall i, j | 0 <= i < j < |refs| ensures refs[i] != refs[j] {
      assert ([n] + refs)[i + 1] == refs[i] && ([n] + refs)[j + 1] == refs[j];
    }
    forall x | x in refs ensures x != n && x in [n] + refs {
      var i :| 0 <= i < |refs| && refs[i] == x;
      assert ([n] + refs)[i + 1] == x && ([n] + refs)[0] == n;
    }
  }

  lemma LinkedAt(w: World, s: State, ch: Chain, k: nat)
    requires Linked(w, s, ch) && k < |ch.contents|
    ensures k < |s.queue| && s.queue[k] in s.f
    ensures ch.contents[k].index < |ch.blocks| && s.f[s.queue[k]] == ch.Place(ch.contents[k])
    ensures ch.contents[k].words == Align(w.words(s.queue[k]))
  {
  }

  lemma LinkedSize(w: World, s: State, ch: Chain)
    requires Linked(w, s, ch)
    ensures |ch.contents| == |s.queue|
  {
  }

  lemma QueueBound(w: World, s: State)
    requires Inv(w, s)
    ensures |s.queue| <= |w.objs|
  {
    FirstOfSize(s.queue, |s.queue|);
    assert s.queue[..|s.queue|] == s.queue;
    SubsetSize(FirstOf(s.queue, |s.queue|), w.objs);
  }

  lemma {:induction false} FirstOfSize(q: seq<Addr>, n: nat)
    requires NoDup(q) && n <= |q|
    ensures |FirstOf(q, n)| == n
  {
    if n > 0 {
      FirstOfSize(q, n - 1);
      assert q[n - 1] !in q[..n - 1];
    }
  }

  ghost function WorldOf(sh: Shape, m: Mem, objs: set<Addr>, roots: seq<Addr>): World {
    World(m, objs, roots,
          o => LayoutOf(sh, m, o).words,
          o => [0] + LayoutOf(sh, m, o).slots,
          o => Reachable(sh, m, roots, o))
  }

  // What the collector expects of the root slots: they are static data, no slot is listed
  // twice, and each holds a reference.
  ghost predicate GoodRoots(m: Mem, objs: set<Addr>, roots: seq<Addr>) {
    NoDup(roots) && forall r :: r in roots ==> r.block == 0 && GoodRef(objs, m(r))
  }

  lemma WorldDescribes(sh: Shape, m: Mem, objs: set<Addr>, roots: seq<Addr>)
    requires GoodHeap(sh, m, objs) && GoodRoots(m, objs, roots)
    requires forall o :: o in objs ==> 0 < o.block
    ensures Describes(sh, WorldOf(sh, m, objs, roots))
  {
    hide GoodHeap, LayoutOf, Reachable;
  }

  lemma PlacesInBlocks(ch: Chain)
    ensures forall o :: o in Places(ch) ==> o.block in ch.Ids()
  {
  }

  // If a root slot holds a pointer, something has been copied by the time the roots are done.
  lemma SomethingCopied(w: World, s: State, ch: Chain, r: Addr)
    requires Inv(w, s) && Linked(w, s, ch) && r in w.roots && w.m(r).Ptr? && r in s.done
    ensures ch.blocks != []
  {
    assert s.src[r] == r && WordOk(w, s, r);
    assert w.m(r).a in s.queue;
  }

  // If no root slot holds one, nothing is ever copied.
  lemma NothingCopied(sh: Shape, w: World, s: State, ch: Chain)
    requires Describes(sh, w) && Inv(w, s) && Linked(w, s, ch) && ch.Settled()
    requires forall r :: r in w.roots ==> !w.m(r).Ptr?
    ensures ch.blocks == []
  {
    hide Describes, Inv, Chain.Good, Reachable;
    CopiedIsLive(sh, w, s);
    AllCopied(w, s);
    NothingReachable(sh, w.m, w.roots);
  }

  lemma NothingReachable(sh: Shape, m: Mem, roots: seq<Addr>)
    requires forall r :: r in roots ==> !m(r).Ptr?
    ensures forall o :: !Reachable(sh, m, roots, o)
  {
  }

  lemma RootsDistinct(sh: Shape, w: World)
    requires Describes(sh, w)
    ensures NoDup(w.roots)
  {
  }

  // When the roots are done in three parts, the part b is still pending after the part a.
  lemma PartsPending(w: World, s: State, a: seq<Addr>, b: seq<Addr>, c: seq<Addr>)
    requires NoDup(w.roots) && w.roots == a + b + c && s.done == []
    requires forall x :: x in w.roots ==> Pending(w, s, x)
    ensures NoDup(b) && forall x :: x in b ==> Pending(w, s, x) && x !in s.done + a
  {
    hide Pending;
    forall i, j | 0 <= i < j < |b| ensures b[i] != b[j] {
      assert w.roots[|a| + i] == b[i] && w.roots[|a| + j] == b[j];
    }
    forall x | x in b ensures x in w.roots && x !in a {
      var i :| 0 <= i < |b| && b[i] == x;
      assert w.roots[|a| + i] == x;
      assert forall j :: 0 <= j < |a| ==> w.roots[j] == a[j];
    }
  }

  // The slots that a collection has to scavenge, given where the copies are.
  ghost predicate LiveSlot(sh: Shape, m: Mem, roots: seq<Addr>, f: map<Addr, Addr>, x: Addr) {
    x in roots || exists o, i :: o in f && IsSlot(sh, m, o, i) && x == At(f[o], i)
  }

  lemma EachSlotOnce(sh: Shape, w: World, s: State)
    requires Describes(sh, w) && Inv(w, s) && Scanned(w, s, |s.queue|)
    ensures NoDup(s.done)
    ensures forall x :: x in s.done <==> LiveSlot(sh, w.m, w.roots, s.f, x)
  {
    hide Describes, Inv, Scanned, LayoutOf;
    DoneRoots(w, s);
    forall x | x in s.done && x !in w.roots ensures LiveSlot(sh, w.m, w.roots, s.f, x) {
      var i := WhereScanned(w, s, |s.queue|, x);
      var o := s.queue[i];
      QueuedObject(w, s, i);
      GoodSlots(sh, w, o);
      var j :| j in w.slots(o) && x == At(s.f[o], j);
      assert IsSlot(sh, w.m, o, j);
    }
    forall o, i | o in s.f && IsSlot(sh, w.m, o, i) ensures At(s.f[o], i) in s.done {
      var k := IndexOf(w, s, o);
      GoodSlots(sh, w, o);
      assert w.slots(o)[0] == 0;
      SlotDone(w, s, o, i);
    }
  }

  lemma DoneRoots(w: World, s: State)
    requires Inv(w, s) && Scanned(w, s, |s.queue|)
    ensures NoDup(s.done) && forall r :: r in w.roots ==> r in s.done
  {
  }

  /** What a finished scan amounts to. */
  lemma Outcome(sh: Shape, w: World, s: State, ch: Chain)
    requires Describes(sh, w) && Inv(w, s) && Scanned(w, s, |s.queue|)
    requires Linked(w, s, ch) && ch.Good()
    ensures forall o :: o in s.f <==> Reachable(sh, w.m, w.roots, o)
    ensures Isomorphic(sh, w.m, s.m, s.f)
    ensures forall r :: r in w.roots ==> s.m(r) == Relocate(s.f, w.m(r))
    ensures forall o :: o in w.objs ==> (s.m(o) != Marker <==> !Reachable(sh, w.m, w.roots, o))
    ensures NoDup(s.done) && forall x :: x in s.done <==> LiveSlot(sh, w.m, w.roots, s.f, x)
    ensures s.f.Values == Places(ch) && Holds(sh, s.m, ch, Places(ch)) && GoodHeap(sh, s.m, Places(ch))
  {
    hide Describes, Inv, Scanned, Linked, Chain.Good, Reachable, Isomorphic, GoodHeap, LiveSlot;
    CopyIsIsomorphic(sh, w, s, ch);
    EachSlotOnce(sh, w, s);
    NewHeapIsGood(sh, w, s, ch);
    NewSpaceHolds(sh, w, s, ch);
  }
}
