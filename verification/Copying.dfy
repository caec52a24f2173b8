/**
 The invariant of a collection in progress, on values.

 `src` maps every live word of the new world (the root slots and the words of the copies)
 to the word of the old world it stands for, and `done` lists the slots scavenged so far.
 A slot in `done` already points to the copy; any other live word still equals its original.
 */
module Copying {
  import opened Wrappers
  import opened Memory

  datatype State = State(
    m: Mem,                    // memory now
    f: map<Addr, Addr>,        // where the copies are
    queue: seq<Addr>,          // the copied objects, in the order they were copied
    src: map<Addr, Addr>,
    done: seq<Addr>)

  // What does not change during a collection: the memory it started with, the objects, the
  // root slots, the size of each object and the offsets of its slots, and which objects are
  // live.
  datatype World = World(m: Mem, objs: set<Addr>, roots: seq<Addr>,
                         words: Addr -> nat, slots: Addr -> seq<nat>, live: Addr -> bool) {
    // Word x is one of those that make up the object at o.
    predicate Owns(o: Addr, x: Addr) { Within(x, o, Align(words(o))) }

    ghost predicate Good() {
      && (forall o :: o in objs ==> 1 <= words(o))
      && (forall o, p, x :: o in objs && p in objs && Owns(o, x) && Owns(p, x) ==> o == p)
    }
  }

  ghost predicate Inv(w: World, s: State) {
    && Queued(w, s)
    && OldWorld(w, s)
    && Mapped(w, s)
    && Tight(w, s)
    && NewWorld(w, s)
    && NoDup(s.done)
  }

  // Exactly the queued objects are copied, each once, and all of them are live.
  ghost predicate Queued(w: World, s: State) {
    && NoDup(s.queue)
    && (forall o :: o in s.queue <==> o in s.f)
    && (forall o :: o in s.f ==> o in w.objs && w.live(o))
  }

  // A copied object holds a forwarding pointer and is otherwise intact; any other is intact.
  ghost predicate OldWorld(w: World, s: State) {
    && (forall o :: o in s.f ==> s.m(o) == Marker && s.m(At(o, 1)) == Ptr(s.f[o]))
    && (forall o, x :: o in w.objs && w.Owns(o, x) ==>
          s.m(x) == w.m(x) || (o in s.f && (x == o || x == At(o, 1))))
  }

  // Every live word is accounted for.
  ghost predicate Mapped(w: World, s: State) {
    && (forall r :: r in w.roots ==> r in s.src && s.src[r] == r)
    && (forall o, i :: o in s.f && 0 <= i < w.words(o) ==>
          At(s.f[o], i) in s.src && s.src[At(s.f[o], i)] == At(o, i))
    && (forall x, o :: x in s.src && o in w.objs ==> x.block != o.block)
    && (forall x :: x in s.done ==> x in s.src)
  }

  // Every word accounted for is a root slot or part of a copy.
  ghost predicate Tight(w: World, s: State) {
    forall x :: x in s.src ==> x in w.roots || exists o :: o in s.f && Within(x, s.f[o], w.words(o))
  }

  ghost predicate NewWorld(w: World, s: State) {
    forall x :: x in s.src ==> WordOk(w, s, x)
  }

  ghost predicate WordOk(w: World, s: State, x: Addr)
    requires x in s.src
  {
    var v := w.m(s.src[x]);
    if x in s.done then (v.Ptr? ==> v.a in s.f) && s.m(x) == Relocate(s.f, v)
    else s.m(x) == v
  }

  // Nothing that was known in state s is forgotten in state t.
  ghost predicate Advances(s: State, t: State) {
    && (forall o :: o in s.f ==> o in t.f && t.f[o] == s.f[o])
    && (forall x :: x in s.src ==> x in t.src && t.src[x] == s.src[x])
    && |s.queue| <= |t.queue| && t.queue[..|s.queue|] == s.queue
  }

  // x is a live slot that has not been scavenged yet.
  ghost predicate Pending(w: World, s: State, x: Addr) {
    && x in s.src && x !in s.done
    && GoodRef(w.objs, w.m(s.src[x]))
    && (w.m(s.src[x]).Ptr? ==> w.live(w.m(s.src[x]).a))
  }

  // The state after the slot x has been made to point to the copy of what it points to.
  ghost function Forwarded(s: State, x: Addr): State
    requires x in s.src
  {
    s.(m := if s.m(x).Ptr? then Store(s.m, x, Relocate(s.f, s.m(x))) else s.m, done := s.done + [x])
  }

  lemma ForwardKeepsInv(w: World, s: State, x: Addr)
    requires Inv(w, s) && Pending(w, s, x)
    requires s.m(x).Ptr? ==> s.m(x).a in s.f
    ensures Inv(w, Forwarded(s, x))
  {
    hide OldWorld, NewWorld, Store, Relocate;
    ForwardKeepsOldWorld(w, s, x);
    ForwardKeepsNewWorld(w, s, x);
  }

  lemma TransportAdvances(w: World, s: State, o: Addr, p: Addr)
    requires Tight(w, s) && Fresh(w, s, p, w.words(o)) && o !in s.f
    ensures Advances(s, Transported(w, s, o, p))
  {
  }

  lemma AdvancesReflexive(s: State)
    ensures Advances(s, s)
  {
  }

  // In the middle of a list of slots, the rest of the list is still to be done.
  lemma NotYetDone(w: World, s: State, refs: seq<Addr>, i: nat)
    requires NoDup(refs) && i <= |refs| && forall x :: x in refs ==> Pending(w, s, x)
    ensures forall x :: x in refs[i..] ==> Pending(w, s, x) && x !in s.done + refs[..i]
  {
  }

  lemma AdvancesTransitive(s: State, t: State, u: State)
    requires Advances(s, t) && Advances(t, u)
    ensures Advances(s, u)
  {
    assert u.queue[..|s.queue|] == u.queue[..|t.queue|][..|s.queue|];
  }

  lemma ForwardKeepsOldWorld(w: World, s: State, x: Addr)
    requires x in s.src && OldWorld(w, s)
    requires forall o :: o in s.f ==> o in w.objs
    requires forall o :: o in w.objs ==> x.block != o.block
    ensures OldWorld(w, Forwarded(s, x))
  {
    var t := Forwarded(s, x);
    forall o, y | o in w.objs && w.Owns(o, y)
      ensures t.m(y) == w.m(y) || (o in t.f && (y == o || y == At(o, 1)))
    {
      assert y != x;
    }
  }

  lemma ForwardKeepsNewWorld(w: World, s: State, x: Addr)
    requires x in s.src && x !in s.done && NewWorld(w, s)
    requires s.m(x).Ptr? ==> s.m(x).a in s.f
    ensures NewWorld(w, Forwarded(s, x))
  {
    var t := Forwarded(s, x);
    forall y | y in t.src ensures WordOk(w, t, y) {
      assert WordOk(w, s, y);
      assert y in t.done <==> y in s.done || y == x;
    }
  }

  // The part of `src` that a copy at p of the object at o adds.
  function Region(o: Addr, p: Addr, n: nat): (r: map<Addr, Addr>)
    ensures forall x :: x in r <==> Within(x, p, n)
  {
    var words := set i | 0 <= i < n :: At(p, i);
    assert forall x :: Within(x, p, n) ==> x == At(p, x.off - p.off) && x in words;
    map x | x in words :: At(o, x.off - p.off)
  }

  // The state after the object at o has been copied to p and overwritten with a forwarding
  // pointer.
  ghost function Transported(w: World, s: State, o: Addr, p: Addr): State {
    State(Store(Store(Copy(s.m, o, p, w.words(o)), o, Marker), At(o, 1), Ptr(p)),
          s.f[o := p], s.queue + [o], s.src + Region(o, p, w.words(o)), s.done)
  }

  // The n words at p are used by nobody yet.
  ghost predicate Fresh(w: World, s: State, p: Addr, n: nat) {
    && (forall o :: o in w.objs ==> o.block != p.block)
    && (forall x :: x in s.src ==> !Within(x, p, n))
  }

  lemma TransportKeepsInv(w: World, s: State, o: Addr, p: Addr)
    requires w.Good() && Inv(w, s)
    requires o in w.objs && o !in s.f && w.live(o)
    requires Fresh(w, s, p, w.words(o))
    ensures Inv(w, Transported(w, s, o, p))
  {
    hide OldWorld, NewWorld, Mapped, Tight, Fresh, World.Good;
    TransportKeepsOldWorld(w, s, o, p);
    TransportKeepsMapped(w, s, o, p);
    TransportKeepsTight(w, s, o, p);
    TransportKeepsNewWorld(w, s, o, p);
  }

  lemma TransportKeepsOldWorld(w: World, s: State, o: Addr, p: Addr)
    requires w.Good() && OldWorld(w, s)
    requires forall q :: q in s.f ==> q in w.objs
    requires o in w.objs && o !in s.f
    requires Fresh(w, s, p, w.words(o))
    ensures OldWorld(w, Transported(w, s, o, p))
  {
    hide Region, World.Owns, World.Good, Store, Copy;
    var t := Transported(w, s, o, p);
    forall q, x | q in w.objs && w.Owns(q, x)
      ensures t.m(x) == w.m(x) || (q in t.f && (x == q || x == At(q, 1)))
    {
      assert s.m(x) == w.m(x) || (q in s.f && (x == q || x == At(q, 1)));
      assert x.block == q.block by { OwnsBlock(w, q, x); }
      if q != o { OtherWord(w, s, o, p, q, x); } else { OwnWord(w, s, o, p, x); }
    }
    forall q | q in t.f ensures t.m(q) == Marker && t.m(At(q, 1)) == Ptr(t.f[q]) {
      if q != o {
        OwnsHeader(w, q);
        OtherWord(w, s, o, p, q, q);
        OtherWord(w, s, o, p, q, At(q, 1));
      } else {
        ForwardingPointer(w, s, o, p);
      }
    }
  }

  lemma OwnsHeader(w: World, o: Addr)
    requires w.Good() && o in w.objs
    ensures w.Owns(o, o) && w.Owns(o, At(o, 1))
  {
  }

  lemma OwnsBlock(w: World, o: Addr, x: Addr)
    requires w.Owns(o, x)
    ensures x.block == o.block
  {
  }

  lemma ForwardingPointer(w: World, s: State, o: Addr, p: Addr)
    ensures Transported(w, s, o, p).m(o) == Marker && Transported(w, s, o, p).m(At(o, 1)) == Ptr(p)
  {
  }

  // A word of the copied object.
  lemma OwnWord(w: World, s: State, o: Addr, p: Addr, x: Addr)
    requires x.block != p.block
    ensures x == o || x == At(o, 1) || Transported(w, s, o, p).m(x) == s.m(x)
  {
  }

  // A word of another object.
  lemma OtherWord(w: World, s: State, o: Addr, p: Addr, q: Addr, x: Addr)
    requires w.Good() && o in w.objs && q in w.objs && q != o && w.Owns(q, x) && x.block != p.block
    ensures Transported(w, s, o, p).m(x) == s.m(x)
  {
    OwnsHeader(w, o);
  }

  lemma TransportKeepsMapped(w: World, s: State, o: Addr, p: Addr)
    requires Mapped(w, s) && o !in s.f
    requires Fresh(w, s, p, w.words(o))
    ensures Mapped(w, Transported(w, s, o, p))
  {
    hide Region, Store, Copy, Within;
    var t, r := Transported(w, s, o, p), Region(o, p, w.words(o));
    forall q, i: nat | q in t.f && i < w.words(q)
      ensures At(t.f[q], i) in t.src && t.src[At(t.f[q], i)] == At(q, i)
    {
      var x := At(t.f[q], i);
      if q == o {
        RegionAt(o, p, w.words(o), i);
      } else {
        assert x in s.src && x !in r;
      }
    }
    assert forall x, q :: x in t.src && q in w.objs ==> x.block != q.block by { RegionBlock(o, p, w.words(o)); }
  }

  lemma RegionAt(o: Addr, p: Addr, n: nat, i: nat)
    requires i < n
    ensures At(p, i) in Region(o, p, n) && Region(o, p, n)[At(p, i)] == At(o, i)
  {
  }

  lemma RegionBlock(o: Addr, p: Addr, n: nat)
    ensures forall x :: x in Region(o, p, n) ==> x.block == p.block
  {
  }

  lemma TransportKeepsTight(w: World, s: State, o: Addr, p: Addr)
    requires Tight(w, s) && o !in s.f
    ensures Tight(w, Transported(w, s, o, p))
  {
    var t, r := Transported(w, s, o, p), Region(o, p, w.words(o));
    forall x | x in t.src
      ensures x in w.roots || exists q :: q in t.f && Within(x, t.f[q], w.words(q))
    {
      if x in r {
        assert Within(x, t.f[o], w.words(o));
      } else if x !in w.roots {
        var q :| q in s.f && Within(x, s.f[q], w.words(q));
        assert q in t.f && t.f[q] == s.f[q];
      }
    }
  }

  lemma TransportKeepsNewWorld(w: World, s: State, o: Addr, p: Addr)
    requires Mapped(w, s) && OldWorld(w, s) && NewWorld(w, s)
    requires o in w.objs && o !in s.f
    requires Fresh(w, s, p, w.words(o))
    ensures NewWorld(w, Transported(w, s, o, p))
  {
    var t := Transported(w, s, o, p);
    forall x | x in t.src ensures WordOk(w, t, x) {
      if x in s.src {
        OldWordStaysOk(w, s, o, p, x);
      } else {
        NewWordOk(w, s, o, p, x);
      }
    }
  }

  lemma OldWordStaysOk(w: World, s: State, o: Addr, p: Addr, x: Addr)
    requires x in s.src && WordOk(w, s, x)
    requires x.block != o.block && o !in s.f && !Within(x, p, w.words(o))
    ensures x in Transported(w, s, o, p).src && WordOk(w, Transported(w, s, o, p), x)
  {
    assert Transported(w, s, o, p).m(x) == s.m(x);
  }

  lemma NewWordOk(w: World, s: State, o: Addr, p: Addr, x: Addr)
    requires OldWorld(w, s) && o in w.objs && o !in s.f && o.block != p.block
    requires Within(x, p, w.words(o)) && x !in s.done
    ensures x in Transported(w, s, o, p).src && WordOk(w, Transported(w, s, o, p), x)
  {
    var y := At(o, x.off - p.off);
    assert Region(o, p, w.words(o))[x] == y;
    assert w.Owns(o, y);
    assert Transported(w, s, o, p).m(x) == s.m(y);
  }
}
