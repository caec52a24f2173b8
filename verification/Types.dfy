/**
 Types of the dispatcher: classes, singletons, and the types a cache entry is narrowed to.
 */
module Types {
  import opened Wrappers
  import opened Linearization

  // An object is its identity and its class.
  datatype Obj = Obj(id: nat, cls: Class)

  datatype Type =
    | Singleton(obj: Obj)
    | ClassType(cls: Class)
    | NoneOf(base: Type, exclude: seq<Type>)
  {
    // Specializers are classes and singletons.
    predicate Plain() { !NoneOf? }
  }

  /** A fixed class hierarchy, given by the precedence list of every class. */
  datatype World = World(cpl: seq<seq<Class>>) {
    ghost predicate Good() {
      && (forall c, d :: 0 <= c < |cpl| && d in cpl[c] ==> d <= c)
      && (forall c :: 0 <= c < |cpl| ==> NoDup(cpl[c]) && c in cpl[c])
      && (forall c, d, e :: 0 <= c < |cpl| && d in cpl[c] && e in cpl[d] ==> e in cpl[c])
      && (forall c, i, j :: 0 <= c < |cpl| && 0 <= i < |cpl[c]| && 0 <= j < |cpl[c]| ==> InOrder(c, i, j))
    }

    // A class comes before its superclasses in the list of c.
    predicate InOrder(c: Class, i: nat, j: nat)
      requires c < |cpl| && i < |cpl[c]| && j < |cpl[c]|
    {
      cpl[c][i] < |cpl| && cpl[c][j] in cpl[cpl[c][i]] ==> i <= j
    }

    // Class c is d or inherits from it.
    predicate Inherits(c: Class, d: Class)
      requires c < |cpl|
    {
      d in cpl[c]
    }

    predicate Has(o: Obj) { o.cls < |cpl| }

    // The classes below c, without c itself.
    function Subclasses(c: Class): set<Class> {
      set d | 0 <= d < |cpl| && d != c && c in cpl[d]
    }

    predicate Covers(t: Type)
    {
      match t
      case Singleton(o) => Has(o)
      case ClassType(c) => c < |cpl|
      case NoneOf(b, ex) => Covers(b) && forall e :: e in ex ==> Covers(e)
    }
  }

  predicate InstanceP(w: World, o: Obj, t: Type)
    requires w.Has(o)
  {
    match t
    case Singleton(x) => o == x
    case ClassType(c) => w.Inherits(o.cls, c)
    case NoneOf(b, ex) => InstanceP(w, o, b) && forall e :: e in ex ==> !InstanceP(w, o, e)
  }

  // Is t known to be a subtype of the specializer s? On the types of a narrowed cache entry
  // this is a safe approximation.
  predicate SubtypeP(w: World, t: Type, s: Type)
    requires w.Covers(t) && s.Plain()
  {
    match t
    case Singleton(x) => InstanceP(w, x, s)
    case ClassType(c) => s.ClassType? && w.Inherits(c, s.cls)
    case NoneOf(b, _) => SubtypeP(w, b, s)
  }

  // Might some object be an instance of both?
  predicate OverlapP(w: World, t: Type, s: Type)
    requires w.Covers(t) && w.Covers(s) && s.Plain()
  {
    match t
    case Singleton(x) => InstanceP(w, x, s)
    case ClassType(c) =>
      (match s
       case Singleton(x) => InstanceP(w, x, t)
       case ClassType(d) => w.Inherits(c, d) || exists e :: e in w.Subclasses(c) && w.Inherits(e, d))
    case NoneOf(b, _) => OverlapP(w, b, s)
  }

  // The type t without the instances of `exclude`.
  function RestrictType(exclude: Type, t: Type): Type {
    if t.NoneOf? then NoneOf(t.base, [exclude] + t.exclude) else NoneOf(t, [exclude])
  }

  lemma {:induction false} SubtypeSound(w: World, t: Type, s: Type, o: Obj)
    requires w.Good() && w.Covers(t) && s.Plain() && w.Has(o)
    requires SubtypeP(w, t, s) && InstanceP(w, o, t)
    ensures InstanceP(w, o, s)
  {
    if t.NoneOf? {
      SubtypeSound(w, t.base, s, o);
    }
  }

  /** Between specializers the subtype test is exact: it holds if and only if all instances of the
      one are instances of the other. */
  lemma SubtypeExactly(w: World, t: Type, s: Type)
    requires w.Good() && t.Plain() && s.Plain() && w.Covers(t) && w.Covers(s)
    ensures SubtypeP(w, t, s) <==> forall o: Obj :: w.Has(o) && InstanceP(w, o, t) ==> InstanceP(w, o, s)
  {
    if SubtypeP(w, t, s) {
      forall o: Obj | w.Has(o) && InstanceP(w, o, t) ensures InstanceP(w, o, s) { SubtypeSound(w, t, s, o); }
    } else {
      var x := if t.Singleton? then t.obj else Obj(if s.Singleton? then s.obj.id + 1 else 0, t.cls);
      assert w.Has(x) && InstanceP(w, x, t) && !InstanceP(w, x, s);
    }
  }

  /** So is the overlap test: it holds if and only if there can be a common instance. */
  lemma OverlapExactly(w: World, t: Type, s: Type)
    requires w.Good() && t.Plain() && s.Plain() && w.Covers(t) && w.Covers(s)
    ensures OverlapP(w, t, s) <==> exists o: Obj :: w.Has(o) && InstanceP(w, o, t) && InstanceP(w, o, s)
  {
    if o: Obj :| w.Has(o) && InstanceP(w, o, t) && InstanceP(w, o, s) {
      OverlapComplete(w, t, s, o);
    }
    if OverlapP(w, t, s) { var _ := CommonInstance(w, t, s); }
  }

  lemma CommonInstance(w: World, t: Type, s: Type) returns (o: Obj)
    requires w.Good() && t.Plain() && s.Plain() && w.Covers(t) && w.Covers(s) && OverlapP(w, t, s)
    ensures w.Has(o) && InstanceP(w, o, t) && InstanceP(w, o, s)
  {
    if t.Singleton? {
      o := t.obj;
    } else if s.Singleton? {
      o := s.obj;
    } else {
      var e: Class :| e < |w.cpl| && w.Inherits(e, t.cls) && w.Inherits(e, s.cls);
      o := Obj(0, e);
    }
  }

  // An object is an instance of its class and of what its precedence list has.
  lemma InstanceExactly(w: World, o: Obj, c: Class)
    requires w.Has(o)
    ensures InstanceP(w, o, ClassType(c)) <==> c in w.cpl[o.cls]
    ensures InstanceP(w, o, Singleton(o)) && forall x: Obj :: InstanceP(w, o, Singleton(x)) ==> x == o
  {
  }

  lemma {:induction false} OverlapComplete(w: World, t: Type, s: Type, o: Obj)
    requires w.Good() && w.Covers(t) && w.Covers(s) && s.Plain() && w.Has(o)
    requires InstanceP(w, o, t) && InstanceP(w, o, s)
    ensures OverlapP(w, t, s)
  {
    match t
    case Singleton(_) =>
    case ClassType(c) =>
      if s.ClassType? && o.cls != c {
        assert o.cls in w.Subclasses(c) && w.Inherits(o.cls, s.cls);
      }
    case NoneOf(b, _) => OverlapComplete(w, b, s, o);
  }

  lemma RestrictTypeMeaning(w: World, exclude: Type, t: Type, o: Obj)
    requires w.Has(o)
    ensures InstanceP(w, o, RestrictType(exclude, t)) <==> InstanceP(w, o, t) && !InstanceP(w, o, exclude)
  {
    if t.NoneOf? {
      var ex := [exclude] + t.exclude;
      assert forall e :: e in ex <==> e == exclude || e in t.exclude;
    } else {
      assert exclude in [exclude];
    }
  }

  // What is known of the order of each class; one that was left without a list is on its own.
  function Known(cpl: seq<Option<seq<Class>>>): (r: seq<seq<Class>>)
    ensures |r| == |cpl|
  {
    seq(|cpl|, c requires 0 <= c < |cpl| => if cpl[c].Some? then cpl[c].value else [c])
  }

  /** The precedence lists of a class table make a good world, also when some class was left
      without one: no class with a list is below it. */
  lemma TableListsGood(h: Hierarchy, cpl: seq<Option<seq<Class>>>)
    requires h.Valid() && |cpl| <= |h.supers|
    requires forall c :: 0 <= c < |cpl| ==> IsPrecedenceList(h, c, cpl[c])
    ensures World(Known(cpl)).Good()
  {
    hide IsPrecedenceList;
    var lists := Known(cpl);
    forall c: Class | c < |cpl| && cpl[c].Some? ensures Consistent(h, c, lists[c]) {
      PrecedenceListCorrect(h, c, cpl[c]);
    }
    forall c: Class, d | c < |cpl| && d in lists[c] ensures d <= c && Ancestor(h, c, d) && (d != c ==> cpl[c].Some? && cpl[d].Some?) {
      if d != c {
        AncestorBelow(h, c, d);
        NoListBelow(h, c, d, cpl[c], cpl[d]);
      }
    }
    forall c: Class, d, e | c < |cpl| && d in lists[c] && e in lists[d] ensures e in lists[c] {
      if d != c { AncestorChain(h, c, d, e); }
    }
    forall c: Class, i, j | c < |cpl| && 0 <= i < |lists[c]| && 0 <= j < |lists[c]|
      ensures World(lists).InOrder(c, i, j)
    {
      if cpl[c].Some? && lists[c][i] < |cpl| && lists[c][j] in lists[lists[c][i]] {
        AncestorOrdered(h, c, lists[c], i, j);
      }
    }
  }

  // The case that every class has its list.
  lemma PrecedenceListsGood(h: Hierarchy, cpl: seq<seq<Class>>)
    requires h.Valid() && |cpl| <= |h.supers|
    requires forall c :: 0 <= c < |cpl| ==> IsPrecedenceList(h, c, Some(cpl[c]))
    ensures World(cpl).Good()
  {
    hide IsPrecedenceList, World.Good;
    var lists := seq(|cpl|, c requires 0 <= c < |cpl| => Some(cpl[c]));
    TableListsGood(h, lists);
    assert Known(lists) == cpl;
  }

  // In a consistent list every class comes before all its superclasses.
  lemma {:induction false} AncestorOrdered(h: Hierarchy, c: Class, l: seq<Class>, i: nat, j: nat)
    requires h.Valid() && h.Has(c) && Consistent(h, c, l) && i < |l| && j < |l|
    requires h.Has(l[i]) && Ancestor(h, l[i], l[j])
    ensures i <= j
    decreases l[i]
  {
    if l[i] != l[j] {
      var s :| s in h.supers[l[i]] && Ancestor(h, s, l[j]);
      assert Ancestor(h, c, l[i]);
      assert Demands(h, l[i], l[i], s) && Precedes(h, c, l[i], s);
      AncestorTransitive(h, c, l[i], s);
      var k :| 0 <= k < |l| && l[k] == s;
      AncestorOrdered(h, c, l, k, j);
    }
  }
}
