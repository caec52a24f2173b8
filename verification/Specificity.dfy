/**
 Which of two applicable methods is more specific.

 For one argument, the specializers that apply to it are ranked: a singleton comes first, then
 the classes in the order of the precedence list of the argument's class. One method is more
 specific than another if it ranks at least as high for every argument and higher for one.
 */
module Specificity {
  import opened Linearization
  import opened Types

  datatype Method = Method(id: nat, specs: seq<Type>)

  datatype Comparison = MoreSpecific | LessSpecific | Identical | Ambiguous

  // Every specializer of the list applies to the corresponding argument.
  predicate Applies(w: World, specs: seq<Type>, args: seq<Obj>)
    requires forall o :: o in args ==> w.Has(o)
  {
    |specs| <= |args| && forall i :: 0 <= i < |specs| ==> InstanceP(w, args[i], specs[i])
  }

  predicate PlainSpecs(w: World, specs: seq<Type>) {
    forall s :: s in specs ==> s.Plain() && w.Covers(s)
  }

  function Position(l: seq<Class>, c: Class): (i: nat)
    requires c in l
    ensures i < |l| && l[i] == c && forall j :: 0 <= j < i ==> l[j] != c
  {
    if l[0] == c then 0 else 1 + Position(l[1..], c)
  }

  function Rank(w: World, o: Obj, s: Type): nat
    requires w.Has(o) && s.Plain() && InstanceP(w, o, s)
  {
    if s.Singleton? then 0 else 1 + Position(w.cpl[o.cls], s.cls)
  }

  function Ranks(w: World, args: seq<Obj>, specs: seq<Type>): (r: seq<nat>)
    requires forall o :: o in args ==> w.Has(o)
    requires PlainSpecs(w, specs) && Applies(w, specs, args)
    ensures |r| == |specs| && forall i :: 0 <= i < |r| ==> r[i] == Rank(w, args[i], specs[i])
  {
    seq(|specs|, i requires 0 <= i < |specs| => Rank(w, args[i], specs[i]))
  }

  ghost predicate AtMost(r: seq<nat>, q: seq<nat>)
    requires |r| == |q|
  {
    forall i :: 0 <= i < |r| ==> r[i] <= q[i]
  }

  // The product order on ranks.
  ghost function CompareRanks(r: seq<nat>, q: seq<nat>): Comparison
    requires |r| == |q|
  {
    if r == q then Identical
    else if AtMost(r, q) then MoreSpecific
    else if AtMost(q, r) then LessSpecific
    else Ambiguous
  }

  lemma CompareSwapped(r: seq<nat>, q: seq<nat>)
    requires |r| == |q|
    ensures CompareRanks(r, q) == MoreSpecific <==> CompareRanks(q, r) == LessSpecific
    ensures CompareRanks(r, q) == MoreSpecific ==> CompareRanks(q, r) != MoreSpecific
  {
    if AtMost(r, q) && AtMost(q, r) {
      assert r == q;
    }
  }

  lemma CompareTransitive(r: seq<nat>, q: seq<nat>, p: seq<nat>)
    requires |r| == |q| == |p|
    requires CompareRanks(r, q) == MoreSpecific && CompareRanks(q, p) == MoreSpecific
    ensures CompareRanks(r, p) == MoreSpecific
  {
    assert AtMost(r, p);
    var i :| 0 <= i < |r| && r[i] != q[i];
    assert r[i] < q[i] <= p[i];
  }

  // What the two subtype tests, and failing these a look at the precedence list, find out
  // about two specializers of one argument.
  lemma SubtypeIsRank(w: World, o: Obj, s: Type, t: Type)
    requires w.Good() && w.Has(o) && s.Plain() && t.Plain() && w.Covers(s) && w.Covers(t)
    requires InstanceP(w, o, s) && InstanceP(w, o, t)
    ensures SubtypeP(w, s, t) ==> Rank(w, o, s) <= Rank(w, o, t)
    ensures Rank(w, o, s) == Rank(w, o, t) ==> s == t && SubtypeP(w, s, t)
    ensures !SubtypeP(w, s, t) && !SubtypeP(w, t, s) ==> s.ClassType? && t.ClassType?
  {
    if s.ClassType? && t.ClassType? {
      var l := w.cpl[o.cls];
      var i, j := Position(l, s.cls), Position(l, t.cls);
      assert w.InOrder(o.cls, i, j);
      assert s.cls in w.cpl[s.cls];
    }
  }

  // The specializer that the scan of the precedence list meets first.
  method FirstInList(l: seq<Class>, c: Class, d: Class) returns (first: bool)
    requires c in l && d in l && c != d
    ensures first <==> Position(l, c) < Position(l, d)
  {
    var i := 0;
    while i < |l|
      invariant i <= Position(l, c) && i <= Position(l, d)
    {
      if l[i] == c {
        return true;
      }
      if l[i] == d {
        return false;
      }
      i := i + 1;
    }
    // Both classes apply to the argument, so both are in its list.
    assert false;
  }

  /** Compares two applicable methods. */
  method CompareMethods(w: World, meth1: Method, meth2: Method, args: seq<Obj>) returns (r: Comparison)
    requires w.Good() && forall o :: o in args ==> w.Has(o)
    requires |meth1.specs| == |meth2.specs|
    requires PlainSpecs(w, meth1.specs) && Applies(w, meth1.specs, args)
    requires PlainSpecs(w, meth2.specs) && Applies(w, meth2.specs, args)
    ensures r == CompareRanks(Ranks(w, args, meth1.specs), Ranks(w, args, meth2.specs))
  {
    hide World.Good, SubtypeP, Position;
    ghost var r1, r2 := Ranks(w, args, meth1.specs), Ranks(w, args, meth2.specs);
    var meth1First, meth2First := false, false;
    var i := 0;
    while i < |meth1.specs|
      invariant i <= |meth1.specs| && !(meth1First && meth2First)
      invariant meth1First <==> exists j :: 0 <= j < i && r1[j] < r2[j]
      invariant meth2First <==> exists j :: 0 <= j < i && r2[j] < r1[j]
    {
      var spec1, spec2 := meth1.specs[i], meth2.specs[i];
      SubtypeIsRank(w, args[i], spec1, spec2);
      SubtypeIsRank(w, args[i], spec2, spec1);
      var spec1MoreSpecific := SubtypeP(w, spec1, spec2);
      var spec2MoreSpecific := SubtypeP(w, spec2, spec1);
      if spec1MoreSpecific && spec2MoreSpecific {
        // The two specializers are identical.
      } else if spec1MoreSpecific {
        if meth2First {
          return Ambiguous;
        }
        meth1First := true;
      } else if spec2MoreSpecific {
        if meth1First {
          return Ambiguous;
        }
        meth2First := true;
      } else if spec1.ClassType? && spec2.ClassType? {
        var first := FirstInList(w.cpl[args[i].cls], spec1.cls, spec2.cls);
        if first {
          if meth2First {
            return Ambiguous;
          }
          meth1First := true;
        } else {
          if meth1First {
            return Ambiguous;
          }
          meth2First := true;
        }
      } else {
        return Ambiguous;
      }
      i := i + 1;
    }
    r := if meth1First then MoreSpecific else if meth2First then LessSpecific else Identical;
  }
}
