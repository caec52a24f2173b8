/**
 Class precedence lists: the ordering constraints of a class hierarchy, the rule that picks
 the next class, and what the resulting list guarantees.
 */
module Linearization {
  import opened Wrappers

  type Class = nat

  /** The direct superclasses of every class, in the order they were given. A class can only
      name superclasses that have been set up before it. */
  datatype Hierarchy = Hierarchy(supers: seq<seq<Class>>) {
    ghost predicate Valid() {
      forall c, s :: 0 <= c < |supers| && s in supers[c] ==> s < c
    }

    ghost predicate Has(c: Class) { c < |supers| }
  }

  /** The class c and all its superclasses. */
  ghost predicate Ancestor(h: Hierarchy, c: Class, a: Class)
    requires h.Valid() && h.Has(c)
    decreases c
  {
    a == c || exists s :: s in h.supers[c] && Ancestor(h, s, a)
  }

  lemma {:induction false} AncestorBelow(h: Hierarchy, c: Class, a: Class)
    requires h.Valid() && h.Has(c) && Ancestor(h, c, a)
    ensures a <= c
    decreases c
  {
    if a != c {
      var s :| s in h.supers[c] && Ancestor(h, s, a);
      AncestorBelow(h, s, a);
    }
  }

  lemma {:induction false} AncestorTransitive(h: Hierarchy, c: Class, a: Class, s: Class)
    requires h.Valid() && h.Has(c) && Ancestor(h, c, a) && h.Has(a) && s in h.supers[a]
    ensures Ancestor(h, c, s)
    decreases c
  {
    if a == c {
      assert Ancestor(h, s, s);
    } else {
      var d :| d in h.supers[c] && Ancestor(h, d, a);
      AncestorTransitive(h, d, a, s);
    }
  }

  lemma {:induction false} AncestorChain(h: Hierarchy, c: Class, d: Class, e: Class)
    requires h.Valid() && h.Has(c) && h.Has(d) && Ancestor(h, c, d) && Ancestor(h, d, e)
    ensures Ancestor(h, c, e)
    decreases c
  {
    if c != d {
      var s :| s in h.supers[c] && Ancestor(h, s, d);
      AncestorChain(h, s, d, e);
    }
  }

  // Every superclass of c other than c itself is a direct superclass of some class below it.
  lemma {:induction false} HasParent(h: Hierarchy, c: Class, a: Class) returns (p: Class)
    requires h.Valid() && h.Has(c) && Ancestor(h, c, a) && a != c
    ensures Ancestor(h, c, p) && h.Has(p) && a in h.supers[p]
    decreases c
  {
    var s :| s in h.supers[c] && Ancestor(h, s, a);
    if s == a {
      p := c;
    } else {
      p := HasParent(h, s, a);
    }
  }

  /** What class c asks for: that it comes before its direct superclasses, and that these come
      in the order given. */
  predicate Demands(h: Hierarchy, c: Class, x: Class, y: Class)
    requires c < |h.supers|
  {
    var s := h.supers[c];
    (x == c && y in s) || exists i :: 0 < i < |s| && s[i - 1] == x && s[i] == y
  }

  /** x has to precede y in the list for c because a class involved asks for it. */
  ghost predicate Precedes(h: Hierarchy, c: Class, x: Class, y: Class)
    requires h.Valid() && h.Has(c)
  {
    exists d :: Ancestor(h, c, d) && h.Has(d) && Demands(h, d, x, y)
  }

  lemma PrecedesAncestors(h: Hierarchy, c: Class, x: Class, y: Class)
    requires h.Valid() && h.Has(c) && Precedes(h, c, x, y)
    ensures Ancestor(h, c, x) && Ancestor(h, c, y)
  {
    var d :| Ancestor(h, c, d) && h.Has(d) && Demands(h, d, x, y);
    AncestorTransitive(h, c, d, y);
    if x != d {
      AncestorTransitive(h, c, d, x);
    }
  }

  // Nothing has to precede c itself.
  lemma NothingPrecedesRoot(h: Hierarchy, c: Class, x: Class)
    requires h.Valid() && h.Has(c)
    ensures !Precedes(h, c, x, c)
  {
    forall d: Class | Ancestor(h, c, d) && h.Has(d) ensures !Demands(h, d, x, c) {
      AncestorBelow(h, c, d);
      forall i | 0 <= i < |h.supers[d]| ensures h.supers[d][i] < d {
        assert h.supers[d][i] in h.supers[d];
      }
    }
  }

  /** The list l orders c and its superclasses the way every class involved asks for. */
  ghost predicate Consistent(h: Hierarchy, c: Class, l: seq<Class>)
    requires h.Valid() && h.Has(c)
  {
    && NoDup(l)
    && (forall a :: a in l <==> Ancestor(h, c, a))
    && (forall i, j :: 0 <= i < |l| && 0 <= j < |l| && Precedes(h, c, l[i], l[j]) ==> i < j)
  }

  // The classes that can come next after those placed so far.
  ghost predicate Eligible(h: Hierarchy, c: Class, placed: seq<Class>, y: Class)
    requires h.Valid() && h.Has(c)
  {
    && Ancestor(h, c, y) && y !in placed
    && forall x :: Precedes(h, c, x, y) ==> x in placed
  }

  // A beginning of a consistent list.
  ghost predicate Partial(h: Hierarchy, c: Class, placed: seq<Class>)
    requires h.Valid() && h.Has(c)
  {
    && NoDup(placed)
    && (forall a :: a in placed ==> Ancestor(h, c, a))
    && (forall x, j :: 0 <= j < |placed| && Precedes(h, c, x, placed[j]) ==> x in placed[..j])
  }

  lemma PartialExtend(h: Hierarchy, c: Class, placed: seq<Class>, y: Class)
    requires h.Valid() && h.Has(c) && Partial(h, c, placed) && Eligible(h, c, placed, y)
    ensures Partial(h, c, placed + [y])
  {
    var l := placed + [y];
    forall x, j | 0 <= j < |l| && Precedes(h, c, x, l[j]) ensures x in l[..j] {
      if j < |placed| {
        assert l[j] == placed[j] && l[..j] == placed[..j];
      } else {
        assert l[..j] == placed;
      }
    }
  }

  /** The most recently placed class that has an eligible direct superclass decides: that
      superclass comes next. */
  ghost predicate Chosen(h: Hierarchy, c: Class, placed: seq<Class>, k: nat, y: Class)
    requires h.Valid() && h.Has(c)
  {
    && k < |placed| && h.Has(placed[k])
    && y in h.supers[placed[k]] && Eligible(h, c, placed, y)
    && forall j, z :: k < j < |placed| && h.Has(placed[j]) && z in h.supers[placed[j]] ==> !Eligible(h, c, placed, z)
  }

  // Once a class further up a list of direct superclasses is not placed, no later one is eligible.
  lemma {:induction false} OneEligible(h: Hierarchy, c: Class, placed: seq<Class>, p: Class, i: nat, j: nat)
    requires h.Valid() && h.Has(c) && Partial(h, c, placed)
    requires Ancestor(h, c, p) && h.Has(p) && i < j < |h.supers[p]|
    requires h.supers[p][i] !in placed
    ensures !Eligible(h, c, placed, h.supers[p][j]) && h.supers[p][j] !in placed
    decreases j
  {
    var s := h.supers[p];
    if i < j - 1 {
      OneEligible(h, c, placed, p, i, j - 1);
    }
    assert Demands(h, p, s[j - 1], s[j]) && Precedes(h, c, s[j - 1], s[j]);
  }

  /** At every tie there is exactly one class the rule can choose. */
  lemma ChoiceUnique(h: Hierarchy, c: Class, placed: seq<Class>, k: nat, y: Class, k': nat, y': Class)
    requires h.Valid() && h.Has(c) && Partial(h, c, placed)
    requires Chosen(h, c, placed, k, y) && Chosen(h, c, placed, k', y')
    ensures k == k' && y == y'
  {
    var s := h.supers[placed[k]];
    var i :| 0 <= i < |s| && s[i] == y;
    if k == k' {
      var j :| 0 <= j < |s| && s[j] == y';
      if i < j {
        OneEligible(h, c, placed, placed[k], i, j);
      } else if j < i {
        OneEligible(h, c, placed, placed[k], j, i);
      }
    }
  }

  lemma {:induction false} LatestChoice(h: Hierarchy, c: Class, placed: seq<Class>, n: nat)
    returns (k: nat, y: Class)
    requires h.Valid() && h.Has(c) && n <= |placed|
    requires exists j, z :: 0 <= j < n && h.Has(placed[j]) && z in h.supers[placed[j]] && Eligible(h, c, placed, z)
    requires forall j, z :: n <= j < |placed| && h.Has(placed[j]) && z in h.supers[placed[j]] ==> !Eligible(h, c, placed, z)
    ensures Chosen(h, c, placed, k, y)
    decreases n
  {
    if z :| h.Has(placed[n - 1]) && z in h.supers[placed[n - 1]] && Eligible(h, c, placed, z) {
      k, y := n - 1, z;
    } else {
      k, y := LatestChoice(h, c, placed, n - 1);
    }
  }

  /** As long as some class is eligible, the rule chooses one. */
  lemma ChoiceExists(h: Hierarchy, c: Class, placed: seq<Class>, e: Class) returns (k: nat, y: Class)
    requires h.Valid() && h.Has(c) && Partial(h, c, placed) && placed != []
    requires Eligible(h, c, placed, e) && e != c
    ensures Chosen(h, c, placed, k, y)
  {
    var p := HasParent(h, c, e);
    assert Demands(h, p, p, e) && Precedes(h, c, p, e);
    var j :| 0 <= j < |placed| && placed[j] == p;
    k, y := LatestChoice(h, c, placed, |placed|);
  }

  // y is what the rule puts after the classes placed so far.
  ghost predicate Next(h: Hierarchy, c: Class, placed: seq<Class>, y: Class)
    requires h.Valid() && h.Has(c)
  {
    if placed == [] then y == c else exists k :: Chosen(h, c, placed, k, y)
  }

  // Every class of the list is the one the rule puts there.
  ghost predicate ByRule(h: Hierarchy, c: Class, l: seq<Class>)
    requires h.Valid() && h.Has(c)
  {
    forall k :: 0 <= k < |l| ==> Next(h, c, l[..k], l[k])
  }

  ghost predicate Complete(h: Hierarchy, c: Class, l: seq<Class>)
    requires h.Valid() && h.Has(c)
  {
    forall a :: Ancestor(h, c, a) ==> a in l
  }

  ghost predicate Stuck(h: Hierarchy, c: Class, l: seq<Class>)
    requires h.Valid() && h.Has(c)
  {
    !Complete(h, c, l) && forall y :: !Eligible(h, c, l, y)
  }

  /** Following the rule from the start gives the list r, or None if it gets stuck. */
  ghost predicate IsPrecedenceList(h: Hierarchy, c: Class, r: Option<seq<Class>>)
    requires h.Valid() && h.Has(c)
  {
    match r
    case Some(l) => ByRule(h, c, l) && Complete(h, c, l)
    case None => exists l :: ByRule(h, c, l) && Stuck(h, c, l)
  }

  lemma {:induction false} ByRuleIsPartial(h: Hierarchy, c: Class, l: seq<Class>)
    requires h.Valid() && h.Has(c) && ByRule(h, c, l)
    ensures Partial(h, c, l)
    decreases |l|
  {
    hide ByRule, Next, Partial, Eligible;
    if l != [] {
      var n := |l| - 1;
      ByRulePrefix(h, c, l);
      ByRuleIsPartial(h, c, l[..n]);
      assert l == l[..n] + [l[n]];
      NextEligible(h, c, l[..n], l[n]);
      PartialExtend(h, c, l[..n], l[n]);
    } else {
      NothingPartial(h, c);
    }
  }

  lemma NothingPartial(h: Hierarchy, c: Class)
    requires h.Valid() && h.Has(c)
    ensures Partial(h, c, [])
  {
  }

  lemma ByRulePrefix(h: Hierarchy, c: Class, l: seq<Class>)
    requires h.Valid() && h.Has(c) && ByRule(h, c, l) && l != []
    ensures var n := |l| - 1; ByRule(h, c, l[..n]) && Next(h, c, l[..n], l[n])
  {
    hide Next;
    var n := |l| - 1;
    assert forall k :: 0 <= k < n ==> l[..n][..k] == l[..k] && l[..n][k] == l[k];
  }

  lemma NextEligible(h: Hierarchy, c: Class, p: seq<Class>, y: Class)
    requires h.Valid() && h.Has(c) && Next(h, c, p, y)
    ensures Eligible(h, c, p, y)
  {
    if p == [] {
      forall x ensures !Precedes(h, c, x, c) { NothingPrecedesRoot(h, c, x); }
    }
  }

  lemma {:induction false} RuleDeterministic(h: Hierarchy, c: Class, l: seq<Class>, l': seq<Class>, n: nat)
    requires h.Valid() && h.Has(c) && ByRule(h, c, l) && ByRule(h, c, l')
    requires n <= |l| && n <= |l'|
    ensures l[..n] == l'[..n]
  {
    hide ByRule;
    if n > 0 {
      RuleDeterministic(h, c, l, l', n - 1);
      NextDeterministic(h, c, l, l', n - 1);
      assert l[..n] == l[..n - 1] + [l[n - 1]] && l'[..n] == l'[..n - 1] + [l'[n - 1]];
    }
  }

  lemma NextDeterministic(h: Hierarchy, c: Class, l: seq<Class>, l': seq<Class>, n: nat)
    requires h.Valid() && h.Has(c) && ByRule(h, c, l) && ByRule(h, c, l')
    requires n < |l| && n < |l'| && l[..n] == l'[..n]
    ensures l[n] == l'[n]
  {
    hide Partial, Chosen;
    var p := l[..n];
    assert Next(h, c, p, l[n]) && Next(h, c, p, l'[n]);
    if p != [] {
      var k :| Chosen(h, c, p, k, l[n]);
      var k' :| Chosen(h, c, p, k', l'[n]);
      assert forall i :: 0 <= i < n ==> p[..i] == l[..i] && p[i] == l[i];
      ByRuleIsPartial(h, c, p);
      ChoiceUnique(h, c, p, k, l[n], k', l'[n]);
    }
  }

  lemma NoNext(h: Hierarchy, c: Class, l: seq<Class>, y: Class)
    requires h.Valid() && h.Has(c) && (Complete(h, c, l) || Stuck(h, c, l)) && l != []
    ensures !Next(h, c, l, y)
  {
  }

  // A list that is complete or stuck cannot be continued.
  lemma RuleEnds(h: Hierarchy, c: Class, l: seq<Class>, l': seq<Class>)
    requires h.Valid() && h.Has(c) && ByRule(h, c, l) && ByRule(h, c, l')
    requires (Complete(h, c, l) || Stuck(h, c, l)) && l != []
    ensures |l'| <= |l|
  {
    if |l| < |l'| {
      var n := |l|;
      assert l[..n] == l;
      assert Next(h, c, l'[..n], l'[n]);
      RuleDeterministic(h, c, l, l', n);
      NoNext(h, c, l, l'[n]);
    }
  }

  lemma NotEmpty(h: Hierarchy, c: Class, l: seq<Class>)
    requires h.Valid() && h.Has(c) && (Complete(h, c, l) || Stuck(h, c, l))
    ensures l != []
  {
    if l == [] {
      forall x ensures !Precedes(h, c, x, c) { NothingPrecedesRoot(h, c, x); }
      assert Ancestor(h, c, c) && Eligible(h, c, l, c);
    }
  }

  /** The rule has one outcome, whatever order the candidates are kept in. */
  lemma PrecedenceListUnique(h: Hierarchy, c: Class, r: Option<seq<Class>>, r': Option<seq<Class>>)
    requires h.Valid() && h.Has(c) && IsPrecedenceList(h, c, r) && IsPrecedenceList(h, c, r')
    ensures r == r'
  {
    var l :| ByRule(h, c, l) && if r.Some? then r == Some(l) && Complete(h, c, l) else Stuck(h, c, l);
    var l' :| ByRule(h, c, l') && if r'.Some? then r' == Some(l') && Complete(h, c, l') else Stuck(h, c, l');
    NotEmpty(h, c, l);
    NotEmpty(h, c, l');
    RuleEnds(h, c, l, l');
    RuleEnds(h, c, l', l);
    RuleDeterministic(h, c, l, l', |l|);
    assert l[..|l|] == l && l'[..|l|] == l';
  }

  // Where the rule gets stuck, no consistent list exists, nor does one for a class below.
  lemma StuckInconsistent(h: Hierarchy, c: Class, s: Class, placed: seq<Class>, l: seq<Class>)
    requires h.Valid() && h.Has(c) && h.Has(s) && Ancestor(h, c, s) && Stuck(h, s, placed)
    ensures !Consistent(h, c, l)
  {
    hide Consistent, Eligible, Complete;
    if Consistent(h, c, l) {
      var _ := OneEligibleLeft(h, c, s, placed, l);
    }
  }

  // As long as some class above s is missing, a consistent list has one that can come next.
  lemma OneEligibleLeft(h: Hierarchy, c: Class, s: Class, placed: seq<Class>, l: seq<Class>) returns (y: Class)
    requires h.Valid() && h.Has(c) && h.Has(s) && Ancestor(h, c, s) && Consistent(h, c, l) && !Complete(h, s, placed)
    ensures Eligible(h, s, placed, y)
  {
    hide Precedes;
    var a :| Ancestor(h, s, a) && a !in placed;
    AncestorChain(h, c, s, a);
    var i := FirstMissing(h, s, l, placed);
    y := l[i];
    forall x | Precedes(h, s, x, y) ensures x in placed {
      PrecedesAncestors(h, s, x, y);
      AncestorChain(h, c, s, x);
      PrecedesBelow(h, c, s, x, y);
      var j :| 0 <= j < |l| && l[j] == x;
    }
  }

  lemma PrecedesBelow(h: Hierarchy, c: Class, s: Class, x: Class, y: Class)
    requires h.Valid() && h.Has(c) && h.Has(s) && Ancestor(h, c, s) && Precedes(h, s, x, y)
    ensures Precedes(h, c, x, y)
  {
    var d :| Ancestor(h, s, d) && h.Has(d) && Demands(h, d, x, y);
    AncestorChain(h, c, s, d);
  }

  // The first class of the list above s that has not been placed.
  lemma FirstMissing(h: Hierarchy, s: Class, l: seq<Class>, placed: seq<Class>) returns (i: nat)
    requires h.Valid() && h.Has(s) && exists a :: a in l && Ancestor(h, s, a) && a !in placed
    ensures i < |l| && Ancestor(h, s, l[i]) && l[i] !in placed
    ensures forall j :: 0 <= j < i && Ancestor(h, s, l[j]) ==> l[j] in placed
  {
    hide Ancestor;
    i := 0;
    while l[i] in placed || !Ancestor(h, s, l[i])
      invariant i < |l| && exists a :: a in l[i..] && Ancestor(h, s, a) && a !in placed
      invariant forall j :: 0 <= j < i && Ancestor(h, s, l[j]) ==> l[j] in placed
      decreases |l| - i
    {
      var a :| a in l[i..] && Ancestor(h, s, a) && a !in placed;
      assert l[i..] == [l[i]] + l[i + 1..];
      i := i + 1;
    }
  }

  /** A precedence list starts with its class and is consistent with everything the classes
      involved ask for; and there is one exactly if any consistent order exists. */
  lemma PrecedenceListCorrect(h: Hierarchy, c: Class, r: Option<seq<Class>>)
    requires h.Valid() && h.Has(c) && IsPrecedenceList(h, c, r)
    ensures r.Some? ==> Consistent(h, c, r.value) && r.value != [] && r.value[0] == c
    ensures r.Some? <==> exists l :: Consistent(h, c, l)
  {
    match r
    case Some(l) =>
      ByRuleIsPartial(h, c, l);
      NotEmpty(h, c, l);
      assert Next(h, c, l[..0], l[0]);
      forall i, j | 0 <= i < |l| && 0 <= j < |l| && Precedes(h, c, l[i], l[j]) ensures i < j {
        var k :| 0 <= k < j && l[..j][k] == l[i];
      }
      assert Consistent(h, c, l);
    case None =>
      var l :| ByRule(h, c, l) && Stuck(h, c, l);
      ByRuleIsPartial(h, c, l);
      forall l' ensures !Consistent(h, c, l') {
        StuckInconsistent(h, c, c, l, l');
      }
  }

  /** Below a class that has no precedence list there is none either. */
  lemma NoListBelow(h: Hierarchy, c: Class, s: Class, r: Option<seq<Class>>, rs: Option<seq<Class>>)
    requires h.Valid() && h.Has(c) && h.Has(s) && Ancestor(h, c, s)
    requires IsPrecedenceList(h, c, r) && IsPrecedenceList(h, s, rs)
    ensures rs.None? ==> r.None?
  {
    hide Consistent, ByRule, Stuck;
    if rs.None? {
      var placed :| ByRule(h, s, placed) && Stuck(h, s, placed);
      ByRuleIsPartial(h, s, placed);
      PrecedenceListCorrect(h, c, r);
      if r.Some? { StuckInconsistent(h, c, s, placed, r.value); }
    }
  }

  /** The single-superclass shortcut: when c has the one direct superclass s, its list is c
      followed by the list of s. */
  lemma ShortcutCorrect(h: Hierarchy, c: Class, s: Class, l: seq<Class>)
    requires h.Valid() && h.Has(c) && h.supers[c] == [s] && s < c
    requires IsPrecedenceList(h, s, Some(l))
    ensures IsPrecedenceList(h, c, Some([c] + l))
  {
    var m := [c] + l;
    forall k | 0 <= k < |m| ensures Next(h, c, m[..k], m[k]) {
      if k == 1 {
        RuleFromSuper(h, c, s);
        assert Next(h, s, l[..0], l[0]);
        assert m[..1] == [c];
      } else if k > 1 {
        assert m[..k] == [c] + l[..k - 1];
        ByRuleIsPartial(h, s, l);
        assert Next(h, s, l[..k - 1], l[k - 1]);
        var n :| Chosen(h, s, l[..k - 1], n, l[k - 1]);
        ChosenBelow(h, c, s, l[..k - 1], n, l[k - 1]);
      }
    }
    forall a | Ancestor(h, c, a) ensures a in m {
      if a != c { assert Ancestor(h, s, a); }
    }
  }

  // The constraints on c are those on s, and that c comes before s.
  lemma PrecedesFromSuper(h: Hierarchy, c: Class, s: Class, x: Class, y: Class)
    requires h.Valid() && h.Has(c) && h.supers[c] == [s] && s < c
    ensures Precedes(h, c, x, y) <==> (x == c && y == s) || Precedes(h, s, x, y)
  {
    if x == c && y == s {
      assert Ancestor(h, c, c) && Demands(h, c, c, s);
    }
    if Precedes(h, s, x, y) {
      var d :| Ancestor(h, s, d) && h.Has(d) && Demands(h, d, x, y);
      assert Ancestor(h, c, d);
    }
    if Precedes(h, c, x, y) {
      var d :| Ancestor(h, c, d) && h.Has(d) && Demands(h, d, x, y);
      if d != c { assert Ancestor(h, s, d); }
    }
  }

  lemma EligibleFromSuper(h: Hierarchy, c: Class, s: Class, placed: seq<Class>, y: Class)
    requires h.Valid() && h.Has(c) && h.supers[c] == [s] && s < c
    ensures Eligible(h, c, [c] + placed, y) <==> (y != c && Eligible(h, s, placed, y))
  {
    forall x ensures Precedes(h, c, x, y) <==> (x == c && y == s) || Precedes(h, s, x, y) {
      PrecedesFromSuper(h, c, s, x, y);
    }
    forall x | Precedes(h, s, x, y) ensures x != c {
      PrecedesAncestors(h, s, x, y);
      AncestorBelow(h, s, x);
    }
    if Ancestor(h, s, c) { AncestorBelow(h, s, c); }
    assert y != c ==> (Ancestor(h, c, y) <==> Ancestor(h, s, y));
  }

  lemma RuleFromSuper(h: Hierarchy, c: Class, s: Class)
    requires h.Valid() && h.Has(c) && h.supers[c] == [s] && s < c
    ensures Next(h, c, [c], s)
  {
    forall x ensures !Precedes(h, s, x, s) { NothingPrecedesRoot(h, s, x); }
    assert Eligible(h, s, [], s);
    EligibleFromSuper(h, c, s, [], s);
    assert [c] + [] == [c];
    assert Chosen(h, c, [c], 0, s);
  }

  lemma ChosenBelow(h: Hierarchy, c: Class, s: Class, placed: seq<Class>, k: nat, y: Class)
    requires h.Valid() && h.Has(c) && h.supers[c] == [s] && s < c
    requires placed != [] && Chosen(h, s, placed, k, y)
    ensures Next(h, c, [c] + placed, y)
  {
    var l := [c] + placed;
    AncestorBelow(h, s, y);
    EligibleFromSuper(h, c, s, placed, y);
    forall j, z | k + 1 < j < |l| && h.Has(l[j]) && z in h.supers[l[j]] ensures !Eligible(h, c, l, z) {
      EligibleFromSuper(h, c, s, placed, z);
      assert l[j] == placed[j - 1];
    }
    assert Chosen(h, c, l, k + 1, y);
  }

  // Setting up another class changes nothing for those already there.
  ghost predicate Grows(h: Hierarchy, h': Hierarchy) {
    |h.supers| <= |h'.supers| && h'.supers[..|h.supers|] == h.supers
  }

  lemma {:induction false} AncestorStays(h: Hierarchy, h': Hierarchy, c: Class, a: Class)
    requires h.Valid() && h'.Valid() && Grows(h, h') && h.Has(c)
    ensures Ancestor(h, c, a) <==> Ancestor(h', c, a)
    decreases c
  {
    assert h'.supers[c] == h'.supers[..|h.supers|][c] == h.supers[c];
    forall s | s in h.supers[c] ensures Ancestor(h, s, a) <==> Ancestor(h', s, a) {
      AncestorStays(h, h', s, a);
    }
  }

  lemma PrecedesStays(h: Hierarchy, h': Hierarchy, c: Class)
    requires h.Valid() && h'.Valid() && Grows(h, h') && h.Has(c)
    ensures forall x, y :: Precedes(h, c, x, y) <==> Precedes(h', c, x, y)
  {
    forall d: Class ensures Ancestor(h, c, d) <==> Ancestor(h', c, d) {
      AncestorStays(h, h', c, d);
    }
    forall d: Class | Ancestor(h, c, d) ensures h.Has(d) && h'.supers[d] == h.supers[d] {
      AncestorBelow(h, c, d);
      assert h'.supers[..|h.supers|][d] == h.supers[d];
    }
  }

  lemma ListStays(h: Hierarchy, h': Hierarchy, c: Class, r: Option<seq<Class>>)
    requires h.Valid() && h'.Valid() && Grows(h, h') && h.Has(c)
    requires IsPrecedenceList(h, c, r)
    ensures IsPrecedenceList(h', c, r)
  {
    hide Precedes, Ancestor, Eligible;
    var l :| ByRule(h, c, l) && if r.Some? then r == Some(l) && Complete(h, c, l) else Stuck(h, c, l);
    forall d: Class ensures Ancestor(h, c, d) <==> Ancestor(h', c, d) {
      AncestorStays(h, h', c, d);
    }
    EligibleStays(h, h', c);
    RuleStays(h, h', c, l);
  }

  lemma EligibleStays(h: Hierarchy, h': Hierarchy, c: Class)
    requires h.Valid() && h'.Valid() && Grows(h, h') && h.Has(c)
    ensures forall placed, y :: Eligible(h, c, placed, y) <==> Eligible(h', c, placed, y)
  {
    hide Precedes, Ancestor;
    PrecedesStays(h, h', c);
    forall d: Class ensures Ancestor(h, c, d) <==> Ancestor(h', c, d) {
      AncestorStays(h, h', c, d);
    }
  }

  lemma RuleStays(h: Hierarchy, h': Hierarchy, c: Class, l: seq<Class>)
    requires h.Valid() && h'.Valid() && Grows(h, h') && h.Has(c) && ByRule(h, c, l)
    requires forall placed, y :: Eligible(h, c, placed, y) <==> Eligible(h', c, placed, y)
    ensures ByRule(h', c, l)
  {
    hide Precedes, Ancestor, Eligible;
    ByRuleIsPartial(h, c, l);
    forall k | 0 <= k < |l| ensures Next(h', c, l[..k], l[k]) {
      assert Next(h, c, l[..k], l[k]);
      if k > 0 {
        var n :| Chosen(h, c, l[..k], n, l[k]);
        PlacedBelow(h, h', c, l[..k]);
        assert Chosen(h', c, l[..k], n, l[k]);
      }
    }
  }

  lemma PlacedBelow(h: Hierarchy, h': Hierarchy, c: Class, placed: seq<Class>)
    requires h.Valid() && h'.Valid() && Grows(h, h') && h.Has(c)
    requires forall a :: a in placed ==> Ancestor(h, c, a)
    ensures forall j :: 0 <= j < |placed| ==> h.Has(placed[j]) && h'.supers[placed[j]] == h.supers[placed[j]]
  {
    forall j | 0 <= j < |placed| ensures h.Has(placed[j]) && h'.supers[placed[j]] == h.supers[placed[j]] {
      AncestorBelow(h, c, placed[j]);
      assert h'.supers[..|h.supers|][placed[j]] == h.supers[placed[j]];
    }
  }

  // A class without superclasses.
  lemma NoSupers(h: Hierarchy, c: Class)
    requires h.Valid() && h.Has(c) && h.supers[c] == []
    ensures IsPrecedenceList(h, c, Some([c]))
  {
  }
}
