/**
 Setting up classes: the counted topological sort that computes a class precedence list.
 */
module ClassTables {
  import opened Wrappers
  import opened Linearization

  type Edge = (Class, Class)

  // The targets of the edges that leave x, in the order of the list.
  function Targets(es: seq<Edge>, x: Class): seq<Class> {
    if es == [] then [] else (if es[0].0 == x then [es[0].1] else []) + Targets(es[1..], x)
  }

  // The number of edges into y from classes that are not in the list `gone`.
  function InDegree(es: seq<Edge>, y: Class, gone: seq<Class>): nat {
    if es == [] then 0
    else (if es[0].1 == y && es[0].0 !in gone then 1 else 0) + InDegree(es[1..], y, gone)
  }

  function Occurrences(s: seq<Class>, y: Class): nat {
    if s == [] then 0 else (if s[0] == y then 1 else 0) + Occurrences(s[1..], y)
  }

  lemma {:induction false} OccurrencesConcat(s: seq<Class>, t: seq<Class>, y: Class)
    ensures Occurrences(s + t, y) == Occurrences(s, y) + Occurrences(t, y)
  {
    if s == [] {
      assert s + t == t;
    } else {
      OccurrencesConcat(s[1..], t, y);
      assert (s + t)[1..] == s[1..] + t;
    }
  }

  // Taking x away takes away exactly its edges.
  lemma {:induction false} InDegreeDrops(es: seq<Edge>, y: Class, gone: seq<Class>, x: Class)
    requires x !in gone
    ensures InDegree(es, y, gone) == InDegree(es, y, gone + [x]) + Occurrences(Targets(es, x), y)
  {
    if es != [] {
      InDegreeDrops(es[1..], y, gone, x);
      OccurrencesConcat(if es[0].0 == x then [es[0].1] else [], Targets(es[1..], x), y);
    }
  }

  lemma {:induction false} InDegreeZero(es: seq<Edge>, y: Class, gone: seq<Class>)
    ensures InDegree(es, y, gone) == 0 <==> forall x :: (x, y) in es ==> x in gone
  {
    if es != [] {
      InDegreeZero(es[1..], y, gone);
      assert es == [es[0]] + es[1..];
    }
  }

  lemma {:induction false} TargetsAreEdges(es: seq<Edge>, x: Class, t: Class)
    requires t in Targets(es, x)
    ensures (x, t) in es
  {
    if t in Targets(es[1..], x) {
      TargetsAreEdges(es[1..], x, t);
    }
  }

  function Reverse(s: seq<Class>): (r: seq<Class>)
    ensures |r| == |s| && forall k :: 0 <= k < |s| ==> r[k] == s[|s| - 1 - k]
  {
    seq(|s|, k requires 0 <= k < |s| => s[|s| - 1 - k])
  }

  // The graph that compute_cpd builds, given the edges added so far.
  ghost predicate Graph(cpds: seq<Class>, after: map<Class, seq<Class>>, count: map<Class, nat>, es: seq<Edge>) {
    && NoDup(cpds)
    && (forall x :: x in cpds <==> x in after)
    && (forall x :: x in cpds <==> x in count)
    && (forall x :: x in cpds ==> after[x] == Targets(es, x) && count[x] == InDegree(es, x, []))
    && (forall e :: e in es ==> e.0 in cpds && e.1 in cpds)
  }

  lemma GraphAddNode(cpds: seq<Class>, after: map<Class, seq<Class>>, count: map<Class, nat>, es: seq<Edge>, x: Class)
    requires Graph(cpds, after, count, es) && x !in cpds
    ensures Graph([x] + cpds, after[x := []], count[x := 0], es)
  {
    NoEdges(es, x);
  }

  lemma {:induction false} NoEdges(es: seq<Edge>, x: Class)
    requires forall e :: e in es ==> e.0 != x && e.1 != x
    ensures Targets(es, x) == [] && InDegree(es, x, []) == 0
  {
    if es != [] {
      assert es[0] in es;
      NoEdges(es[1..], x);
    }
  }

  lemma GraphAddEdge(cpds: seq<Class>, after: map<Class, seq<Class>>, count: map<Class, nat>, es: seq<Edge>,
                     x: Class, t: Class)
    requires Graph(cpds, after, count, es) && x in cpds && t in cpds
    ensures Graph(cpds, after[x := [t] + after[x]], count[t := count[t] + 1], [(x, t)] + es)
  {
    hide Targets, InDegree, NoDup;
    var es' := [(x, t)] + es;
    forall y ensures Targets(es', y) == (if y == x then [t] else []) + Targets(es, y)
             ensures InDegree(es', y, []) == (if y == t then 1 else 0) + InDegree(es, y, [])
    {
      AddedEdge(es, x, t, y);
    }
    assert forall y :: [] + Targets(es, y) == Targets(es, y);
  }

  lemma AddedEdge(es: seq<Edge>, x: Class, t: Class, y: Class)
    ensures Targets([(x, t)] + es, y) == (if y == x then [t] else []) + Targets(es, y)
    ensures InDegree([(x, t)] + es, y, []) == (if y == t then 1 else 0) + InDegree(es, y, [])
  {
    assert ([(x, t)] + es)[1..] == es;
  }

  // Everything class d asks for is in the graph.
  ghost predicate Recorded(h: Hierarchy, cpds: seq<Class>, es: seq<Edge>, d: Class) {
    && d < |h.supers|
    && (forall s :: s in h.supers[d] ==> s in cpds)
    && (forall x: Class, y: Class :: Demands(h, d, x, y) ==> (x, y) in es)
  }

  lemma AllRecorded(h: Hierarchy, cpds: seq<Class>, es: seq<Edge>, d: Class)
    requires h.Valid() && h.Has(d)
    requires forall j :: 0 <= j < |h.supers[d]| ==> h.supers[d][j] in cpds && (d, h.supers[d][j]) in es
    requires forall j :: 0 < j < |h.supers[d]| ==> (h.supers[d][j - 1], h.supers[d][j]) in es
    ensures Recorded(h, cpds, es, d)
  {
  }

  // The graph grew from (cpds, es) to (cpds', es') by exploring part of what is above c.
  ghost predicate Explored(h: Hierarchy, c: Class, cpds: seq<Class>, es: seq<Edge>,
                           cpds': seq<Class>, es': seq<Edge>, open: set<Class>)
    requires h.Valid() && h.Has(c)
  {
    && (forall x :: x in cpds ==> x in cpds')
    && (forall e :: e in es ==> e in es')
    && (forall x :: x in cpds' && x !in cpds ==> Ancestor(h, c, x) && (x in open || Recorded(h, cpds', es', x)))
    && (forall e :: e in es' && e !in es ==> Precedes(h, c, e.0, e.1))
  }

  lemma ExploredStart(h: Hierarchy, c: Class, cpds: seq<Class>, es: seq<Edge>)
    requires h.Valid() && h.Has(c)
    ensures Explored(h, c, cpds, es, [c] + cpds, es, {c})
  {
    assert Ancestor(h, c, c);
  }

  lemma ExploredKeeps(h: Hierarchy, c: Class, cpds: seq<Class>, es: seq<Edge>, cpds': seq<Class>, es': seq<Edge>)
    requires h.Valid() && h.Has(c) && Explored(h, c, cpds, es, cpds', es', {})
    ensures forall x :: x in cpds ==> x in cpds'
    ensures forall e :: e in es ==> e in es'
  {
  }

  lemma ExploredDone(h: Hierarchy, c: Class, cpds: seq<Class>, es: seq<Edge>, cpds': seq<Class>, es': seq<Edge>)
    requires h.Valid() && h.Has(c)
    requires Explored(h, c, cpds, es, cpds', es', {c}) && Recorded(h, cpds', es', c)
    ensures Explored(h, c, cpds, es, cpds', es', {})
  {
  }

  lemma ExploredHigher(h: Hierarchy, c: Class, s: Class, cpds0: seq<Class>, es0: seq<Edge>,
                       cpds: seq<Class>, es: seq<Edge>, cpds': seq<Class>, es': seq<Edge>)
    requires h.Valid() && h.Has(c) && s in h.supers[c]
    requires Explored(h, c, cpds0, es0, cpds, es, {c})
    requires Explored(h, s, cpds, es, cpds', es', {})
    ensures Explored(h, c, cpds0, es0, cpds', es', {c})
  {
    forall x | x in cpds' && x !in cpds0
      ensures Ancestor(h, c, x) && (x in {c} || Recorded(h, cpds', es', x))
    {
      if x !in cpds {
        assert Ancestor(h, s, x);
      }
    }
    forall e | e in es' && e !in es0 ensures Precedes(h, c, e.0, e.1) {
      if e !in es {
        var d :| Ancestor(h, s, d) && h.Has(d) && Demands(h, d, e.0, e.1);
        assert Ancestor(h, c, d);
      }
    }
  }

  lemma ExploredEdge(h: Hierarchy, c: Class, cpds0: seq<Class>, es0: seq<Edge>, cpds: seq<Class>, es: seq<Edge>, e: Edge)
    requires h.Valid() && h.Has(c) && Demands(h, c, e.0, e.1)
    requires Explored(h, c, cpds0, es0, cpds, es, {c})
    ensures Explored(h, c, cpds0, es0, cpds, [e] + es, {c})
  {
    assert Ancestor(h, c, c);
    assert Precedes(h, c, e.0, e.1);
  }

  // A graph explored from nothing holds exactly the constraints on c.
  lemma ExploredAll(h: Hierarchy, c: Class, cpds: seq<Class>, es: seq<Edge>)
    requires h.Valid() && h.Has(c) && c in cpds && Explored(h, c, [], [], cpds, es, {})
    ensures forall a :: a in cpds <==> Ancestor(h, c, a)
    ensures forall x: Class, y: Class :: (x, y) in es <==> Precedes(h, c, x, y)
  {
    forall a | Ancestor(h, c, a) ensures a in cpds {
      ClosedUpwards(h, c, a, cpds);
    }
    forall x: Class, y: Class | Precedes(h, c, x, y) ensures (x, y) in es {
      var d :| Ancestor(h, c, d) && h.Has(d) && Demands(h, d, x, y);
      assert d in cpds && Recorded(h, cpds, es, d);
    }
  }

  lemma {:induction false} ClosedUpwards(h: Hierarchy, c: Class, a: Class, cpds: seq<Class>)
    requires h.Valid() && h.Has(c) && c in cpds && Ancestor(h, c, a)
    requires forall x, s :: x in cpds && h.Has(x) && s in h.supers[x] ==> s in cpds
    ensures a in cpds
    decreases c
  {
    if a != c {
      var s :| s in h.supers[c] && Ancestor(h, s, a);
      ClosedUpwards(h, s, a, cpds);
    }
  }

  // The graph holds the classes above c and exactly the constraints among them.
  ghost predicate Full(h: Hierarchy, c: Class, cpds: seq<Class>, es: seq<Edge>)
    requires h.Valid() && h.Has(c)
  {
    && NoDup(cpds)
    && (forall a :: a in cpds <==> Ancestor(h, c, a))
    && (forall x: Class, y: Class :: (x, y) in es <==> Precedes(h, c, x, y))
  }

  // The counts are those of the unplaced classes, and the candidates are the unplaced classes
  // with count 0. While the edges of the class placed last are being taken away, `rest` lists
  // those still to go.
  ghost predicate Counted(cpds: seq<Class>, es: seq<Edge>, placed: seq<Class>, rest: seq<Class>,
                          count: map<Class, nat>, candidates: seq<Class>)
  {
    && (forall y :: y in cpds ==> y in count && count[y] == InDegree(es, y, placed) + Occurrences(rest, y))
    && NoDup(candidates)
    && (forall y :: y in candidates <==> y in cpds && y !in placed && y in count && count[y] == 0)
    && (forall y :: y in cpds && y in placed ==> y in count && count[y] == 0)
  }

  lemma CandidatesEligible(h: Hierarchy, c: Class, cpds: seq<Class>, es: seq<Edge>, placed: seq<Class>,
                           count: map<Class, nat>, candidates: seq<Class>)
    requires h.Valid() && h.Has(c) && Full(h, c, cpds, es) && Counted(cpds, es, placed, [], count, candidates)
    ensures forall y :: y in candidates <==> Eligible(h, c, placed, y)
  {
    forall y ensures y in candidates <==> Eligible(h, c, placed, y) {
      InDegreeZero(es, y, placed);
    }
  }

  // The sort starts with the class itself as the only candidate.
  lemma FirstCandidate(h: Hierarchy, c: Class, cpds: seq<Class>, es: seq<Edge>, count: map<Class, nat>)
    requires h.Valid() && h.Has(c) && Full(h, c, cpds, es)
    requires forall y :: y in cpds ==> y in count && count[y] == InDegree(es, y, [])
    ensures Counted(cpds, es, [], [], count, [c])
  {
    forall y | y in cpds ensures count[y] == 0 <==> y == c {
      InDegreeZero(es, y, []);
      if y == c {
        forall x ensures !Precedes(h, c, x, c) { NothingPrecedesRoot(h, c, x); }
      } else {
        var p := HasParent(h, c, y);
        assert Demands(h, p, p, y) && Precedes(h, c, p, y) && (p, y) in es;
      }
    }
    assert c in cpds;
  }

  lemma CandidateIsNode(cpds: seq<Class>, es: seq<Edge>, placed: seq<Class>, count: map<Class, nat>,
                        candidates: seq<Class>)
    requires Counted(cpds, es, placed, [], count, candidates)
    ensures NoDup(candidates) && forall y :: y in candidates ==> y in cpds
  {
  }

  lemma RemoveStarts(cpds: seq<Class>, es: seq<Edge>, placed: seq<Class>, count: map<Class, nat>,
                     candidates: seq<Class>, k: nat)
    requires Counted(cpds, es, placed, [], count, candidates) && k < |candidates|
    ensures candidates[k] !in placed
    ensures Counted(cpds, es, placed + [candidates[k]], Targets(es, candidates[k]), count,
                    candidates[..k] + candidates[k + 1..])
  {
    var x := candidates[k];
    var l := candidates[..k] + candidates[k + 1..];
    assert x in candidates;
    forall y | y in cpds
      ensures count[y] == InDegree(es, y, placed + [x]) + Occurrences(Targets(es, x), y)
    {
      InDegreeDrops(es, y, placed, x);
    }
    assert forall i :: 0 <= i < |l| ==> l[i] == candidates[if i < k then i else i + 1];
    forall y | y in candidates && y != x ensures y in l {
      var i :| 0 <= i < |candidates| && candidates[i] == y;
      assert l[if i < k then i else i - 1] == y;
    }
  }

  lemma RemoveStep(cpds: seq<Class>, es: seq<Edge>, placed: seq<Class>, rest: seq<Class>,
                   count: map<Class, nat>, candidates: seq<Class>)
    requires Counted(cpds, es, placed, rest, count, candidates)
    requires rest != [] && rest[0] in cpds
    ensures rest[0] in count && count[rest[0]] > 0
    ensures var n := count[rest[0]] - 1;
            Counted(cpds, es, placed, rest[1..], count[rest[0] := n],
                    if n == 0 then [rest[0]] + candidates else candidates)
  {
  }

  lemma ByRuleExtend(h: Hierarchy, c: Class, placed: seq<Class>, x: Class)
    requires h.Valid() && h.Has(c) && ByRule(h, c, placed) && Next(h, c, placed, x)
    ensures ByRule(h, c, placed + [x])
  {
    hide Next;
    var l := placed + [x];
    forall k | 0 <= k < |l| ensures Next(h, c, l[..k], l[k]) {
      assert l[..k] == placed[..k];
      if k == |placed| { assert placed[..k] == placed; }
    }
  }

  lemma RootFirst(h: Hierarchy, c: Class, placed: seq<Class>)
    requires h.Valid() && h.Has(c) && ByRule(h, c, placed) && placed != []
    ensures placed[0] == c
  {
    assert Next(h, c, placed[..0], placed[0]);
  }

  // Before anything is placed, c is the only candidate.
  lemma OnlyRootAtStart(h: Hierarchy, c: Class, y: Class)
    requires h.Valid() && h.Has(c) && Ancestor(h, c, y) && y != c
    ensures !Eligible(h, c, [], y)
  {
    var p := HasParent(h, c, y);
    assert Demands(h, p, p, y) && Precedes(h, c, p, y);
  }

  lemma SomeChoice(h: Hierarchy, c: Class, placed: seq<Class>, e: Class) returns (k: nat, y: Class)
    requires h.Valid() && h.Has(c) && ByRule(h, c, placed) && placed != [] && Eligible(h, c, placed, e)
    ensures Chosen(h, c, placed, k, y)
  {
    ByRuleIsPartial(h, c, placed);
    RootFirst(h, c, placed);
    k, y := ChoiceExists(h, c, placed, e);
  }

  lemma SeveralCandidates(h: Hierarchy, c: Class, placed: seq<Class>, candidates: seq<Class>)
    requires h.Valid() && h.Has(c) && |candidates| > 1 && NoDup(candidates)
    requires forall y :: y in candidates <==> Eligible(h, c, placed, y)
    ensures placed != []
  {
    assert Eligible(h, c, placed, candidates[0]) && Eligible(h, c, placed, candidates[1]);
    if placed == [] {
      OnlyRootAtStart(h, c, if candidates[0] == c then candidates[1] else candidates[0]);
    }
  }

  lemma OneCandidate(h: Hierarchy, c: Class, placed: seq<Class>, candidates: seq<Class>)
    requires h.Valid() && h.Has(c) && ByRule(h, c, placed) && |candidates| == 1
    requires forall y :: y in candidates <==> Eligible(h, c, placed, y)
    ensures Next(h, c, placed, candidates[0])
  {
    assert Eligible(h, c, placed, candidates[0]);
    if placed == [] {
      if candidates[0] != c { OnlyRootAtStart(h, c, candidates[0]); }
    } else {
      var k, y := SomeChoice(h, c, placed, candidates[0]);
      assert y in candidates;
    }
  }

  lemma EmptyGraph()
    ensures Graph([], map[], map[], [])
  {
  }

  lemma GraphIsFull(h: Hierarchy, c: Class, cpds: seq<Class>, es: seq<Edge>,
                    after: map<Class, seq<Class>>, count: map<Class, nat>)
    requires h.Valid() && h.Has(c) && c in cpds && Explored(h, c, [], [], cpds, es, {})
    requires Graph(cpds, after, count, es)
    ensures Full(h, c, cpds, es) && Counted(cpds, es, [], [], count, [c])
    ensures ByRule(h, c, [])
    ensures forall x :: x in cpds ==> x in after && after[x] == Targets(es, x)
    ensures forall e :: e in es ==> e.1 in cpds
  {
    ExploredAll(h, c, cpds, es);
    FirstCandidate(h, c, cpds, es, count);
  }

  lemma RanOut(h: Hierarchy, c: Class, cpds: seq<Class>, es: seq<Edge>, placed: seq<Class>)
    requires h.Valid() && h.Has(c) && Full(h, c, cpds, es) && ByRule(h, c, placed)
    requires |placed| < |cpds| && forall y :: !Eligible(h, c, placed, y)
    ensures IsPrecedenceList(h, c, None)
  {
    PlacedCount(h, c, cpds, es, placed);
    assert Stuck(h, c, placed);
  }

  lemma PlacedIsClass(h: Hierarchy, c: Class, placed: seq<Class>, j: nat)
    requires h.Valid() && h.Has(c) && ByRule(h, c, placed) && j < |placed|
    ensures h.Has(placed[j])
  {
    ByRuleIsPartial(h, c, placed);
    AncestorBelow(h, c, placed[j]);
  }

  function Elements(s: seq<Class>): (r: set<Class>)
    ensures forall x :: x in r <==> x in s
  {
    if s == [] then {} else
      assert s == [s[0]] + s[1..];
      {s[0]} + Elements(s[1..])
  }

  lemma {:induction false} SizeOf(s: seq<Class>)
    requires NoDup(s)
    ensures |Elements(s)| == |s|
  {
    if s != [] {
      SizeOf(s[1..]);
    }
  }

  // The loop has placed all classes once it has gone round as often as there are classes.
  lemma PlacedCount(h: Hierarchy, c: Class, cpds: seq<Class>, es: seq<Edge>, placed: seq<Class>)
    requires h.Valid() && h.Has(c) && Full(h, c, cpds, es) && ByRule(h, c, placed)
    ensures |placed| <= |cpds|
    ensures |placed| == |cpds| <==> Complete(h, c, placed)
  {
    ByRuleIsPartial(h, c, placed);
    NoDupSubset(placed, cpds);
  }

  lemma NoDupSubset(s: seq<Class>, t: seq<Class>)
    requires NoDup(s) && NoDup(t) && forall a :: a in s ==> a in t
    ensures |s| <= |t|
    ensures |s| == |t| <==> forall a :: a in t ==> a in s
  {
    hide NoDup;
    SizeOf(s);
    SizeOf(t);
    SubsetSize(Elements(s), Elements(t));
    if forall a :: a in t ==> a in s {
      SubsetSize(Elements(t), Elements(s));
    }
  }

  // A candidate found among the direct superclasses of the k-th class placed, after those of
  // the later ones have been searched in vain, is the one the rule chooses.
  lemma FoundIsChosen(h: Hierarchy, c: Class, placed: seq<Class>, candidates: seq<Class>, k: nat, y: Class)
    requires h.Valid() && h.Has(c) && k < |placed| && h.Has(placed[k])
    requires forall y :: y in candidates <==> Eligible(h, c, placed, y)
    requires y in candidates && y in h.supers[placed[k]]
    requires SearchedInVain(h, placed, candidates, k + 1)
    ensures Next(h, c, placed, y)
  {
    assert Chosen(h, c, placed, k, y);
  }

  ghost predicate SearchedInVain(h: Hierarchy, placed: seq<Class>, candidates: seq<Class>, k: nat) {
    forall j, z :: k <= j < |placed| && h.Has(placed[j]) && z in h.supers[placed[j]] ==> z !in candidates
  }

  // Where to stop looking: the search finds something there at the latest.
  lemma SearchSucceeds(h: Hierarchy, c: Class, placed: seq<Class>, candidates: seq<Class>) returns (n: nat)
    requires h.Valid() && h.Has(c) && ByRule(h, c, placed) && placed != [] && candidates != []
    requires forall y :: y in candidates <==> Eligible(h, c, placed, y)
    ensures n < |placed| && forall k: nat :: k <= n ==> !SearchedInVain(h, placed, candidates, k)
  {
    var y;
    n, y := SomeChoice(h, c, placed, candidates[0]);
  }

  lemma NothingSearched(h: Hierarchy, placed: seq<Class>, candidates: seq<Class>)
    ensures SearchedInVain(h, placed, candidates, |placed|)
  {
  }

  lemma SearchedOneMore(h: Hierarchy, placed: seq<Class>, candidates: seq<Class>, k: nat)
    requires k < |placed| && h.Has(placed[k]) && SearchedInVain(h, placed, candidates, k + 1)
    requires forall z :: z in candidates ==> z !in h.supers[placed[k]]
    ensures SearchedInVain(h, placed, candidates, k)
  {
  }

  class ClassTable {
    // What the table knows about each class.
    var supers: seq<seq<Class>>
    // A class whose list was inconsistent has superclasses, but no list.
    var cpl: seq<Option<seq<Class>>>
    var allSubclasses: seq<seq<Class>>
    var sealed: seq<bool>
    var library: seq<nat>

    // The state of the sort.
    var cpds: seq<Class>
    var classCount: nat
    var after: map<Class, seq<Class>>
    var count: map<Class, nat>
    ghost var edges: seq<Edge>

    constructor ()
      ensures Valid() && supers == [] && sealed == [] && library == []
    {
      supers, cpl, allSubclasses, sealed, library := [], [], [], [], [];
      cpds, classCount, after, count, edges := [], 0, map[], map[], [];
    }

    ghost function H(): Hierarchy
      reads `supers
    {
      Hierarchy(supers)
    }

    ghost predicate Building()
      reads `supers, `cpds, `classCount, `after, `count, `edges
    {
      H().Valid() && Graph(cpds, after, count, edges) && classCount == |cpds|
    }

    method PushAfter(x: Class, t: Class)
      requires Building() && x in cpds && t in cpds
      modifies `after, `count, `edges
      ensures Building() && edges == [(x, t)] + old(edges)
    {
      GraphAddEdge(cpds, after, count, edges, x, t);
      after := after[x := [t] + after[x]];
      count := count[t := count[t] + 1];
      edges := [(x, t)] + edges;
    }

    // Adds what class c asks for about its i-th superclass.
    method PushSuper(c: Class, i: nat, ghost cpds0: seq<Class>, ghost edges0: seq<Edge>)
      requires Building() && H().Has(c) && i < |supers[c]| && c in cpds && supers[c][i] in cpds && (i > 0 ==> supers[c][i - 1] in cpds)
      requires Explored(H(), c, cpds0, edges0, cpds, edges, {c})
      modifies `after, `count, `edges
      ensures Building() && Explored(H(), c, cpds0, edges0, cpds, edges, {c})
      ensures (c, supers[c][i]) in edges && (i > 0 ==> (supers[c][i - 1], supers[c][i]) in edges)
      ensures forall e :: e in old(edges) ==> e in edges
    {
      hide Graph, Explored;
      var s := supers[c];
      ExploredEdge(H(), c, cpds0, edges0, cpds, edges, (c, s[i]));
      PushAfter(c, s[i]);
      if i > 0 {
        ExploredEdge(H(), c, cpds0, edges0, cpds, edges, (s[i - 1], s[i]));
        PushAfter(s[i - 1], s[i]);
      }
    }

    method ComputeCpd(c: Class)
      requires Building() && H().Has(c) && c !in cpds
      modifies `cpds, `classCount, `after, `count, `edges
      ensures Building() && c in cpds
      ensures Explored(H(), c, old(cpds), old(edges), cpds, edges, {})
      decreases c, 0
    {
      hide Graph, Explored, Recorded, Ancestor, Precedes;
      GraphAddNode(cpds, after, count, edges, c);
      ExploredStart(H(), c, cpds, edges);
      cpds := [c] + cpds;
      classCount := classCount + 1;
      after := after[c := []];
      count := count[c := 0];
      var s := supers[c];
      ghost var h, cpds0, edges0 := H(), old(cpds), old(edges);
      var i := 0;
      while i < |s|
        invariant i <= |s| && Building() && c in cpds
        invariant Explored(h, c, cpds0, edges0, cpds, edges, {c})
        invariant forall j :: 0 <= j < i ==> s[j] in cpds && (c, s[j]) in edges
        invariant forall j :: 0 < j < i ==> (s[j - 1], s[j]) in edges
      {
        ghost var cpds1, edges1 := cpds, edges;
        assert s[i] in s;
        FindCpd(s[i]);
        ExploredKeeps(h, s[i], cpds1, edges1, cpds, edges);
        ExploredHigher(h, c, s[i], cpds0, edges0, cpds1, edges1, cpds, edges);
        PushSuper(c, i, cpds0, edges0);
        i := i + 1;
      }
      AllRecorded(h, cpds, edges, c);
      ExploredDone(h, c, cpds0, edges0, cpds, edges);
    }

    method FindCpd(c: Class)
      requires Building() && H().Has(c)
      modifies `cpds, `classCount, `after, `count, `edges
      ensures Building() && c in cpds
      ensures Explored(H(), c, old(cpds), old(edges), cpds, edges, {})
      decreases c, 1
    {
      var i := 0;
      while i < |cpds|
        invariant i <= |cpds| && c !in cpds[..i]
      {
        if cpds[i] == c {
          return;
        }
        i := i + 1;
      }
      assert cpds[..i] == cpds;
      ComputeCpd(c);
    }

    // The first candidate that is a direct superclass of the most recently placed class that
    // has one among its direct superclasses.
    method TieBreaker(candidates: seq<Class>, rcpl: seq<Class>, ghost c: Class, ghost placed: seq<Class>)
      returns (k: nat)
      requires H().Valid() && H().Has(c) && ByRule(H(), c, placed) && placed != []
      requires rcpl == Reverse(placed)
      requires candidates != [] && forall y :: y in candidates <==> Eligible(H(), c, placed, y)
      ensures k < |candidates| && Next(H(), c, placed, candidates[k])
    {
      hide ByRule, Next, Eligible, SearchedInVain;
      ghost var h := H();
      ghost var n := SearchSucceeds(h, c, placed, candidates);
      NothingSearched(h, placed, candidates);
      var i := 0;
      while i < |rcpl|
        invariant i <= |placed| - 1 - n
        invariant SearchedInVain(h, placed, candidates, |placed| - i)
      {
        assert rcpl[i] == placed[|placed| - 1 - i];
        PlacedIsClass(h, c, placed, |placed| - 1 - i);
        var s := supers[rcpl[i]];
        k := 0;
        while k < |candidates|
          invariant k <= |candidates| && forall z :: z in candidates[..k] ==> z !in s
        {
          if candidates[k] in s {
            FoundIsChosen(h, c, placed, candidates, |placed| - 1 - i, candidates[k]);
            return;
          }
          k := k + 1;
        }
        assert candidates[..k] == candidates;
        SearchedOneMore(h, placed, candidates, |placed| - 1 - i);
        i := i + 1;
      }
      // The rule always chooses, so the search cannot fail.
      assert false;
    }

    method PickNext(candidates: seq<Class>, rcpl: seq<Class>, ghost c: Class, ghost placed: seq<Class>)
      returns (k: nat)
      requires H().Valid() && H().Has(c) && ByRule(H(), c, placed)
      requires rcpl == Reverse(placed) && NoDup(candidates)
      requires candidates != [] && forall y :: y in candidates <==> Eligible(H(), c, placed, y)
      ensures k < |candidates| && Next(H(), c, placed, candidates[k])
    {
      hide ByRule, Next, Eligible, NoDup;
      if |candidates| > 1 {
        SeveralCandidates(H(), c, placed, candidates);
        k := TieBreaker(candidates, rcpl, c, placed);
      } else {
        OneCandidate(H(), c, placed, candidates);
        k := 0;
      }
    }

    // Takes the edges of the class x, which has just been placed, away.
    method RemoveEdges(start: seq<Class>, x: Class, ghost placed: seq<Class>) returns (candidates: seq<Class>)
      requires x in after && after[x] == Targets(edges, x)
      requires forall e :: e in edges ==> e.1 in cpds
      requires Counted(cpds, edges, placed, Targets(edges, x), count, start)
      modifies `count
      ensures Counted(cpds, edges, placed, [], count, candidates)
    {
      candidates := start;
      var i := 0;
      while i < |after[x]|
        invariant i <= |after[x]|
        invariant Counted(cpds, edges, placed, after[x][i..], count, candidates)
      {
        var t := after[x][i];
        ghost var rest := after[x][i..];
        TargetsAreEdges(edges, x, t);
        RemoveStep(cpds, edges, placed, rest, count, candidates);
        assert rest[0] == t && rest[1..] == after[x][i + 1..];
        count := count[t := count[t] - 1];
        if count[t] == 0 {
          candidates := [t] + candidates;
        }
        i := i + 1;
      }
    }

    /** The precedence list of class c, or None if its constraints are inconsistent. */
    method SlowComputeCpl(c: Class) returns (r: Option<seq<Class>>)
      requires H().Valid() && H().Has(c)
      modifies `cpds, `classCount, `after, `count, `edges
      ensures IsPrecedenceList(H(), c, r)
    {
      hide ByRule, Next, Eligible, Counted, Full, Complete, Stuck, Ancestor, Precedes, Graph, NoDup, Reverse;
      cpds, classCount, after, count := [], 0, map[], map[];
      edges := [];
      EmptyGraph();
      ComputeCpd(c);
      ghost var h := H();
      GraphIsFull(h, c, cpds, edges, after, count);
      var candidates, rcpl := [c], [];
      ghost var placed: seq<Class> := [];
      ReverseNothing();
      var n := 0;
      while n < classCount
        invariant n == |placed| && rcpl == Reverse(placed)
        invariant supers == old(supers) && classCount == |cpds| && Full(h, c, cpds, edges)
        invariant ByRule(h, c, placed)
        invariant Counted(cpds, edges, placed, [], count, candidates)
        invariant forall x :: x in cpds ==> x in after && after[x] == Targets(edges, x)
        invariant forall e :: e in edges ==> e.1 in cpds
      {
        CandidatesEligible(h, c, cpds, edges, placed, count, candidates);
        CandidateIsNode(cpds, edges, placed, count, candidates);
        if candidates == [] {
          RanOut(h, c, cpds, edges, placed);
          return None;
        }
        var k := PickNext(candidates, rcpl, c, placed);
        var x := candidates[k];
        RemoveStarts(cpds, edges, placed, count, candidates, k);
        candidates := candidates[..k] + candidates[k + 1..];
        ReverseSnoc(placed, x);
        rcpl := [x] + rcpl;
        ByRuleExtend(h, c, placed, x);
        placed := placed + [x];
        candidates := RemoveEdges(candidates, x, placed);
        n := n + 1;
      }
      PlacedCount(h, c, cpds, edges, placed);
      ReverseTwice(placed);
      r := Some(Reverse(rcpl));
    }

    /** The precedence list of class c. It is put in front of a missing list if the only superclass
        has none, and then ok is false. */
    method ComputeCpl(c: Class) returns (ok: bool, r: Option<seq<Class>>)
      requires H().Valid() && H().Has(c) && c <= |cpl|
      requires forall s :: s in supers[c] ==> IsPrecedenceList(H(), s, cpl[s])
      modifies `cpds, `classCount, `after, `count, `edges
      ensures ok <==> (|supers[c]| == 1 ==> forall s :: s in supers[c] ==> cpl[s].Some?)
      ensures ok ==> IsPrecedenceList(H(), c, r)
    {
      var s := supers[c];
      ok := true;
      if s == [] {
        NoSupers(H(), c);
        r := Some([c]);
      } else if |s| == 1 {
        assert s[0] in s;
        ok := cpl[s[0]].Some?;
        r := None;
        if ok {
          ShortcutCorrect(H(), c, s[0], cpl[s[0]].value);
          r := Some([c] + cpl[s[0]].value);
        }
      } else {
        r := SlowComputeCpl(c);
      }
    }

    // Every class has its precedence list, if there is one, and knows the classes below it.
    ghost predicate Valid()
      reads this
    {
      && H().Valid()
      && |cpl| == |allSubclasses| == |sealed| == |library| == |supers|
      && (forall c :: 0 <= c < |cpl| ==> IsPrecedenceList(H(), c, cpl[c]))
      && KnowSubclasses(cpl, allSubclasses)
    }

    // Looks for a reason not to let the class inherit from these.
    method CheckSupers(superclasses: seq<Class>, lib: nat) returns (r: Option<SetupResult>)
      requires Valid()
      ensures r.None? ==> forall s :: s in superclasses ==> s < |supers| && (sealed[s] ==> library[s] == lib)
      ensures r.Some? ==> match r.value
                          case SealedSuper(s) => s in superclasses && s < |supers| && sealed[s] && library[s] != lib
                          case Uninitialized(s) => s in superclasses && s >= |supers|
                          case _ => false
    {
      var i := 0;
      while i < |superclasses|
        invariant i <= |superclasses|
        invariant forall s :: s in superclasses[..i] ==> s < |supers| && (sealed[s] ==> library[s] == lib)
      {
        var s := superclasses[i];
        if s < |supers| && sealed[s] && library[s] != lib {
          return Some(SealedSuper(s));
        }
        if s >= |supers| {
          return Some(Uninitialized(s));
        }
        i := i + 1;
        assert superclasses[..i] == superclasses[..i - 1] + [s];
      }
      assert superclasses[..i] == superclasses;
      return None;
    }

    // Tells every superclass of the class that was added last about it.
    method RecordSubclass(c: Class, l: seq<Class>)
      requires |cpl| == c + 1 && |allSubclasses| == c + 1 && cpl[c] == Some(l)
      requires KnowSubclasses(cpl[..c] + [None], allSubclasses)
      requires l != [] && l[0] == c && NoDup(l) && forall s :: s in l ==> s <= c
      requires allSubclasses[c] == []
      modifies `allSubclasses
      ensures |allSubclasses| == c + 1 && KnowSubclasses(cpl, allSubclasses)
    {
      hide KnowSubclasses;
      ghost var before := allSubclasses;
      var i := 1;
      while i < |l|
        invariant 1 <= i <= |l| && |allSubclasses| == c + 1
        invariant forall s :: 0 <= s <= c ==> allSubclasses[s] == (if s in l[1..i] then [c] else []) + before[s]
      {
        var s := l[i];
        assert s in l && s != c;
        assert l[1..i + 1] == l[1..i] + [s];
        assert s !in l[1..i];
        allSubclasses := allSubclasses[s := [c] + allSubclasses[s]];
        i := i + 1;
      }
      assert l[1..i] == l[1..];
      OneMoreSubclass(cpl[..c], before, allSubclasses, l);
      assert cpl == cpl[..c] + [Some(l)];
    }

    /** Adds a class with the given direct superclasses. A refused class is not added; one without a
        precedence list is, but has none. If its only superclass is such a class, nothing is right
        any more. */
    method SetupClassSupers(superclasses: seq<Class>, lib: nat, isSealed: bool) returns (r: SetupResult)
      requires Valid()
      modifies this
      ensures r.NoList? <==>
                && |superclasses| == 1 && superclasses[0] < |old(supers)|
                && (old(sealed[superclasses[0]]) ==> old(library[superclasses[0]]) == lib) && old(cpl[superclasses[0]]).None?
      ensures if r.NoList? then r.super == superclasses[0] else Valid()
      ensures !r.Refused() ==>
                && supers == old(supers) + [superclasses] && H().Valid()
                && (forall s :: s in superclasses ==> s < |old(supers)| && (old(sealed[s]) ==> old(library[s]) == lib))
                && (r.Ok? <==> exists l :: Consistent(H(), |old(supers)|, l))
      ensures r.Ok? || r.InconsistentCpl? ==>
                && r.cls == |old(supers)| && |cpl| == r.cls + 1 && cpl[..r.cls] == old(cpl)
                && (cpl[r.cls].Some? <==> r.Ok?)
                && sealed == old(sealed) + [isSealed] && library == old(library) + [lib]
      ensures r.InconsistentCpl? ==> allSubclasses == old(allSubclasses) + [[]]
      ensures r.Refused() ==> supers == old(supers) && cpl == old(cpl) && allSubclasses == old(allSubclasses)
                              && sealed == old(sealed) && library == old(library)
      ensures r.SealedSuper? ==> r.super in superclasses && r.super < |supers| && sealed[r.super] && library[r.super] != lib
      ensures r.Uninitialized? ==> r.super in superclasses && r.super >= |supers|
    {
      hide IsPrecedenceList, Consistent, KnowSubclasses;
      var refusal := CheckSupers(superclasses, lib);
      if refusal.Some? {
        return refusal.value;
      }
      var c := |supers|;
      ghost var h := H();
      supers := supers + [superclasses];
      HierarchyGrows(h, H(), cpl);
      var ok, l := ComputeCpl(c);
      if !ok {
        OnlySuperStuck(H(), c, superclasses[0]);
        return NoList(superclasses[0]);
      }
      PrecedenceListCorrect(H(), c, l);
      cpl := cpl + [l];
      sealed, library, allSubclasses := sealed + [isSealed], library + [lib], allSubclasses + [[]];
      assert cpl[..c] == old(cpl);
      UnknownSubclass(cpl[..c], old(allSubclasses));
      if l.None? {
        return InconsistentCpl(c);
      }
      ListBelow(H(), c, l.value);
      RecordSubclass(c, l.value);
      return Ok(c);
    }
  }

  function Members(r: Option<seq<Class>>): seq<Class> {
    if r.Some? then r.value else []
  }

  // allSubclasses[s] lists the classes other than s that have s in their precedence list.
  ghost predicate KnowSubclasses(cpl: seq<Option<seq<Class>>>, allSubclasses: seq<seq<Class>>) {
    && |allSubclasses| == |cpl|
    && (forall s: Class, d: Class {:trigger d in allSubclasses[s]} :: s < |cpl| ==>
         (d in allSubclasses[s] <==> d < |cpl| && d != s && s in Members(cpl[d])))
    && (forall s: Class, d: Class :: d < |cpl| && s in Members(cpl[d]) ==> s <= d)
  }

  // A class without a list is below no other, and none with a list is below a new one.
  lemma UnknownSubclass(cpl: seq<Option<seq<Class>>>, subs: seq<seq<Class>>)
    requires KnowSubclasses(cpl, subs)
    ensures KnowSubclasses(cpl + [None], subs + [[]])
  {
    var cpl', subs' := cpl + [None], subs + [[]];
    forall s: Class, d: Class | s < |cpl'| ensures d in subs'[s] <==> d < |cpl'| && d != s && s in Members(cpl'[d]) {
      if s < |cpl| { assert subs'[s] == subs[s]; }
    }
  }

  lemma OneMoreSubclass(cpl: seq<Option<seq<Class>>>, subs: seq<seq<Class>>, subs': seq<seq<Class>>, l: seq<Class>)
    requires KnowSubclasses(cpl + [None], subs) && |subs'| == |subs|
    requires l != [] && l[0] == |cpl| && forall s :: s in l ==> s <= |cpl|
    requires |cpl| !in l[1..] && forall s :: 0 <= s <= |cpl| ==> subs'[s] == (if s in l[1..] then [|cpl|] else []) + subs[s]
    ensures KnowSubclasses(cpl + [Some(l)], subs')
  {
    var c, cpl', before := |cpl|, cpl + [Some(l)], cpl + [None];
    assert l == [c] + l[1..];
    forall s: Class, d: Class | s <= c ensures d in subs'[s] <==> d <= c && d != s && s in Members(cpl'[d]) {
      assert d in subs[s] <==> d <= c && d != s && s in Members(before[d]);
      if d < c { assert before[d] == cpl'[d]; }
    }
    forall s: Class, d: Class | d <= c && s in Members(cpl'[d]) ensures s <= d {
      if d < c { assert before[d] == cpl'[d]; }
    }
  }

  lemma ListBelow(h: Hierarchy, c: Class, l: seq<Class>)
    requires h.Valid() && h.Has(c) && IsPrecedenceList(h, c, Some(l))
    ensures l != [] && l[0] == c && NoDup(l) && forall s :: s in l ==> s <= c
  {
    PrecedenceListCorrect(h, c, Some(l));
    forall s | s in l ensures s <= c { AncestorBelow(h, c, s); }
  }

  /** A class whose only superclass has no list would have to be refused as inconsistent. */
  lemma OnlySuperStuck(h: Hierarchy, c: Class, s: Class)
    requires h.Valid() && h.Has(c) && s in h.supers[c] && IsPrecedenceList(h, s, None)
    ensures forall l :: !Consistent(h, c, l)
  {
    hide Consistent;
    assert Ancestor(h, s, s) && Ancestor(h, c, s);
    var placed :| ByRule(h, s, placed) && Stuck(h, s, placed);
    forall l ensures !Consistent(h, c, l) { StuckInconsistent(h, c, s, placed, l); }
  }

  datatype SetupResult =
    | Ok(cls: Class)
    | SealedSuper(super: Class)
    | Uninitialized(super: Class)
    | InconsistentCpl(cls: Class)
    | NoList(super: Class)
  {
    predicate Refused() { SealedSuper? || Uninitialized? }
  }

  // A class that has the same superclass twice asks for an order that there cannot be, but the
  // next one inherits from it.
  method InheritFromStuck() returns (r: SetupResult)
    ensures r == NoList(1)
  {
    hide ClassTable.Valid, Consistent;
    var table := new ClassTable();
    var a := table.SetupClassSupers([], 0, false);
    assert !a.Refused() && table.supers == [[]] && table.sealed == [false];
    var b := table.SetupClassSupers([0, 0], 0, false);
    TwiceInconsistent(table.H());
    r := table.SetupClassSupers([1], 0, false);
  }

  lemma TwiceInconsistent(h: Hierarchy)
    requires h.Valid() && |h.supers| >= 2 && h.supers[1] == [0, 0]
    ensures forall l :: !Consistent(h, 1, l)
  {
    forall l ensures !Consistent(h, 1, l) {
      assert h.supers[1][0] == 0 && h.supers[1][1] == 0;
      assert Ancestor(h, 0, 0) && Ancestor(h, 1, 0) && Ancestor(h, 1, 1);
      assert Demands(h, 1, 0, 0) && Precedes(h, 1, 0, 0);
    }
  }

  lemma HierarchyGrows(h: Hierarchy, h': Hierarchy, cpl: seq<Option<seq<Class>>>)
    requires h.Valid() && |cpl| == |h.supers| && |h'.supers| == |h.supers| + 1 && Grows(h, h')
    requires forall s :: s in h'.supers[|h.supers|] ==> s < |h.supers|
    requires forall c :: 0 <= c < |cpl| ==> IsPrecedenceList(h, c, cpl[c])
    ensures h'.Valid() && forall c :: 0 <= c < |cpl| ==> IsPrecedenceList(h', c, cpl[c])
  {
    forall c, s | 0 <= c < |h'.supers| && s in h'.supers[c] ensures s < c {
      if c < |h.supers| { assert h'.supers[..|h.supers|][c] == h.supers[c]; }
    }
    forall c | 0 <= c < |cpl| ensures IsPrecedenceList(h', c, cpl[c]) {
      ListStays(h, h', c, cpl[c]);
    }
  }

  lemma ReverseNothing()
    ensures Reverse([]) == []
  {
  }

  lemma ReverseSnoc(l: seq<Class>, x: Class)
    ensures Reverse(l + [x]) == [x] + Reverse(l)
  {
  }

  lemma ReverseTwice(l: seq<Class>)
    ensures Reverse(Reverse(l)) == l
  {
  }
}
