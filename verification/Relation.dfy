/**
 How the variables of a program and the slots and value cells of the compiled program
 correspond.

 A variable that is closed over and assigned has a value cell. One that is closed over and
 never assigned is frozen: every copy of its slot stays right. Any other variable has only the
 one slot of its home.
 */
module Relation {
  import opened Wrappers
  import opened Programs
  import opened Semantics
  import opened Slots

  // The cells of places of the store, the values of frozen places, and the size of the store.
  datatype Link = Link(cells: map<nat, nat>, frozen: map<nat, Value>, size: nat)

  ghost predicate Extends(w: Link, w': Link) {
    && w.size <= w'.size
    && (forall l :: l in w.cells ==> l in w'.cells && w'.cells[l] == w.cells[l])
    && (forall l :: l in w.frozen ==> l in w'.frozen && w'.frozen[l] == w.frozen[l])
  }

  // Only new places get cells or are frozen.
  ghost predicate OnlyNew(w: Link, w': Link) {
    && (forall l :: l in w'.cells ==> l in w.cells || l >= w.size)
    && (forall l :: l in w'.frozen ==> l in w.frozen || l >= w.size)
  }

  function OuterEnv(t: Tables, m: nat): Lexenv
    requires m < |t.methods|
  {
    Lexenv(t.methods[m].parent, t.methods[m].outer, 0)
  }

  ghost predicate GoodMethod(t: Tables, m: Method) {
    && m.id < |t.methods|
    && RightMethod(t, m, OuterEnv(t, m.id))
    && ScopedBody(t, m.body, BodyEnv(t, m))
    && GoodEnv(t, BodyEnv(t, m))
    && OuterHomes(t, m.id)
  }

  // The variables of the outer environment are not the method's own.
  ghost predicate OuterHomes(t: Tables, m: nat)
    requires m < |t.methods|
  {
    forall i :: 0 <= i < |t.methods[m].outer| ==>
      t.methods[m].outer[i] < |t.bindings| && t.bindings[t.methods[m].outer[i]].home != m
  }

  // The environment has the variables of the bindings, in different places below n.
  ghost predicate EnvFits(t: Tables, bs: seq<nat>, env: seq<Entry>, n: nat) {
    && |bs| == |env|
    && (forall i :: 0 <= i < |bs| ==> bs[i] < |t.bindings| && env[i].id == t.bindings[bs[i]].id && env[i].loc < n)
    && (forall i, j :: 0 <= i < j < |env| ==> env[i].loc != env[j].loc)
  }

  /** Corresponding values. */
  ghost predicate R(t: Tables, w: Link, a: Value, b: Value)
    decreases b, 0
  {
    match a
    case Prim(_) => b == a
    case Vector(es) => b.Vector? && |b.elems| == |es| && forall i :: 0 <= i < |es| ==> R(t, w, es[i], b.elems[i])
    case Closure(mm, env) =>
      && b.Flat? && b.method_ == mm && GoodMethod(t, mm)
      && EnvFits(t, t.methods[mm.id].outer, env, w.size)
      && |b.slots| == |t.methods[mm.id].closes|
      && forall i, k :: 0 <= i < |env| && 0 <= k < |b.slots| && t.methods[mm.id].closes[k].binding == t.methods[mm.id].outer[i] ==>
           Holds(t, w, t.methods[mm.id].outer[i], env[i].loc, b.slots[|b.slots| - 1 - k])
    case _ => false
  }

  // The slot, or a copy of it, of a variable that is closed over.
  ghost predicate Holds(t: Tables, w: Link, b: nat, loc: nat, slot: Value)
    decreases slot, 1
  {
    b < |t.bindings| &&
    if t.bindings[b].Boxed() then loc in w.cells && slot == Cell(w.cells[loc])
    else loc in w.frozen && R(t, w, w.frozen[loc], slot)
  }

  lemma {:induction false} RExtends(t: Tables, w: Link, w': Link, a: Value, b: Value)
    requires R(t, w, a, b) && Extends(w, w')
    ensures R(t, w', a, b)
    decreases b, 0
  {
    match a
    case Prim(_) =>
    case Vector(es) =>
      forall i | 0 <= i < |es| ensures R(t, w', es[i], b.elems[i]) {
        RExtends(t, w, w', es[i], b.elems[i]);
      }
    case Closure(mm, env) =>
      var outer, closes := t.methods[mm.id].outer, t.methods[mm.id].closes;
      forall i, k | 0 <= i < |env| && 0 <= k < |b.slots| && closes[k].binding == outer[i]
        ensures Holds(t, w', outer[i], env[i].loc, b.slots[|b.slots| - 1 - k])
      {
        assert Holds(t, w, outer[i], env[i].loc, b.slots[|b.slots| - 1 - k]);
        HoldsExtends(t, w, w', outer[i], env[i].loc, b.slots[|b.slots| - 1 - k]);
      }
    case _ => assert false;
  }

  lemma {:induction false} HoldsExtends(t: Tables, w: Link, w': Link, b: nat, loc: nat, slot: Value)
    requires Holds(t, w, b, loc, slot) && Extends(w, w')
    ensures Holds(t, w', b, loc, slot)
    decreases slot, 1
  {
    if !t.bindings[b].Boxed() { RExtends(t, w, w', w.frozen[loc], slot); }
  }

  ghost predicate AllR(t: Tables, w: Link, vs: seq<Value>, us: seq<Value>) {
    |vs| == |us| && forall i :: 0 <= i < |vs| ==> R(t, w, vs[i], us[i])
  }

  lemma AllRExtends(t: Tables, w: Link, w': Link, vs: seq<Value>, us: seq<Value>)
    requires AllR(t, w, vs, us) && Extends(w, w')
    ensures AllR(t, w', vs, us)
  {
    forall i | 0 <= i < |vs| ensures R(t, w', vs[i], us[i]) { RExtends(t, w, w', vs[i], us[i]); }
  }

  // A variable has a value that corresponds, or none yet.
  ghost predicate MayR(t: Tables, w: Link, a: Value, b: Value) {
    a.Unset? || R(t, w, a, b)
  }

  /** Corresponding states. */
  ghost predicate StateR(t: Tables, w: Link, s: State, u: State) {
    && w.size == |s.mem|
    && (forall l :: l in w.cells ==> l < |s.mem| && w.cells[l] < |u.mem| && MayR(t, w, s.mem[l], u.mem[w.cells[l]]))
    && (forall l, k :: l in w.cells && k in w.cells && l != k ==> w.cells[l] != w.cells[k])
    && (forall l :: l in w.frozen ==> l < |s.mem| && l !in w.cells && s.mem[l] == w.frozen[l])
    && GlobalsR(t, w, s.globals, u.globals)
    && s.world == u.world
  }

  ghost predicate GlobalsR(t: Tables, w: Link, g: map<Id, Value>, h: map<Id, Value>) {
    && (forall id :: id in g <==> id in h)
    && (forall id :: id in g ==> R(t, w, g[id], h[id]))
  }

  // What the method m has of the variable of a binding.
  ghost predicate VarR(t: Tables, w: Link, m: nat, b: nat, loc: nat, fr: Frame, s: State) {
    && b < |t.bindings|
    && if t.bindings[b].home != m then
         forall k: nat :: ClosesOver(t, m, b, k) ==> Holds(t, w, b, loc, Peek(fr, ArgPlace(k)))
       else if t.bindings[b].closedOver then Holds(t, w, b, loc, Peek(fr, HomePlace(t, b)))
       else PrivateR(t, w, loc, Peek(fr, HomePlace(t, b)), s)
  }

  ghost predicate PrivateR(t: Tables, w: Link, loc: nat, slot: Value, s: State) {
    loc !in w.cells && loc !in w.frozen && loc < |s.mem| && MayR(t, w, s.mem[loc], slot)
  }

  predicate FrameFits(t: Tables, m: nat, fr: Frame) {
    m < |t.methods| && |fr.below| == t.methods[m].nargs + 6 && |fr.locals| == t.methods[m].frameSize
  }

  /** The frame has all variables of the environment, but for those from lo up to hi. */
  ghost predicate PartR(t: Tables, w: Link, lex: Lexenv, env: seq<Entry>, fr: Frame, s: State, lo: nat, hi: nat) {
    && FrameFits(t, lex.method_, fr)
    && EnvFits(t, lex.bindings, env, |s.mem|)
    && lo <= hi <= |env|
    && (forall i :: (0 <= i < lo || hi <= i < |env|) ==> VarR(t, w, lex.method_, lex.bindings[i], env[i].loc, fr, s))
    && (forall i :: lo <= i < hi ==> env[i].loc !in w.cells && env[i].loc !in w.frozen)
  }

  ghost predicate FrameR(t: Tables, w: Link, lex: Lexenv, env: seq<Entry>, fr: Frame, s: State) {
    PartR(t, w, lex, env, fr, s, 0, 0)
  }

  // The places of variables that only the slot of their home holds.
  ghost function Own(t: Tables, lex: Lexenv, env: seq<Entry>): set<nat>
    requires |lex.bindings| == |env| && ValidIndex(t, lex.bindings)
  {
    set i | 0 <= i < |env| && t.bindings[lex.bindings[i]].home == lex.method_
            && !t.bindings[lex.bindings[i]].closedOver :: env[i].loc
  }

  // What evaluation does to the store: it changes places with cells, new ones, and its own.
  ghost predicate Steps(t: Tables, w: Link, w': Link, own: set<nat>, s: State, s': State, u': State) {
    && Extends(w, w') && OnlyNew(w, w')
    && w.size == |s.mem| <= |s'.mem|
    && (forall l :: 0 <= l < |s.mem| && l !in w.cells && l !in own ==> s'.mem[l] == s.mem[l])
    && StateR(t, w', s', u')
  }

  lemma StepsTransitive(t: Tables, w: Link, w1: Link, w2: Link, own: set<nat>, s: State, s1: State, u1: State, s2: State, u2: State)
    requires Steps(t, w, w1, own, s, s1, u1) && Steps(t, w1, w2, own, s1, s2, u2)
    ensures Steps(t, w, w2, own, s, s2, u2)
  {
    hide R;
    forall l | 0 <= l < |s.mem| && l !in w.cells && l !in own ensures s2.mem[l] == s.mem[l] {
      assert l !in w1.cells;
    }
  }

  // A call that does not touch its own variables leaves the frame right.
  lemma FrameStays(t: Tables, w: Link, w': Link, lex: Lexenv, env: seq<Entry>, fr: Frame, s: State, s': State, u': State)
    requires FrameR(t, w, lex, env, fr, s) && ValidIndex(t, lex.bindings) && Steps(t, w, w', {}, s, s', u')
    ensures FrameR(t, w', lex, env, fr, s')
  {
    hide R, Holds;
    forall i | 0 <= i < |env| ensures VarR(t, w', lex.method_, lex.bindings[i], env[i].loc, fr, s') {
      VarStays(t, w, w', lex.method_, lex.bindings[i], env[i].loc, fr, s, s');
    }
  }

  lemma VarStays(t: Tables, w: Link, w': Link, m: nat, b: nat, loc: nat, fr: Frame, s: State, s': State)
    requires VarR(t, w, m, b, loc, fr, s) && Extends(w, w') && OnlyNew(w, w') && w.size == |s.mem| <= |s'.mem|
    requires loc !in w.cells && loc < |s.mem| ==> s'.mem[loc] == s.mem[loc]
    ensures VarR(t, w', m, b, loc, fr, s')
  {
    hide R, Holds;
    if t.bindings[b].home != m {
      forall k: nat | ClosesOver(t, m, b, k) ensures Holds(t, w', b, loc, Peek(fr, ArgPlace(k))) {
        HoldsExtends(t, w, w', b, loc, Peek(fr, ArgPlace(k)));
      }
    } else if t.bindings[b].closedOver {
      HoldsExtends(t, w, w', b, loc, Peek(fr, HomePlace(t, b)));
    } else if !s.mem[loc].Unset? {
      RExtends(t, w, w', s.mem[loc], Peek(fr, HomePlace(t, b)));
    }
  }

  // What builtins, tests and argument lists see of corresponding values.

  lemma {:induction false} LooksAlike(t: Tables, w: Link, a: Value, b: Value)
    requires R(t, w, a, b)
    ensures Look(a) == Look(b) && (a == FALSE <==> b == FALSE) && !a.Unset?
    decreases b
  {
    if a.Vector? {
      forall i | 0 <= i < |a.elems| ensures Look(a.elems[i]) == Look(b.elems[i]) {
        LooksAlike(t, w, a.elems[i], b.elems[i]);
      }
    }
  }

  // Nothing can be told from outside between corresponding states.
  lemma StatesAlike(t: Tables, w: Link, s: State, u: State)
    requires StateR(t, w, s, u)
    ensures SeenAlike(s, u)
  {
    hide R, Look;
    forall id | id in s.globals ensures Look(s.globals[id]) == Look(u.globals[id]) {
      LooksAlike(t, w, s.globals[id], u.globals[id]);
    }
  }

  lemma AllLookAlike(t: Tables, w: Link, vs: seq<Value>, us: seq<Value>)
    requires AllR(t, w, vs, us)
    ensures Views(vs) == Views(us)
  {
    forall i | 0 <= i < |vs| ensures Look(vs[i]) == Look(us[i]) { LooksAlike(t, w, vs[i], us[i]); }
  }

  lemma FirstR(t: Tables, w: Link, vs: seq<Value>, us: seq<Value>)
    requires AllR(t, w, vs, us)
    ensures R(t, w, First(vs), First(us))
  {
  }

  lemma PickedR(t: Tables, w: Link, picks: seq<Pick>, vs: seq<Value>, us: seq<Value>)
    requires AllR(t, w, vs, us)
    ensures AllR(t, w, Picked(picks, vs), Picked(picks, us))
  {
  }

  lemma WantedR(t: Tables, w: Link, vs: seq<Value>, us: seq<Value>, n: nat, rest: bool)
    requires AllR(t, w, vs, us)
    ensures AllR(t, w, Wanted(vs, n, rest), Wanted(us, n, rest))
  {
    var a, b := if n <= |vs| then vs[n..] else [], if n <= |us| then us[n..] else [];
    assert R(t, w, Vector(a), Vector(b));
    forall i | 0 <= i < n ensures R(t, w, if i < |vs| then vs[i] else FALSE, if i < |us| then us[i] else FALSE) {}
  }

  lemma {:induction false} KeyValueR(t: Tables, w: Link, k: Key, vs: seq<Value>, us: seq<Value>)
    requires AllR(t, w, vs, us)
    ensures R(t, w, KeyValue(k, vs), KeyValue(k, us))
    decreases |vs|
  {
    if |vs| >= 2 {
      assert R(t, w, vs[0], us[0]) && R(t, w, vs[1], us[1]);
      assert AllR(t, w, vs[2..], us[2..]);
      KeyValueR(t, w, k, vs[2..], us[2..]);
    }
  }

  lemma ParamValuesR(t: Tables, w: Link, m: Method, vs: seq<Value>, us: seq<Value>)
    requires AllR(t, w, vs, us)
    ensures ParamValues(m, vs).Some? <==> ParamValues(m, us).Some?
    ensures ParamValues(m, vs).Some? ==> AllR(t, w, ParamValues(m, vs).value, ParamValues(m, us).value)
  {
    hide R;
    var n := |m.required|;
    if n <= |vs| {
      var rest, rest' := vs[n..], us[n..];
      assert AllR(t, w, rest, rest');
      assert R(t, w, Vector(rest), Vector(rest')) by { VectorR(t, w, rest, rest'); }
      assert AllR(t, w, vs[..n], us[..n]);
      forall i | 0 <= i < |m.keys| ensures R(t, w, KeyValue(m.keys[i], rest), KeyValue(m.keys[i], rest')) {
        KeyValueR(t, w, m.keys[i], rest, rest');
      }
    }
  }

  lemma VectorR(t: Tables, w: Link, vs: seq<Value>, us: seq<Value>)
    requires AllR(t, w, vs, us)
    ensures R(t, w, Vector(vs), Vector(us))
  {
  }

  // Names find corresponding bindings and variables.
  lemma {:induction false} LookupFits(t: Tables, bs: seq<nat>, env: seq<Entry>, n: nat, id: Id) returns (i: nat)
    requires EnvFits(t, bs, env, n) && ValidIndex(t, bs)
    ensures Find(t, bs, id).None? ==> Lookup(env, id).None?
    ensures Find(t, bs, id).Some? ==>
              i < |env| && Find(t, bs, id) == Some(bs[i]) && Lookup(env, id) == Some(env[i].loc)
  {
    i := 0;
    if bs != [] && t.bindings[bs[0]].id != id {
      assert EnvFits(t, bs[1..], env[1..], n) && ValidIndex(t, bs[1..]) by { TailFits(t, bs, env, n); }
      var j := LookupFits(t, bs[1..], env[1..], n, id);
      i := j + 1;
    }
  }

  lemma TailFits(t: Tables, bs: seq<nat>, env: seq<Entry>, n: nat)
    requires EnvFits(t, bs, env, n) && bs != []
    ensures EnvFits(t, bs[1..], env[1..], n) && ValidIndex(t, bs[1..])
  {
    forall i | 0 <= i < |bs| - 1
      ensures bs[1..][i] < |t.bindings| && env[1..][i].id == t.bindings[bs[1..][i]].id && env[1..][i].loc < n
    {
      assert bs[1..][i] == bs[i + 1] && env[1..][i] == env[i + 1];
    }
    forall i, j | 0 <= i < j < |env| - 1 ensures env[1..][i].loc != env[1..][j].loc {
      assert env[1..][i] == env[i + 1] && env[1..][j] == env[j + 1];
    }
  }

  // The places of a frame.

  predicate InFrame(fr: Frame, p: Place) {
    match p
    case ArgPlace(k) => 0 <= |fr.below| - 6 - k < |fr.below|
    case LocalPlace(k) => 0 <= k < |fr.locals|
  }

  lemma PokePeek(fr: Frame, p: Place, q: Place, v: Value)
    requires InFrame(fr, p)
    ensures Peek(Poke(fr, p, v), p) == v
    ensures p != q ==> Peek(Poke(fr, p, v), q) == Peek(fr, q)
    ensures Poke(fr, p, Peek(fr, p)) == fr
    ensures |Poke(fr, p, v).below| == |fr.below| && |Poke(fr, p, v).locals| == |fr.locals|
  {
    assert Poke(fr, p, Peek(fr, p)) == fr by {
      match p
      case ArgPlace(k) => var i := |fr.below| - 6 - k; assert fr.below[i := fr.below[i]] == fr.below;
      case LocalPlace(k) => assert fr.locals[k := fr.locals[k]] == fr.locals;
    }
  }

  // A binding of the method has a place in its frame.
  lemma HomeInFrame(t: Tables, lex: Lexenv, i: nat, fr: Frame)
    requires GoodEnv(t, lex) && i < |lex.bindings| && t.bindings[lex.bindings[i]].home == lex.method_
    requires FrameFits(t, lex.method_, fr)
    ensures InFrame(fr, HomePlace(t, lex.bindings[i]))
  {
    var b := t.bindings[lex.bindings[i]];
    assert b.argument ==> ArgumentSlot(t, b);
    assert !b.argument ==> b.offset < lex.depth;
    assert RoomFor(t, lex.method_, lex.depth);
  }

  // It differs from the place of another binding of the method, and from those of the variables
  // that the method closes over.
  lemma HomePlacesDiffer(t: Tables, lex: Lexenv, i: nat, j: nat, k: nat)
    requires GoodEnv(t, lex) && i < |lex.bindings| && j < |lex.bindings| && i != j
    requires t.bindings[lex.bindings[i]].home == lex.method_
    ensures t.bindings[lex.bindings[j]].home == lex.method_ ==> HomePlace(t, lex.bindings[i]) != HomePlace(t, lex.bindings[j])
    ensures k < |t.methods[lex.method_].closes| ==> HomePlace(t, lex.bindings[i]) != ArgPlace(k)
  {
    var b := t.bindings[lex.bindings[i]];
    assert b.argument ==> ArgumentSlot(t, b);
    if i < j {
      assert SlotsDiffer(t, lex.method_, lex.bindings[i], lex.bindings[j]);
    } else {
      assert SlotsDiffer(t, lex.method_, lex.bindings[j], lex.bindings[i]);
    }
  }
}
