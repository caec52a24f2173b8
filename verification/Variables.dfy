/**
 New variables, and assigned ones: a step of the program, and the step of the compiled program
 that keeps frames and value cells in correspondence with the store.
 */
module Variables {
  import opened Wrappers
  import opened Programs
  import opened Analysis
  import opened Semantics
  import opened Slots
  import opened Relation

  // A variable with a value cell is assigned.
  lemma AssignCell(t: Tables, w: Link, lex: Lexenv, env: seq<Entry>, fr: Frame, loc: nat, v: Value, v': Value, s: State, u: State)
    requires StateR(t, w, s, u) && FrameR(t, w, lex, env, fr, s) && ValidIndex(t, lex.bindings)
    requires loc in w.cells && R(t, w, v, v')
    ensures var s', u' := Store(s, loc, v), CellSet(u, Cell(w.cells[loc]), v');
            Steps(t, w, w, Own(t, lex, env), s, s', u') && FrameR(t, w, lex, env, fr, s')
  {
    hide R, Holds;
    var s' := Store(s, loc, v);
    forall i | 0 <= i < |env| ensures VarR(t, w, lex.method_, lex.bindings[i], env[i].loc, fr, s') {
      VarStays(t, w, w, lex.method_, lex.bindings[i], env[i].loc, fr, s, s');
    }
  }

  // A variable that only its home has is assigned.
  lemma AssignPrivate(t: Tables, w: Link, lex: Lexenv, env: seq<Entry>, fr: Frame, i: nat, v: Value, v': Value, s: State, u: State)
    requires GoodEnv(t, lex) && StateR(t, w, s, u) && FrameR(t, w, lex, env, fr, s) && i < |lex.bindings|
    requires t.bindings[lex.bindings[i]].home == lex.method_ && !t.bindings[lex.bindings[i]].closedOver
    requires R(t, w, v, v')
    ensures var s', fr' := Store(s, env[i].loc, v), Poke(fr, HomePlace(t, lex.bindings[i]), v');
            Steps(t, w, w, Own(t, lex, env), s, s', u) && FrameR(t, w, lex, env, fr', s')
  {
    hide R, Holds, GoodEnv;
    var b, loc := lex.bindings[i], env[i].loc;
    var s', fr' := Store(s, loc, v), Poke(fr, HomePlace(t, b), v');
    assert VarR(t, w, lex.method_, b, loc, fr, s);
    HomeInFrame(t, lex, i, fr);
    PokePeek(fr, HomePlace(t, b), HomePlace(t, b), v');
    forall j | 0 <= j < |env| ensures VarR(t, w, lex.method_, lex.bindings[j], env[j].loc, fr', s') {
      if j != i {
        assert env[j].loc != loc;
        VarStays(t, w, w, lex.method_, lex.bindings[j], env[j].loc, fr, s, s');
        OtherVar(t, w, lex, i, j, env[j].loc, fr, v', s');
      }
    }
    assert loc in Own(t, lex, env);
  }

  // Writing the slot of one variable leaves the others.
  lemma OtherVar(t: Tables, w: Link, lex: Lexenv, i: nat, j: nat, loc: nat, fr: Frame, v: Value, s: State)
    requires GoodEnv(t, lex) && FrameFits(t, lex.method_, fr) && i < |lex.bindings| && j < |lex.bindings| && i != j
    requires t.bindings[lex.bindings[i]].home == lex.method_
    requires VarR(t, w, lex.method_, lex.bindings[j], loc, fr, s)
    ensures VarR(t, w, lex.method_, lex.bindings[j], loc, Poke(fr, HomePlace(t, lex.bindings[i]), v), s)
  {
    hide R, Holds, GoodEnv, Peek, Poke;
    EnvInRange(t, lex);
    var p := HomePlace(t, lex.bindings[i]);
    HomeInFrame(t, lex, i, fr);
    HomePlacesDiffer(t, lex, i, j, 0);
    PokePeek(fr, p, HomePlace(t, lex.bindings[j]), v);
    forall k: nat | ClosesOver(t, lex.method_, lex.bindings[j], k)
      ensures Peek(Poke(fr, p, v), ArgPlace(k)) == Peek(fr, ArgPlace(k))
    {
      HomePlacesDiffer(t, lex, i, j, k);
      PokePeek(fr, p, ArgPlace(k), v);
    }
  }

  // The link after a variable has got its slot.
  function LinkNew(t: Tables, w: Link, b: nat, loc: nat, v: Value, cell: nat): Link
    requires b < |t.bindings|
  {
    if t.bindings[b].Boxed() then w.(cells := w.cells[loc := cell])
    else if t.bindings[b].closedOver then w.(frozen := w.frozen[loc := v])
    else w
  }

  lemma LinkNewFacts(t: Tables, w: Link, b: nat, loc: nat, v: Value, cell: nat)
    requires b < |t.bindings| && loc !in w.cells && loc !in w.frozen
    ensures var w' := LinkNew(t, w, b, loc, v, cell);
            && Extends(w, w') && w'.size == w.size
            && (forall l :: l in w'.cells ==> l in w.cells || l == loc)
            && (forall l :: l in w'.frozen ==> l in w.frozen || l == loc)
  {
  }

  // What goes in the slot.
  function NewSlotValue(t: Tables, b: nat, v: Value, u: State): Value
    requires b < |t.bindings|
  {
    if t.bindings[b].Boxed() then Cell(|u.mem|) else v
  }

  lemma PopNewFacts(t: Tables, b: nat, v: Value, fr: Frame, u: State)
    requires b < |t.bindings|
    ensures PopNew(t, b, v, fr, u) == (Poke(fr, HomePlace(t, b), NewSlotValue(t, b, v, u)), PopNew(t, b, v, Frame([], []), u).1)
  {
  }

  // The slot of the next new variable gets its value.
  lemma AddVar(t: Tables, w: Link, lex: Lexenv, env: seq<Entry>, fr: Frame, s: State, u: State, lo: nat, hi: nat, v': Value)
    requires GoodEnv(t, lex) && StateR(t, w, s, u) && PartR(t, w, lex, env, fr, s, lo, hi) && lo < hi
    requires t.bindings[lex.bindings[lo]].home == lex.method_ && MayR(t, w, s.mem[env[lo].loc], v')
    requires s.mem[env[lo].loc].Unset? ==> t.bindings[lex.bindings[lo]].Boxed()
    ensures var b, loc := lex.bindings[lo], env[lo].loc;
            var w' := LinkNew(t, w, b, loc, s.mem[loc], |u.mem|);
            var (fr', u') := PopNew(t, b, v', fr, u);
            && StateR(t, w', s, u') && PartR(t, w', lex, env, fr', s, lo + 1, hi)
            && Extends(w, w') && w'.size == w.size
            && (forall l :: l in w'.cells ==> l in w.cells || l == loc)
            && (forall l :: l in w'.frozen ==> l in w.frozen || l == loc)
  {
    hide R, Holds, GoodEnv, Peek, Poke, LinkNew, PopNew, StateR, VarR;
    var b, loc := lex.bindings[lo], env[lo].loc;
    var w' := LinkNew(t, w, b, loc, s.mem[loc], |u.mem|);
    var slot := NewSlotValue(t, b, v', u);
    var fr' := Poke(fr, HomePlace(t, b), slot);
    LinkNewFacts(t, w, b, loc, s.mem[loc], |u.mem|);
    PopNewFacts(t, b, v', fr, u);
    NewState(t, w, b, loc, s, u, v');
    MayRExtends(t, w, w', s.mem[loc], v');
    HomeInFrame(t, lex, lo, fr);
    PokePeek(fr, HomePlace(t, b), HomePlace(t, b), slot);
    NewVar(t, w, b, loc, lex.method_, fr', s, v', |u.mem|);
    forall j | (0 <= j < lo || hi <= j < |env|) ensures VarR(t, w', lex.method_, lex.bindings[j], env[j].loc, fr', s) {
      assert env[j].loc != loc;
      OtherVar(t, w, lex, lo, j, env[j].loc, fr, slot, s);
      VarLinked(t, w, w', lex.method_, lex.bindings[j], env[j].loc, loc, fr', s);
    }
  }

  lemma NewVar(t: Tables, w: Link, b: nat, loc: nat, m: nat, fr: Frame, s: State, v': Value, cell: nat)
    requires b < |t.bindings| && t.bindings[b].home == m && loc < |s.mem| && loc !in w.cells && loc !in w.frozen
    requires Peek(fr, HomePlace(t, b)) == if t.bindings[b].Boxed() then Cell(cell) else v'
    requires t.bindings[b].Boxed() || R(t, LinkNew(t, w, b, loc, s.mem[loc], cell), s.mem[loc], v')
    ensures VarR(t, LinkNew(t, w, b, loc, s.mem[loc], cell), m, b, loc, fr, s)
  {
    hide R, Peek;
  }

  lemma VarLinked(t: Tables, w: Link, w': Link, m: nat, b: nat, loc: nat, new_: nat, fr: Frame, s: State)
    requires VarR(t, w, m, b, loc, fr, s) && Extends(w, w') && loc != new_
    requires forall l :: l in w'.cells ==> l in w.cells || l == new_
    requires forall l :: l in w'.frozen ==> l in w.frozen || l == new_
    ensures VarR(t, w', m, b, loc, fr, s)
  {
    hide R, Holds, Peek;
    if t.bindings[b].home != m {
      forall k: nat | ClosesOver(t, m, b, k) ensures Holds(t, w', b, loc, Peek(fr, ArgPlace(k))) {
        HoldsExtends(t, w, w', b, loc, Peek(fr, ArgPlace(k)));
      }
    } else if t.bindings[b].closedOver {
      HoldsExtends(t, w, w', b, loc, Peek(fr, HomePlace(t, b)));
    } else if !s.mem[loc].Unset? {
      RExtends(t, w, w', s.mem[loc], Peek(fr, HomePlace(t, b)));
    }
  }

  // The state after a variable has got its slot, and perhaps a cell.
  lemma NewState(t: Tables, w: Link, b: nat, loc: nat, s: State, u: State, v': Value)
    requires StateR(t, w, s, u) && b < |t.bindings| && loc < |s.mem| && loc !in w.cells && loc !in w.frozen
    requires if t.bindings[b].Boxed() then MayR(t, w, s.mem[loc], v') else R(t, w, s.mem[loc], v')
    ensures StateR(t, LinkNew(t, w, b, loc, s.mem[loc], |u.mem|), s, PopNew(t, b, v', Frame([], []), u).1)
  {
    hide R, Peek, Poke, StateR;
    if t.bindings[b].Boxed() {
      NewCell(t, w, loc, s, u, v');
    } else if t.bindings[b].closedOver {
      NewFrozen(t, w, loc, s, u);
    }
  }

  lemma NewCell(t: Tables, w: Link, loc: nat, s: State, u: State, v': Value)
    requires StateR(t, w, s, u) && loc < |s.mem| && loc !in w.cells && loc !in w.frozen && MayR(t, w, s.mem[loc], v')
    ensures StateR(t, w.(cells := w.cells[loc := |u.mem|]), s, u.(mem := u.mem + [v']))
  {
    hide R;
    var w', u' := w.(cells := w.cells[loc := |u.mem|]), u.(mem := u.mem + [v']);
    assert Extends(w, w');
    forall l | l in w'.cells ensures l < |s.mem| && w'.cells[l] < |u'.mem| && MayR(t, w', s.mem[l], u'.mem[w'.cells[l]]) {
      MayRExtends(t, w, w', s.mem[l], if l == loc then v' else u.mem[w.cells[l]]);
    }
    GlobalsExtend(t, w, w', s.globals, u.globals);
  }

  lemma MayRExtends(t: Tables, w: Link, w': Link, a: Value, b: Value)
    requires MayR(t, w, a, b) && Extends(w, w')
    ensures MayR(t, w', a, b)
  {
    if !a.Unset? { RExtends(t, w, w', a, b); }
  }

  lemma NewFrozen(t: Tables, w: Link, loc: nat, s: State, u: State)
    requires StateR(t, w, s, u) && loc < |s.mem| && loc !in w.cells && loc !in w.frozen
    ensures StateR(t, w.(frozen := w.frozen[loc := s.mem[loc]]), s, u)
  {
    hide R;
    var w' := w.(frozen := w.frozen[loc := s.mem[loc]]);
    assert Extends(w, w');
    forall l | l in w'.cells ensures MayR(t, w', s.mem[l], u.mem[w'.cells[l]]) {
      MayRExtends(t, w, w', s.mem[l], u.mem[w.cells[l]]);
    }
    GlobalsExtend(t, w, w', s.globals, u.globals);
  }

  lemma GlobalsExtend(t: Tables, w: Link, w': Link, g: map<Id, Value>, h: map<Id, Value>)
    requires GlobalsR(t, w, g, h) && Extends(w, w')
    ensures GlobalsR(t, w', g, h)
  {
    hide R;
    forall id | id in g ensures R(t, w', g[id], h[id]) { RExtends(t, w, w', g[id], h[id]); }
  }

  ghost predicate OnlyFrom(w: Link, w': Link, n: nat) {
    && (forall l :: l in w'.cells ==> l in w.cells || l >= n)
    && (forall l :: l in w'.frozen ==> l in w.frozen || l >= n)
  }

  // The first entries of an environment, in new places, are the variables of new bindings of the
  // method.
  ghost predicate NewEntries(t: Tables, lex: Lexenv, env: seq<Entry>, n: nat, base: nat) {
    && n <= |env| == |lex.bindings| && ValidIndex(t, lex.bindings)
    && forall i :: 0 <= i < n ==> t.bindings[lex.bindings[i]].home == lex.method_ && env[i].loc >= base
  }

  // The bindings numbered from `first`, the newest first.
  predicate ListedDown(bs: seq<nat>, first: nat, n: nat) {
    n <= |bs| && forall i :: 0 <= i < n ==> bs[i] == first + n - 1 - i
  }

  // The variables of the first entries have values that correspond to us, the last one first.
  ghost predicate ValuesR(t: Tables, w: Link, s: State, env: seq<Entry>, us: seq<Value>) {
    && |us| <= |env|
    && forall i :: 0 <= i < |us| ==> env[i].loc < |s.mem| && R(t, w, s.mem[env[i].loc], us[|us| - 1 - i])
  }

  lemma ValuesRExtends(t: Tables, w: Link, w': Link, s: State, env: seq<Entry>, us: seq<Value>)
    requires ValuesR(t, w, s, env, us) && Extends(w, w')
    ensures ValuesR(t, w', s, env, us)
  {
    hide R;
    forall i | 0 <= i < |us| ensures R(t, w', s.mem[env[i].loc], us[|us| - 1 - i]) {
      RExtends(t, w, w', s.mem[env[i].loc], us[|us| - 1 - i]);
    }
  }

  /** The values of a let, the last one first. */
  lemma {:induction false} PopAllSim(t: Tables, w: Link, lex: Lexenv, env: seq<Entry>, fr: Frame, s: State, u: State,
                                     first: nat, us: seq<Value>, n: nat, base: nat) returns (w': Link)
    requires GoodEnv(t, lex) && StateR(t, w, s, u) && n <= |us| && NewEntries(t, lex, env, |us|, base)
    requires PartR(t, w, lex, env, fr, s, |us| - n, |us|)
    requires ListedDown(lex.bindings, first, |us|) && ValuesR(t, w, s, env, us)
    ensures var (fr', u') := PopAll(t, first, us, n, fr, u);
            && StateR(t, w', s, u') && FrameR(t, w', lex, env, fr', s)
            && Extends(w, w') && w'.size == w.size && OnlyFrom(w, w', base)
    decreases n
  {
    hide R, GoodEnv, StateR, VarR, PopNew;
    w' := w;
    if n > 0 {
      var lo := |us| - n;
      var b, loc := lex.bindings[lo], env[lo].loc;
      assert b == first + n - 1;
      NotUnset(t, w, s.mem[loc], us[n - 1]);
      AddVar(t, w, lex, env, fr, s, u, lo, |us|, us[n - 1]);
      var w1 := LinkNew(t, w, b, loc, s.mem[loc], |u.mem|);
      var (fr1, u1) := PopNew(t, b, us[n - 1], fr, u);
      ValuesRExtends(t, w, w1, s, env, us);
      w' := PopAllSim(t, w1, lex, env, fr1, s, u1, first, us, n - 1, base);
    }
  }

  lemma NotUnset(t: Tables, w: Link, a: Value, b: Value)
    requires R(t, w, a, b)
    ensures !a.Unset? && MayR(t, w, a, b)
  {
  }

  /** The parameters of a method, already in their slots. */
  lemma {:induction false} BoxParamsSim(t: Tables, w: Link, lex: Lexenv, env: seq<Entry>, fr: Frame, s: State, u: State,
                                        first: nat, us: seq<Value>, n: nat, base: nat) returns (w': Link)
    requires GoodEnv(t, lex) && StateR(t, w, s, u) && n <= |us| && NewEntries(t, lex, env, |us|, base)
    requires PartR(t, w, lex, env, fr, s, |us| - n, |us|)
    requires ListedDown(lex.bindings, first, |us|) && ValuesR(t, w, s, env, us)
    requires forall i :: |us| - n <= i < |us| ==> Peek(fr, HomePlace(t, lex.bindings[i])) == us[|us| - 1 - i]
    ensures var (fr', u') := BoxParams(t, first, n, fr, u);
            && StateR(t, w', s, u') && FrameR(t, w', lex, env, fr', s)
            && Extends(w, w') && w'.size == w.size && OnlyFrom(w, w', base)
    decreases n
  {
    hide R, GoodEnv, StateR, VarR, PopNew, Peek, Poke;
    w' := w;
    if n > 0 {
      var lo := |us| - n;
      var b, loc := lex.bindings[lo], env[lo].loc;
      assert b == first + n - 1;
      NotUnset(t, w, s.mem[loc], us[n - 1]);
      AddVar(t, w, lex, env, fr, s, u, lo, |us|, us[n - 1]);
      var w1 := LinkNew(t, w, b, loc, s.mem[loc], |u.mem|);
      var (fr1, u1) := PopNew(t, b, us[n - 1], fr, u);
      BoxIsPop(t, lex, lo, fr, u);
      ValuesRExtends(t, w, w1, s, env, us);
      forall i | lo < i < |us| ensures Peek(fr1, HomePlace(t, lex.bindings[i])) == us[|us| - 1 - i] {
        PopKeeps(t, lex, lo, i, us[n - 1], fr, u);
      }
      w' := BoxParamsSim(t, w1, lex, env, fr1, s, u1, first, us, n - 1, base);
    }
  }

  // Boxing a parameter in its slot is like popping its value into the slot.
  lemma BoxIsPop(t: Tables, lex: Lexenv, i: nat, fr: Frame, u: State)
    requires GoodEnv(t, lex) && FrameFits(t, lex.method_, fr) && i < |lex.bindings|
    requires t.bindings[lex.bindings[i]].home == lex.method_
    ensures var b := lex.bindings[i];
            PopNew(t, b, Peek(fr, HomePlace(t, b)), fr, u) ==
            if t.bindings[b].Boxed() then
              (Poke(fr, HomePlace(t, b), Cell(|u.mem|)), u.(mem := u.mem + [Peek(fr, HomePlace(t, b))]))
            else (fr, u)
  {
    hide GoodEnv, Peek, Poke;
    EnvInRange(t, lex);
    var p := HomePlace(t, lex.bindings[i]);
    HomeInFrame(t, lex, i, fr);
    PokePeek(fr, p, p, Peek(fr, p));
  }

  lemma PopKeeps(t: Tables, lex: Lexenv, i: nat, j: nat, v: Value, fr: Frame, u: State)
    requires GoodEnv(t, lex) && FrameFits(t, lex.method_, fr) && i < |lex.bindings| && j < |lex.bindings| && i != j
    requires t.bindings[lex.bindings[i]].home == lex.method_ && t.bindings[lex.bindings[j]].home == lex.method_
    ensures Peek(PopNew(t, lex.bindings[i], v, fr, u).0, HomePlace(t, lex.bindings[j])) == Peek(fr, HomePlace(t, lex.bindings[j]))
  {
    hide GoodEnv, Peek, Poke;
    EnvInRange(t, lex);
    HomeInFrame(t, lex, i, fr);
    HomePlacesDiffer(t, lex, i, j, 0);
    var p, slot := HomePlace(t, lex.bindings[i]), NewSlotValue(t, lex.bindings[i], v, u);
    PopNewFacts(t, lex.bindings[i], v, fr, u);
    PokePeek(fr, p, HomePlace(t, lex.bindings[j]), slot);
  }

  /** The variables of local methods, before the methods are made. */
  lemma {:induction false} MakeCellsSim(t: Tables, w: Link, lex: Lexenv, env: seq<Entry>, fr: Frame, s: State, u: State,
                                        first: nat, n: nat, hi: nat, base: nat) returns (w': Link)
    requires GoodEnv(t, lex) && StateR(t, w, s, u) && n <= hi && NewEntries(t, lex, env, hi, base)
    requires PartR(t, w, lex, env, fr, s, 0, hi)
    requires forall i :: 0 <= i < hi ==> lex.bindings[i] == first + i && t.bindings[lex.bindings[i]].isSet
    requires forall i :: 0 <= i < hi ==> s.mem[env[i].loc].Unset?
    ensures var (fr', u') := MakeCells(t, first, n, fr, u);
            && StateR(t, w', s, u') && PartR(t, w', lex, env, fr', s, n, hi)
            && Extends(w, w') && w'.size == w.size && OnlyFrom(w, w', base)
  {
    hide R, GoodEnv, StateR, Peek, Poke, VarR;
    w' := w;
    if n > 0 {
      var w1 := MakeCellsSim(t, w, lex, env, fr, s, u, first, n - 1, hi, base);
      var (fr1, u1) := MakeCells(t, first, n - 1, fr, u);
      var b, loc := lex.bindings[n - 1], env[n - 1].loc;
      if t.bindings[b].closedOver {
        AddVar(t, w1, lex, env, fr1, s, u1, n - 1, hi, FALSE) by { assert MayR(t, w1, s.mem[loc], FALSE); }
        w' := LinkNew(t, w1, b, loc, s.mem[loc], |u1.mem|);
      } else {
        UnsetVar(t, w1, b, loc, lex.method_, fr1, s);
        w' := w1;
      }
    }
  }

  lemma UnsetVar(t: Tables, w: Link, b: nat, loc: nat, m: nat, fr: Frame, s: State)
    requires b < |t.bindings| && t.bindings[b].home == m && !t.bindings[b].closedOver
    requires loc < |s.mem| && s.mem[loc].Unset? && loc !in w.cells && loc !in w.frozen
    ensures VarR(t, w, m, b, loc, fr, s)
  {
  }

  // New places at the end of the store.
  lemma StoreGrows(t: Tables, w: Link, s: State, u: State, vs: seq<Value>)
    requires StateR(t, w, s, u)
    ensures var w' := w.(size := w.size + |vs|);
            Extends(w, w') && StateR(t, w', s.(mem := s.mem + vs), u)
  {
    hide R;
    var w', s' := w.(size := w.size + |vs|), s.(mem := s.mem + vs);
    forall l | l in w'.cells ensures MayR(t, w', s'.mem[l], u.mem[w'.cells[l]]) {
      MayRExtends(t, w, w', s.mem[l], u.mem[w.cells[l]]);
    }
    GlobalsExtend(t, w, w', s.globals, u.globals);
  }
}
