/**
 Stack discipline: whatever path execution takes through the code of an expression, the stack
 has the same depth at every instruction, and ends with the wanted number of values on it.
 */
module StackDepth {
  import opened Wrappers
  import opened Bytecode
  import opened Programs
  import opened Slots
  import opened Codegen

  function WantedCount(want: nat): nat {
    want / 2 + want % 2
  }

  function Pops(i: Instr): nat {
    match i
    case Op(op) =>
      if op in {RETURN_SINGLE, MAKE_VALUE_CELL, VALUE_CELL_REF, CHECK_TYPE_FUNCTION, DUP} then 1
      else if op in {PUSH_NIL, PUSH_UNBOUND, PUSH_TRUE, PUSH_FALSE} then 0
      else 2
    case MakeMethod(taken) => taken + 4
    case OpArg(op, arg) => if op in {POP_ARG, POP_LOCAL, POP_VALUE} then 1 else if op == CALL_TAIL then arg + 1 else 0
    case CallForSingle(n) => n + 1
    case CallForMany(n, _) => n + 1
    case OpWants(op, _) => if op == DOT_FOR_MANY then 2 else 1
    case PushByte(_) => 0
    case PushInt(_) => 0
    case Branch(op, _) => if op == CONDITIONAL_BRANCH then 1 else 0
  }

  function Pushes(i: Instr): nat {
    match i
    case Op(op) =>
      if op in {VALUE_CELL_SET, RETURN_SINGLE, DOT_TAIL} then 0 else if op == DUP then 2 else 1
    case MakeMethod(_) => 1
    case OpArg(op, _) => if op in {POP_ARG, POP_LOCAL, POP_VALUE, CALL_TAIL} then 0 else 1
    case CallForSingle(_) => 1
    case CallForMany(_, w) => WantedCount(w)
    case OpWants(_, w) => WantedCount(w)
    case PushByte(_) => 1
    case PushInt(_) => 1
    case Branch(_, _) => 0
  }

  // Execution does not go on with the next instruction.
  predicate Stops(i: Instr) {
    i in {Op(RETURN_SINGLE), Op(DOT_TAIL)} || (i.OpArg? && i.op == CALL_TAIL) || (i.Branch? && i.op == BRANCH)
  }

  predicate Ends(code: seq<Instr>) {
    code != [] && Stops(code[|code| - 1])
  }

  // A branch goes to an instruction of the code where the stack has that depth, or to an
  // allowed place outside.
  ghost predicate TargetOk(code: seq<Instr>, start: int, ext: set<(int, nat)>, depths: seq<nat>, target: int, depth: nat)
    requires |depths| == |code| + 1
  {
    (target, depth) in ext ||
    exists j :: 0 <= j < |code| && start + Size(code[..j]) == target && depths[j] == depth
  }

  ghost predicate StepOk(code: seq<Instr>, start: int, ext: set<(int, nat)>, depths: seq<nat>, i: nat)
    requires |depths| == |code| + 1 && i < |code|
  {
    && depths[i] >= Pops(code[i])
    && (!Stops(code[i]) ==> depths[i + 1] == depths[i] - Pops(code[i]) + Pushes(code[i]))
    && (code[i].Branch? ==>
          TargetOk(code, start, ext, depths, start + Size(code[..i + 1]) + code[i].disp, depths[i] - Pops(code[i])))
  }

  /** The code at byte `start` has the given depth before every instruction, on all paths. */
  ghost predicate Disciplined(code: seq<Instr>, start: int, ext: set<(int, nat)>, depths: seq<nat>) {
    |depths| == |code| + 1 && forall i :: 0 <= i < |code| ==> StepOk(code, start, ext, depths, i)
  }

  // Code that goes from one depth to another.
  ghost predicate Piece(code: seq<Instr>, start: int, d: nat, e: nat, ext: set<(int, nat)>, depths: seq<nat>) {
    && Disciplined(code, start, ext + {(start + Size(code), e)}, depths)
    && depths[0] == d && depths[|code|] == e
  }

  // Code that returns, or goes elsewhere.
  ghost predicate TailPiece(code: seq<Instr>, start: int, d: nat, ext: set<(int, nat)>, depths: seq<nat>) {
    Disciplined(code, start, ext, depths) && depths[0] == d && Ends(code)
  }

  function EndDepth(want: Want, d: nat): nat {
    match want
    case Tail => d
    case Func => d + 1
    case Count(n, rest) => d + n + (if rest then 1 else 0)
  }

  ghost predicate Frag(code: seq<Instr>, start: int, want: Want, d: nat, ext: set<(int, nat)>, depths: seq<nat>) {
    if want.Tail? then TailPiece(code, start, d, ext, depths) else Piece(code, start, d, EndDepth(want, d), ext, depths)
  }

  lemma {:induction false} TargetInLeft(a: seq<Instr>, b: seq<Instr>, start: int, ext: set<(int, nat)>, ext': set<(int, nat)>,
                     da: seq<nat>, db: seq<nat>, target: int, depth: nat)
    requires |da| == |a| + 1 && |db| == |b| + 1 && da[|a|] == db[0]
    requires TargetOk(a, start, ext + {(start + Size(a), da[|a|])}, da, target, depth)
    requires ext <= ext' && (b != [] || (start + Size(a), da[|a|]) in ext')
    ensures TargetOk(a + b, start, ext', da + db[1..], target, depth)
  {
    hide Size;
    if (target, depth) !in ext {
      if exists j :: 0 <= j < |a| && start + Size(a[..j]) == target && da[j] == depth {
        var j :| 0 <= j < |a| && start + Size(a[..j]) == target && da[j] == depth;
        assert (a + b)[..j] == a[..j] && (da + db[1..])[j] == depth;
      } else if b != [] {
        assert (a + b)[..|a|] == a && (da + db[1..])[|a|] == depth;
      }
    }
  }

  lemma TargetInRight(a: seq<Instr>, b: seq<Instr>, start: int, ext: set<(int, nat)>,
                      da: seq<nat>, db: seq<nat>, target: int, depth: nat)
    requires |da| == |a| + 1 && |db| == |b| + 1 && da[|a|] == db[0]
    requires TargetOk(b, start + Size(a), ext, db, target, depth)
    ensures TargetOk(a + b, start, ext, da + db[1..], target, depth)
  {
    if (target, depth) !in ext {
      var j :| 0 <= j < |b| && start + Size(a) + Size(b[..j]) == target && db[j] == depth;
      assert (a + b)[..|a| + j] == a + b[..j];
      SizeOfParts(a, b[..j]);
      assert (da + db[1..])[|a| + j] == db[j];
    }
  }

  lemma StepInLeft(a: seq<Instr>, b: seq<Instr>, start: int, ext: set<(int, nat)>, ext': set<(int, nat)>,
                   da: seq<nat>, db: seq<nat>, i: nat)
    requires |da| == |a| + 1 && |db| == |b| + 1 && da[|a|] == db[0] && i < |a|
    requires StepOk(a, start, ext + {(start + Size(a), da[|a|])}, da, i)
    requires ext <= ext' && (b != [] || (start + Size(a), da[|a|]) in ext')
    ensures StepOk(a + b, start, ext', da + db[1..], i)
  {
    hide Pops, Pushes, Stops, TargetOk;
    assert (a + b)[..i + 1] == a[..i + 1];
    if a[i].Branch? {
      TargetInLeft(a, b, start, ext, ext', da, db, start + Size(a[..i + 1]) + a[i].disp, da[i] - Pops(a[i]));
    }
  }

  lemma StepInRight(a: seq<Instr>, b: seq<Instr>, start: int, ext: set<(int, nat)>, da: seq<nat>, db: seq<nat>, k: nat)
    requires |da| == |a| + 1 && |db| == |b| + 1 && da[|a|] == db[0] && k < |b|
    requires StepOk(b, start + Size(a), ext, db, k)
    ensures StepOk(a + b, start, ext, da + db[1..], |a| + k)
  {
    hide Pops, Pushes, Stops, TargetOk;
    assert (a + b)[..|a| + k + 1] == a + b[..k + 1];
    SizeOfParts(a, b[..k + 1]);
    var depths := da + db[1..];
    assert depths[|a| + k] == db[k] && depths[|a| + k + 1] == db[k + 1];
    if b[k].Branch? {
      TargetInRight(a, b, start, ext, da, db, start + Size(a) + Size(b[..k + 1]) + b[k].disp, db[k] - Pops(b[k]));
    }
  }

  // One piece of code after another.
  lemma JoinDisciplined(a: seq<Instr>, b: seq<Instr>, start: int, ext: set<(int, nat)>, ext': set<(int, nat)>,
                        da: seq<nat>, db: seq<nat>)
    requires |da| == |a| + 1 && |db| == |b| + 1 && da[|a|] == db[0]
    requires Disciplined(a, start, ext + {(start + Size(a), da[|a|])}, da) && Disciplined(b, start + Size(a), ext', db)
    requires ext <= ext' && (b != [] || (start + Size(a), da[|a|]) in ext')
    ensures Disciplined(a + b, start, ext', da + db[1..])
  {
    hide StepOk;
    forall i | 0 <= i < |a + b| ensures StepOk(a + b, start, ext', da + db[1..], i) {
      if i < |a| {
        StepInLeft(a, b, start, ext, ext', da, db, i);
      } else {
        StepInRight(a, b, start, ext', da, db, i - |a|);
      }
    }
  }

  lemma Join(a: seq<Instr>, b: seq<Instr>, start: int, d: nat, e: nat, f: nat, ext: set<(int, nat)>,
             da: seq<nat>, db: seq<nat>) returns (depths: seq<nat>)
    requires Piece(a, start, d, e, ext, da) && Piece(b, start + Size(a), e, f, ext, db)
    ensures Piece(a + b, start, d, f, ext, depths) && |depths| == |a| + |b| + 1 && depths[|a|] == e
  {
    hide StepOk;
    SizeOfParts(a, b);
    JoinDisciplined(a, b, start, ext, ext + {(start + Size(a) + Size(b), f)}, da, db);
    depths := da + db[1..];
  }

  lemma JoinTail(a: seq<Instr>, b: seq<Instr>, start: int, d: nat, e: nat, ext: set<(int, nat)>,
                 da: seq<nat>, db: seq<nat>) returns (depths: seq<nat>)
    requires Piece(a, start, d, e, ext, da) && TailPiece(b, start + Size(a), e, ext, db)
    ensures TailPiece(a + b, start, d, ext, depths) && |depths| == |a| + |b| + 1 && depths[|a|] == e
  {
    hide StepOk, Stops;
    JoinDisciplined(a, b, start, ext, ext, da, db);
    depths := da + db[1..];
    assert (a + b)[|a + b| - 1] == b[|b| - 1];
  }

  // A piece before a fragment.
  lemma JoinFrag(a: seq<Instr>, b: seq<Instr>, start: int, d: nat, e: nat, want: Want, want': Want, ext: set<(int, nat)>,
                 da: seq<nat>, db: seq<nat>) returns (depths: seq<nat>)
    requires Piece(a, start, d, e, ext, da) && Frag(b, start + Size(a), want, e, ext, db)
    requires want.Tail? == want'.Tail? && (!want.Tail? ==> EndDepth(want, e) == EndDepth(want', d))
    ensures Frag(a + b, start, want', d, ext, depths) && |depths| == |a| + |b| + 1 && depths[|a|] == e
  {
    hide Piece, TailPiece;
    if want.Tail? {
      depths := JoinTail(a, b, start, d, e, ext, da, db);
    } else {
      depths := Join(a, b, start, d, e, EndDepth(want, e), ext, da, db);
    }
  }

  // More places outside may be allowed.
  lemma MoreTargets(code: seq<Instr>, start: int, ext: set<(int, nat)>, ext': set<(int, nat)>, depths: seq<nat>)
    requires Disciplined(code, start, ext, depths) && ext <= ext'
    ensures Disciplined(code, start, ext', depths)
  {
    hide Pops, Pushes, Stops;
    forall i | 0 <= i < |code| ensures StepOk(code, start, ext', depths, i) {
      assert StepOk(code, start, ext, depths, i);
    }
  }

  lemma MoreFrag(code: seq<Instr>, start: int, want: Want, d: nat, ext: set<(int, nat)>, ext': set<(int, nat)>, depths: seq<nat>)
    requires Frag(code, start, want, d, ext, depths) && ext <= ext'
    ensures Frag(code, start, want, d, ext', depths)
  {
    hide StepOk;
    if want.Tail? {
      MoreTargets(code, start, ext, ext', depths);
    } else {
      var end := {(start + Size(code), EndDepth(want, d))};
      MoreTargets(code, start, ext + end, ext' + end, depths);
    }
  }

  // A place outside that is an instruction of the code is not outside.
  lemma TargetInside(code: seq<Instr>, start: int, ext: set<(int, nat)>, depths: seq<nat>, j: nat)
    requires j < |code| && |depths| == |code| + 1
    requires Disciplined(code, start, ext + {(start + Size(code[..j]), depths[j])}, depths)
    ensures Disciplined(code, start, ext, depths)
  {
    hide Pops, Pushes, Stops;
    forall i | 0 <= i < |code| ensures StepOk(code, start, ext, depths, i) {
      assert StepOk(code, start, ext + {(start + Size(code[..j]), depths[j])}, depths, i);
    }
  }

  lemma InsideFrag(code: seq<Instr>, start: int, want: Want, d: nat, ext: set<(int, nat)>, depths: seq<nat>, j: nat, x: nat)
    requires |depths| == |code| + 1 && (if want.Tail? then j < |code| else j <= |code|) && depths[j] == x
    requires Frag(code, start, want, d, ext + {(start + Size(code[..j]), x)}, depths)
    ensures Frag(code, start, want, d, ext, depths)
  {
    hide StepOk, Stops;
    var inside := {(start + Size(code[..j]), x)};
    if want.Tail? {
      TargetInside(code, start, ext, depths, j);
    } else {
      var end := {(start + Size(code), EndDepth(want, d))};
      assert code[..|code|] == code;
      if j < |code| {
        assert ext + inside + end == ext + end + inside;
        TargetInside(code, start, ext + end, depths, j);
      } else {
        assert ext + inside + end == ext + end;
      }
    }
  }

  // Code without branches, from depth d on.
  predicate Runs(code: seq<Instr>, d: nat) {
    code != [] ==>
    && d >= Pops(code[0]) && !code[0].Branch?
    && (Stops(code[0]) ==> |code| == 1)
    && Runs(code[1..], d - Pops(code[0]) + Pushes(code[0]))
  }

  function DepthAfter(code: seq<Instr>, d: nat): nat
    requires Runs(code, d)
  {
    if code == [] then d else DepthAfter(code[1..], d - Pops(code[0]) + Pushes(code[0]))
  }

  lemma {:induction false} RunsParts(a: seq<Instr>, b: seq<Instr>, d: nat)
    requires Runs(a, d) && Runs(b, DepthAfter(a, d)) && !Ends(a)
    ensures Runs(a + b, d) && DepthAfter(a + b, d) == DepthAfter(b, DepthAfter(a, d))
    decreases |a|
  {
    hide Pops, Pushes, Stops;
    if a == [] {
      assert a + b == b;
    } else {
      assert (a + b)[1..] == a[1..] + b;
      assert a[1..] != [] ==> a[1..][|a| - 2] == a[|a| - 1];
      RunsParts(a[1..], b, d - Pops(a[0]) + Pushes(a[0]));
    }
  }

  lemma {:induction false} Straight(code: seq<Instr>, start: int, d: nat, ext: set<(int, nat)>) returns (depths: seq<nat>)
    requires Runs(code, d)
    ensures Disciplined(code, start, ext, depths) && |depths| == |code| + 1
    ensures depths[0] == d && depths[|code|] == DepthAfter(code, d)
    decreases |code|
  {
    hide Pops, Pushes, Stops;
    if code == [] {
      depths := [d];
    } else {
      var rest := Straight(code[1..], start + InstrSize(code[0]), d - Pops(code[0]) + Pushes(code[0]), ext);
      depths := [d] + rest;
      forall i | 0 <= i < |code| ensures StepOk(code, start, ext, depths, i) {
        if i > 0 {
          assert StepOk(code[1..], start + InstrSize(code[0]), ext, rest, i - 1);
          assert code[1..][i - 1] == code[i];
          NoBranch(code, d, i);
        }
      }
    }
  }

  lemma {:induction false} NoBranch(code: seq<Instr>, d: nat, i: nat)
    requires Runs(code, d) && i < |code|
    ensures !code[i].Branch?
    decreases i
  {
    if i > 0 { NoBranch(code[1..], d - Pops(code[0]) + Pushes(code[0]), i - 1); }
  }

  // Code without branches as a fragment.
  lemma StraightFrag(code: seq<Instr>, start: int, want: Want, d: nat, e: nat, ext: set<(int, nat)>) returns (depths: seq<nat>)
    requires Runs(code, e) && (if want.Tail? then Ends(code) else DepthAfter(code, e) == EndDepth(want, d))
    ensures want.Tail? ==> TailPiece(code, start, e, ext, depths)
    ensures !want.Tail? ==> Piece(code, start, e, EndDepth(want, d), ext, depths)
  {
    hide StepOk, Stops;
    if want.Tail? {
      depths := Straight(code, start, e, ext);
    } else {
      depths := Straight(code, start, e, ext + {(start + Size(code), EndDepth(want, d))});
    }
  }

  lemma WantCodeCount(want: Want)
    requires want.Count?
    ensures WantedCount(WantCode(want)) == want.required + (if want.rest then 1 else 0)
  {
  }

  // After one value, it is what is wanted.
  lemma CanonicalizeRuns(want: Want, d: nat)
    ensures Runs(Canonicalize(want), d + 1)
    ensures if want.Tail? then Ends(Canonicalize(want)) else DepthAfter(Canonicalize(want), d + 1) == EndDepth(want, d)
    ensures !want.Tail? ==> !Ends(Canonicalize(want))
  {
    var code := Canonicalize(want);
    if want.Count? { WantCodeCount(want); }
    if code != [] {
      assert code[1..] == [];
      assert Runs(code[1..], d + 1 - Pops(code[0]) + Pushes(code[0]));
    }
  }

  // Code that makes one value, before canonicalizing it.
  lemma ValueRuns(code: seq<Instr>, want: Want, d: nat)
    requires Runs(code, d) && DepthAfter(code, d) == d + 1 && !Ends(code)
    ensures Runs(code + Canonicalize(want), d)
    ensures if want.Tail? then Ends(code + Canonicalize(want)) else DepthAfter(code + Canonicalize(want), d) == EndDepth(want, d)
  {
    hide Runs, DepthAfter;
    CanonicalizeRuns(want, d);
    RunsParts(code, Canonicalize(want), d);
  }

  lemma OneRuns(i: Instr, d: nat)
    requires d >= Pops(i) && !i.Branch?
    ensures Runs([i], d) && DepthAfter([i], d) == d - Pops(i) + Pushes(i) && (Ends([i]) <==> Stops(i))
  {
    assert [i][1..] == [] && Runs([], d - Pops(i) + Pushes(i));
  }

  lemma CallRuns(n: nat, want: Want, d: nat)
    ensures Runs(CallCode(n, want), d + n + 1)
    ensures if want.Tail? then Ends(CallCode(n, want)) else DepthAfter(CallCode(n, want), d + n + 1) == EndDepth(want, d)
  {
    hide Runs, DepthAfter;
    match want
    case Tail => OneRuns(OpArg(CALL_TAIL, n), d + n + 1);
    case Func =>
      OneRuns(CallForSingle(n), d + n + 1);
      OneRuns(Op(CHECK_TYPE_FUNCTION), d + 1);
      RunsParts([CallForSingle(n)], [Op(CHECK_TYPE_FUNCTION)], d + n + 1);
      assert [CallForSingle(n)] + [Op(CHECK_TYPE_FUNCTION)] == CallCode(n, want);
    case Count(_, _) =>
      WantCodeCount(want);
      OneRuns(CallCode(n, want)[0], d + n + 1);
  }

  lemma DotRuns(want: Want, d: nat)
    ensures Runs(DotCode(want), d + 2)
    ensures if want.Tail? then Ends(DotCode(want)) else DepthAfter(DotCode(want), d + 2) == EndDepth(want, d)
  {
    hide Runs, DepthAfter;
    match want
    case Tail => OneRuns(Op(DOT_TAIL), d + 2);
    case Func =>
      OneRuns(Op(DOT_FOR_SINGLE), d + 2);
      OneRuns(Op(CHECK_TYPE_FUNCTION), d + 1);
      RunsParts([Op(DOT_FOR_SINGLE)], [Op(CHECK_TYPE_FUNCTION)], d + 2);
      assert [Op(DOT_FOR_SINGLE)] + [Op(CHECK_TYPE_FUNCTION)] == DotCode(want);
    case Count(_, _) =>
      WantCodeCount(want);
      OneRuns(DotCode(want)[0], d + 2);
  }

  lemma PlaceEffects(p: Place)
    ensures Pops(PushPlace(p)) == 0 && Pushes(PushPlace(p)) == 1 && !Stops(PushPlace(p))
    ensures Pops(PopPlace(p)) == 1 && Pushes(PopPlace(p)) == 0 && !Stops(PopPlace(p))
    ensures !PushPlace(p).Branch? && !PopPlace(p).Branch?
  {
  }

  lemma VarRuns(t: Tables, id: Id, ref: Ref, want: Want, cs: seq<Constant>, d: nat)
    ensures var code := GenVar(t, id, ref, want, cs).instrs;
            && Runs(code, d)
            && if want.Tail? then Ends(code) else DepthAfter(code, d) == EndDepth(want, d)
  {
    hide Runs, DepthAfter, Canonicalize;
    if ref.binding.Some? {
      RunsNothing(d);
      if want != NOTHING {
        var b, push := Noted(t, ref.binding.value), PushPlace(RefPlace(t, ref.binding.value, ref));
        PlaceEffects(RefPlace(t, ref.binding.value, ref));
        OneRuns(push, d);
        OneRuns(Op(VALUE_CELL_REF), d + 1);
        RunsParts([push], [Op(VALUE_CELL_REF)], d);
        var read := [push] + (if b.Boxed() then [Op(VALUE_CELL_REF)] else []);
        assert [push] + [] == [push];
        if want.Func? && b.function_ {
          assert read + [] == read;
        } else {
          ValueRuns(read, want, d);
        }
      }
    } else {
      var i := FindVariable(cs, id).0;
      OneRuns(OpArg(PUSH_FUNCTION, i), d);
      OneRuns(OpArg(PUSH_VALUE, i), d);
      ValueRuns([OpArg(PUSH_VALUE, i)], want, d);
    }
  }

  lemma RunsNothing(d: nat)
    ensures Runs([], d) && DepthAfter([], d) == d
  {
  }

  lemma LitRuns(l: Literal, want: Want, cs: seq<Constant>, d: nat)
    ensures var code := GenLit(l, want, cs).instrs;
            && Runs(code, d)
            && if want.Tail? then Ends(code) else DepthAfter(code, d) == EndDepth(want, d)
  {
    hide Runs, DepthAfter, Canonicalize;
    RunsNothing(d);
    var push := match l
      case TrueLit => Op(PUSH_TRUE)
      case FalseLit => Op(PUSH_FALSE)
      case UnboundLit => Op(PUSH_UNBOUND)
      case NilLit => Op(PUSH_NIL)
      case IntLit(n) => if -128 < n < 128 then PushByte(n) else PushInt(n)
      case OtherLit(_) => OpArg(PUSH_CONSTANT, |cs|);
    OneRuns(push, d);
    ValueRuns([push], want, d);
  }

  // The assignment, with the value on the stack.
  lemma StoreRuns(t: Tables, id: Id, ref: Ref, want: Want, cs: seq<Constant>, d: nat)
    ensures var code := GenStore(t, id, ref, want, cs).instrs;
            && Runs(code, d + 1)
            && if want.Tail? then Ends(code) else DepthAfter(code, d + 1) == EndDepth(want, d)
  {
    hide Runs, DepthAfter, Canonicalize;
    var dup := if want == NOTHING then [] else [Op(DUP)];
    var rest := if want.Func? || want == NOTHING then [] else Canonicalize(want);
    var p := if ref.binding.Some? then RefPlace(t, ref.binding.value, ref) else LocalPlace(0);
    var cell := ref.binding.Some? && (Noted(t, ref.binding.value).home != ref.home || Noted(t, ref.binding.value).closedOver);
    var store := if cell then [PushPlace(p), Op(VALUE_CELL_SET)]
                 else if ref.binding.Some? then [PopPlace(p)] else [OpArg(POP_VALUE, FindVariable(cs, id).0)];
    var kept := d + (if want == NOTHING then 0 else 1);
    StorePlaceRuns(p, FindVariable(cs, id).0, kept);
    OneRuns(Op(DUP), d + 1);
    RunsNothing(d + 1);
    RunsParts(dup, store, d + 1);
    CanonicalizeRuns(want, d);
    RunsNothing(kept);
    RunsParts(dup + store, rest, d + 1);
    assert dup + store + rest == GenStore(t, id, ref, want, cs).instrs;
  }

  lemma StorePlaceRuns(p: Place, i: nat, d: nat)
    ensures var a, b, c := [PushPlace(p), Op(VALUE_CELL_SET)], [PopPlace(p)], [OpArg(POP_VALUE, i)];
            && Runs(a, d + 1) && DepthAfter(a, d + 1) == d && !Ends(a)
            && Runs(b, d + 1) && DepthAfter(b, d + 1) == d && !Ends(b)
            && Runs(c, d + 1) && DepthAfter(c, d + 1) == d && !Ends(c)
  {
    hide Runs, DepthAfter, PushPlace, PopPlace;
    PlaceEffects(p);
    OneRuns(PushPlace(p), d + 1);
    OneRuns(Op(VALUE_CELL_SET), d + 2);
    RunsParts([PushPlace(p)], [Op(VALUE_CELL_SET)], d + 1);
    assert [PushPlace(p)] + [Op(VALUE_CELL_SET)] == [PushPlace(p), Op(VALUE_CELL_SET)];
    OneRuns(PopPlace(p), d + 1);
    OneRuns(OpArg(POP_VALUE, i), d + 1);
  }

  lemma {:induction false} PopsRun(t: Tables, first: nat, n: nat, d: nat)
    ensures Runs(GenPops(t, first, n), d + n) && DepthAfter(GenPops(t, first, n), d + n) == d && !Ends(GenPops(t, first, n))
    decreases n
  {
    hide Runs, DepthAfter, PopPlace;
    if n == 0 {
      RunsNothing(d);
    } else {
      var b := first + n - 1;
      var p := HomePlace(t, b);
      var box := if Noted(t, b).Boxed() then [Op(MAKE_VALUE_CELL)] else [];
      PopsRun(t, first, n - 1, d);
      PlaceEffects(p);
      OneRuns(Op(MAKE_VALUE_CELL), d + n);
      RunsNothing(d + n);
      OneRuns(PopPlace(p), d + n);
      RunsParts(box, [PopPlace(p)], d + n);
      RunsParts(box + [PopPlace(p)], GenPops(t, first, n - 1), d + n);
    }
  }

  lemma CellRuns(p: Place, d: nat)
    ensures var code := [Op(PUSH_FALSE), Op(MAKE_VALUE_CELL), PopPlace(p)];
            Runs(code, d) && DepthAfter(code, d) == d && !Ends(code)
  {
    hide Runs, DepthAfter, PopPlace;
    PlaceEffects(p);
    OneRuns(Op(PUSH_FALSE), d);
    OneRuns(Op(MAKE_VALUE_CELL), d + 1);
    OneRuns(PopPlace(p), d + 1);
    RunsParts([Op(PUSH_FALSE)], [Op(MAKE_VALUE_CELL)], d);
    RunsParts([Op(PUSH_FALSE)] + [Op(MAKE_VALUE_CELL)], [PopPlace(p)], d);
    assert [Op(PUSH_FALSE)] + [Op(MAKE_VALUE_CELL)] + [PopPlace(p)] == [Op(PUSH_FALSE), Op(MAKE_VALUE_CELL), PopPlace(p)];
  }

  lemma {:induction false} CellsRun(t: Tables, first: nat, n: nat, d: nat)
    ensures Runs(GenCells(t, first, n), d) && DepthAfter(GenCells(t, first, n), d) == d && !Ends(GenCells(t, first, n))
    decreases n
  {
    hide Runs, DepthAfter, PopPlace;
    RunsNothing(d);
    if n > 0 {
      var b := first + n - 1;
      CellsRun(t, first, n - 1, d);
      CellRuns(HomePlace(t, b), d);
      var more := if Noted(t, b).closedOver then [Op(PUSH_FALSE), Op(MAKE_VALUE_CELL), PopPlace(HomePlace(t, b))] else [];
      RunsParts(GenCells(t, first, n - 1), more, d);
    }
  }

  lemma BoxRuns(p: Place, d: nat)
    ensures var code := [PushPlace(p), Op(MAKE_VALUE_CELL), PopPlace(p)];
            Runs(code, d) && DepthAfter(code, d) == d && !Ends(code)
  {
    hide Runs, DepthAfter, PopPlace, PushPlace;
    PlaceEffects(p);
    OneRuns(PushPlace(p), d);
    OneRuns(Op(MAKE_VALUE_CELL), d + 1);
    OneRuns(PopPlace(p), d + 1);
    RunsParts([PushPlace(p)], [Op(MAKE_VALUE_CELL)], d);
    RunsParts([PushPlace(p)] + [Op(MAKE_VALUE_CELL)], [PopPlace(p)], d);
    assert [PushPlace(p)] + [Op(MAKE_VALUE_CELL)] + [PopPlace(p)] == [PushPlace(p), Op(MAKE_VALUE_CELL), PopPlace(p)];
  }

  lemma {:induction false} BoxesRun(t: Tables, first: nat, n: nat, d: nat)
    ensures Runs(GenBoxes(t, first, n), d) && DepthAfter(GenBoxes(t, first, n), d) == d && !Ends(GenBoxes(t, first, n))
    decreases n
  {
    hide Runs, DepthAfter, PopPlace, PushPlace;
    RunsNothing(d);
    if n > 0 {
      var b := first + n - 1;
      var p := HomePlace(t, b);
      BoxesRun(t, first, n - 1, d);
      BoxRuns(p, d);
      var box := if Noted(t, b).Boxed() then [PushPlace(p), Op(MAKE_VALUE_CELL), PopPlace(p)] else [];
      RunsParts(box, GenBoxes(t, first, n - 1), d);
    }
  }

  lemma {:induction false} PushesRun(l: seq<Instr>, d: nat)
    requires forall i :: 0 <= i < |l| ==> Pops(l[i]) == 0 && Pushes(l[i]) == 1 && !Stops(l[i]) && !l[i].Branch?
    ensures Runs(l, d) && DepthAfter(l, d) == d + |l| && !Ends(l)
    decreases |l|
  {
    hide Pops, Pushes, Stops;
    if l != [] {
      forall i | 0 <= i < |l| - 1 ensures l[1..][i] == l[i + 1] {}
      PushesRun(l[1..], d + 1);
    }
  }

  // A repeat is only where the loop's body has nothing on the stack yet.
  predicate WellLooped(e: Expr, tail: bool)
    decreases e
  {
    match e
    case Var(_, _) => true
    case Lit(_) => true
    case Call(f, args) => WellLooped(f, false) && WellLoopedArgs(args)
    case Binary(_, l, r) => WellLooped(l, false) && WellLooped(r, false)
    case Values(f, args) => WellLooped(f, false) && WellLoopedArgs(args)
    case Dot(a, f) => WellLooped(a, false) && WellLooped(f, false)
    case MethodRef(mm) => WellLoopedMethod(mm)
    case BodyExpr(b) => WellLoopedBody(b, tail)
    case If(c, a, b) => WellLooped(c, false) && WellLoopedBody(a, tail) && WellLoopedBody(b, tail)
    case Set(_, _, v) => WellLooped(v, false)
    case Loop(b) => WellLoopedBody(b, true)
    case Repeat => tail
  }

  predicate WellLoopedArgs(args: Exprs)
    decreases args
  {
    args.Arg? ==> WellLooped(args.expr, false) && WellLoopedArgs(args.rest)
  }

  predicate WellLoopedBody(b: Body, tail: bool)
    decreases b
  {
    match b
    case Last(e) => WellLooped(e, tail)
    case Then(e, rest) => WellLooped(e, tail) && WellLoopedBody(rest, tail)
    case Let(_, _, init, _, _, body) => WellLooped(init, false) && WellLoopedBody(body, tail)
    case Local(ms, _, _, body) => WellLoopedMethods(ms) && WellLoopedBody(body, tail)
  }

  predicate WellLoopedMethods(ms: Methods)
    decreases ms
  {
    ms.AMethod? ==> WellLoopedMethod(ms.method_) && WellLoopedMethods(ms.rest)
  }

  predicate WellLoopedMethod(mm: Method)
    decreases mm
  {
    WellLooped(mm.specializers, false) && WellLoopedBody(mm.body, false)
  }

  // A repeat is allowed at this depth.
  ghost predicate CanRepeat(tail: bool, loop: nat, d: nat, ext: set<(int, nat)>) {
    tail ==> (loop, d) in ext
  }

  /** The code of every expression is disciplined, for everything that can be wanted of it. */
  lemma {:induction false} GenDisciplined(t: Tables, e: Expr, want: Want, cs: seq<Constant>, pos: nat, loop: nat,
                                          d: nat, tail: bool, ext: set<(int, nat)>) returns (depths: seq<nat>)
    requires WellLooped(e, tail) && CanRepeat(tail, loop, d, ext)
    ensures Frag(Gen(t, e, want, cs, pos, loop).instrs, pos, want, d, ext, depths)
    decreases e, 2
  {
    hide Frag;
    match e
    case Var(id, ref) =>
      VarRuns(t, id, ref, want, cs, d);
      depths := RunsFrag(GenVar(t, id, ref, want, cs).instrs, pos, want, d, ext);
    case Lit(l) =>
      LitRuns(l, want, cs, d);
      depths := RunsFrag(GenLit(l, want, cs).instrs, pos, want, d, ext);
    case Call(f, args) => depths := CallDisciplined(t, e, f, args, want, cs, pos, loop, d, ext);
    case Binary(op, l, r) => depths := BinaryDisciplined(t, e, want, cs, pos, loop, d, ext);
    case Values(f, args) => depths := ValuesDisciplined(t, e, want, cs, pos, loop, d, ext);
    case Dot(a, f) => depths := DotDisciplined(t, e, want, cs, pos, loop, d, ext);
    case MethodRef(mm) => depths := MethodRefDisciplined(t, mm, want, cs, pos, loop, d, ext);
    case BodyExpr(b) => depths := BodyDisciplined(t, b, want, cs, pos, loop, d, tail, ext);
    case If(c, a, b) => depths := IfDisciplined(t, e, want, cs, pos, loop, d, tail, ext);
    case Set(id, ref, v) => depths := SetDisciplined(t, e, want, cs, pos, loop, d, ext);
    case Loop(b) =>
      var code := GenBody(t, b, want, cs, pos, pos).instrs;
      depths := BodyDisciplined(t, b, want, cs, pos, pos, d, true, ext + {(pos, d)});
      LoopFrag(code, pos, want, d, ext, depths);
    case Repeat => depths := RepeatDisciplined(want, pos, loop, d, ext);
  }

  lemma RunsFrag(code: seq<Instr>, start: int, want: Want, d: nat, ext: set<(int, nat)>) returns (depths: seq<nat>)
    requires Runs(code, d) && (if want.Tail? then Ends(code) else DepthAfter(code, d) == EndDepth(want, d))
    ensures Frag(code, start, want, d, ext, depths)
  {
    hide Runs, DepthAfter, Piece, TailPiece;
    depths := StraightFrag(code, start, want, d, d, ext);
  }

  // A loop repeats from its start.
  lemma LoopFrag(code: seq<Instr>, pos: nat, want: Want, d: nat, ext: set<(int, nat)>, depths: seq<nat>)
    requires Frag(code, pos, want, d, ext + {(pos, d)}, depths)
    ensures Frag(code, pos, want, d, ext, depths)
  {
    assert code[..0] == [];
    InsideFrag(code, pos, want, d, ext, depths, 0, d);
  }

  lemma RepeatDisciplined(want: Want, pos: nat, loop: nat, d: nat, ext: set<(int, nat)>) returns (depths: seq<nat>)
    requires (loop, d) in ext
    ensures Frag([Branch(BRANCH, loop - (pos + 5))], pos, want, d, ext, depths)
  {
    var code := [Branch(BRANCH, loop - (pos + 5))];
    depths := [d, EndDepth(want, d)];
    assert code[..1] == code && code[1..] == [];
    assert Size(code) == 5;
    var ext' := if want.Tail? then ext else ext + {(pos + 5, EndDepth(want, d))};
    assert StepOk(code, pos, ext', depths, 0);
  }

  // A piece, a fragment for one value or another fixed number, and the code that uses them.
  lemma FragPiece(code: seq<Instr>, start: int, want: Want, d: nat, ext: set<(int, nat)>, depths: seq<nat>)
    requires Frag(code, start, want, d, ext, depths) && !want.Tail?
    ensures Piece(code, start, d, EndDepth(want, d), ext, depths)
  {
  }

  // Straight code after a piece.
  lemma PieceThenRuns(a: seq<Instr>, b: seq<Instr>, start: int, d: nat, e: nat, want: Want, ext: set<(int, nat)>, da: seq<nat>)
    returns (depths: seq<nat>)
    requires Piece(a, start, d, e, ext, da)
    requires Runs(b, e) && (if want.Tail? then Ends(b) else DepthAfter(b, e) == EndDepth(want, d))
    ensures Frag(a + b, start, want, d, ext, depths)
  {
    hide Piece, TailPiece, Runs, DepthAfter;
    var db := StraightFrag(b, start + Size(a), want, d, e, ext);
    if want.Tail? {
      depths := JoinTail(a, b, start, d, e, ext, da, db);
    } else {
      depths := Join(a, b, start, d, e, EndDepth(want, d), ext, da, db);
    }
  }

  lemma {:induction false} ArgsDisciplined(t: Tables, args: Exprs, want: Want, cs: seq<Constant>, pos: nat, loop: nat,
                                           d: nat, ext: set<(int, nat)>) returns (depths: seq<nat>)
    requires WellLoopedArgs(args) && want in {SINGLE, NOTHING}
    ensures Piece(GenArgs(t, args, want, cs, pos, loop).instrs, pos, d, d + (if want == SINGLE then ArgCount(args) else 0), ext, depths)
    decreases args, 1
  {
    hide Piece, Gen, Size, WellLooped;
    if args.NoArgs? {
      depths := EmptyPiece(pos, d, ext);
    } else {
      var ec := Gen(t, args.expr, want, cs, pos, loop);
      var de := GenDisciplined(t, args.expr, want, cs, pos, loop, d, false, ext);
      var d1 := EndDepth(want, d);
      var rc := GenArgs(t, args.rest, want, ec.constants, pos + Size(ec.instrs), loop);
      var dr := ArgsDisciplined(t, args.rest, want, ec.constants, pos + Size(ec.instrs), loop, d1, ext);
      var last := d1 + (if want == SINGLE then ArgCount(args.rest) else 0);
      depths := Join(ec.instrs, rc.instrs, pos, d, d1, last, ext, de, dr);
    }
  }

  lemma EmptyPiece(pos: int, d: nat, ext: set<(int, nat)>) returns (depths: seq<nat>)
    ensures Piece([], pos, d, d, ext, depths)
  {
    depths := [d];
  }

  // A function, its arguments, and the call.
  lemma {:induction false} CallDisciplined(t: Tables, e: Expr, f: Expr, args: Exprs, want: Want, cs: seq<Constant>, pos: nat, loop: nat,
                                           d: nat, ext: set<(int, nat)>) returns (depths: seq<nat>)
    requires f < e && args < e && WellLooped(f, false) && WellLoopedArgs(args)
    ensures var fc := Gen(t, f, Func, cs, pos, loop);
            var ac := GenArgs(t, args, SINGLE, fc.constants, pos + Size(fc.instrs), loop);
            Frag(fc.instrs + ac.instrs + CallCode(ArgCount(args), want), pos, want, d, ext, depths)
    decreases e, 0
  {
    hide Piece, Frag, Runs, DepthAfter, Gen, GenArgs, CallCode, Size, WellLooped, WellLoopedArgs;
    var fc := Gen(t, f, Func, cs, pos, loop);
    var df := GenDisciplined(t, f, Func, cs, pos, loop, d, false, ext);
    FragPiece(fc.instrs, pos, Func, d, ext, df);
    var ac := GenArgs(t, args, SINGLE, fc.constants, pos + Size(fc.instrs), loop);
    var da := ArgsDisciplined(t, args, SINGLE, fc.constants, pos + Size(fc.instrs), loop, d + 1, ext);
    var n := ArgCount(args);
    var dd := Join(fc.instrs, ac.instrs, pos, d, d + 1, d + 1 + n, ext, df, da);
    CallRuns(n, want, d);
    depths := PieceThenRuns(fc.instrs + ac.instrs, CallCode(n, want), pos, d, d + n + 1, want, ext, dd);
  }

  lemma {:induction false} PairDisciplined(t: Tables, e: Expr, a: Expr, wa: Want, b: Expr, wb: Want, cs: seq<Constant>, pos: nat, loop: nat,
                                           d: nat, ext: set<(int, nat)>) returns (depths: seq<nat>)
    requires a < e && b < e && WellLooped(a, false) && WellLooped(b, false)
    requires wa in {SINGLE, Func} && wb in {SINGLE, Func}
    ensures var ac := Gen(t, a, wa, cs, pos, loop);
            var bc := Gen(t, b, wb, ac.constants, pos + Size(ac.instrs), loop);
            Piece(ac.instrs + bc.instrs, pos, d, d + 2, ext, depths)
    decreases e, 0
  {
    hide Piece, Frag, Gen, Size, WellLooped;
    var ac := Gen(t, a, wa, cs, pos, loop);
    var da := GenDisciplined(t, a, wa, cs, pos, loop, d, false, ext);
    FragPiece(ac.instrs, pos, wa, d, ext, da);
    var bc := Gen(t, b, wb, ac.constants, pos + Size(ac.instrs), loop);
    var db := GenDisciplined(t, b, wb, ac.constants, pos + Size(ac.instrs), loop, d + 1, false, ext);
    FragPiece(bc.instrs, pos + Size(ac.instrs), wb, d + 1, ext, db);
    depths := Join(ac.instrs, bc.instrs, pos, d, d + 1, d + 2, ext, da, db);
  }

  lemma {:induction false} BinaryDisciplined(t: Tables, e: Expr, want: Want, cs: seq<Constant>, pos: nat, loop: nat,
                                             d: nat, ext: set<(int, nat)>) returns (depths: seq<nat>)
    requires e.Binary? && WellLooped(e, false)
    ensures Frag(Gen(t, e, want, cs, pos, loop).instrs, pos, want, d, ext, depths)
    decreases e, 1
  {
    hide Piece, Frag, Runs, DepthAfter, Canonicalize, Size, InstrSize, Pops, Pushes, Stops, Ends, EndDepth;
    var lc := Gen(t, e.left, SINGLE, cs, pos, loop);
    var rc := Gen(t, e.right, SINGLE, lc.constants, pos + Size(lc.instrs), loop);
    var dd := PairDisciplined(t, e, e.left, SINGLE, e.right, SINGLE, cs, pos, loop, d, ext);
    var op := [Op(BinaryOp(e.op))];
    OperatorRuns(e.op, want, d);
    depths := PieceThenRuns(lc.instrs + rc.instrs, op + Canonicalize(want), pos, d, d + 2, want, ext, dd);
    assert (lc.instrs + rc.instrs) + (op + Canonicalize(want)) == lc.instrs + rc.instrs + op + Canonicalize(want);
  }

  lemma OperatorRuns(op: Magic, want: Want, d: nat)
    ensures var code := [Op(BinaryOp(op))] + Canonicalize(want);
            && Runs(code, d + 2)
            && if want.Tail? then Ends(code) else DepthAfter(code, d + 2) == EndDepth(want, d)
  {
    hide Runs, DepthAfter, Canonicalize;
    OneRuns(Op(BinaryOp(op)), d + 2);
    CanonicalizeRuns(want, d);
    RunsParts([Op(BinaryOp(op))], Canonicalize(want), d + 2);
  }

  lemma {:induction false} DotDisciplined(t: Tables, e: Expr, want: Want, cs: seq<Constant>, pos: nat, loop: nat,
                                          d: nat, ext: set<(int, nat)>) returns (depths: seq<nat>)
    requires e.Dot? && WellLooped(e, false)
    ensures Frag(Gen(t, e, want, cs, pos, loop).instrs, pos, want, d, ext, depths)
    decreases e, 1
  {
    hide Piece, Frag, Runs, DepthAfter;
    var ac := Gen(t, e.arg, SINGLE, cs, pos, loop);
    var fc := Gen(t, e.func, Func, ac.constants, pos + Size(ac.instrs), loop);
    var dd := PairDisciplined(t, e, e.arg, SINGLE, e.func, Func, cs, pos, loop, d, ext);
    DotRuns(want, d);
    depths := PieceThenRuns(ac.instrs + fc.instrs, DotCode(want), pos, d, d + 2, want, ext, dd);
  }

  lemma {:induction false} SetDisciplined(t: Tables, e: Expr, want: Want, cs: seq<Constant>, pos: nat, loop: nat,
                                          d: nat, ext: set<(int, nat)>) returns (depths: seq<nat>)
    requires e.Set? && WellLooped(e, false)
    ensures Frag(Gen(t, e, want, cs, pos, loop).instrs, pos, want, d, ext, depths)
    decreases e, 0
  {
    hide Piece, Frag, Runs, DepthAfter, GenStore;
    var w := if want.Func? then Func else SINGLE;
    var vc := Gen(t, e.value, w, cs, pos, loop);
    var dv := GenDisciplined(t, e.value, w, cs, pos, loop, d, false, ext);
    FragPiece(vc.instrs, pos, w, d, ext, dv);
    StoreRuns(t, e.id, e.ref, want, vc.constants, d);
    depths := PieceThenRuns(vc.instrs, GenStore(t, e.id, e.ref, want, vc.constants).instrs, pos, d, d + 1, want, ext, dv);
  }

  lemma {:induction false} ValuesDisciplined(t: Tables, e: Expr, want: Want, cs: seq<Constant>, pos: nat, loop: nat,
                                             d: nat, ext: set<(int, nat)>) returns (depths: seq<nat>)
    requires e.Values? && WellLooped(e, false)
    ensures Frag(GenValues(t, e, want, cs, pos, loop).instrs, pos, want, d, ext, depths)
    decreases e, 1
  {
    hide Piece, Frag, Runs, DepthAfter, Gen, GenArgs, GenFixed, CallCode, Size;
    var args := e.args;
    if want.Tail? && args.Arg? && args.rest.NoArgs? {
      var ec := Gen(t, args.expr, SINGLE, cs, pos, loop);
      var de := GenDisciplined(t, args.expr, SINGLE, cs, pos, loop, d, false, ext);
      FragPiece(ec.instrs, pos, SINGLE, d, ext, de);
      OneRuns(Op(RETURN_SINGLE), d + 1);
      depths := PieceThenRuns(ec.instrs, [Op(RETURN_SINGLE)], pos, d, d + 1, want, ext, de);
    } else if want.Func? && args.NoArgs? {
      NoFunctionRuns(d);
      depths := RunsFrag([Op(PUSH_FALSE), Op(CHECK_TYPE_FUNCTION)], pos, want, d, ext);
    } else if want.Func? {
      var ec := Gen(t, args.expr, Func, cs, pos, loop);
      var de := GenDisciplined(t, args.expr, Func, cs, pos, loop, d, false, ext);
      FragPiece(ec.instrs, pos, Func, d, ext, de);
      var rc := GenArgs(t, args.rest, NOTHING, ec.constants, pos + Size(ec.instrs), loop);
      var dr := ArgsDisciplined(t, args.rest, NOTHING, ec.constants, pos + Size(ec.instrs), loop, d + 1, ext);
      depths := Join(ec.instrs, rc.instrs, pos, d, d + 1, d + 1, ext, de, dr);
      PieceFrag(ec.instrs + rc.instrs, pos, want, d, ext, depths);
    } else if want.Count? && !want.rest {
      depths := FixedDisciplined(t, args, want.required, cs, pos, loop, d, ext);
      PieceFrag(GenFixed(t, args, want.required, cs, pos, loop).instrs, pos, want, d, ext, depths);
    } else {
      depths := CallDisciplined(t, e, e.values, args, want, cs, pos, loop, d, ext);
    }
  }

  lemma NoFunctionRuns(d: nat)
    ensures var code := [Op(PUSH_FALSE), Op(CHECK_TYPE_FUNCTION)]; Runs(code, d) && DepthAfter(code, d) == d + 1
  {
    OneRuns(Op(PUSH_FALSE), d);
    OneRuns(Op(CHECK_TYPE_FUNCTION), d + 1);
    RunsParts([Op(PUSH_FALSE)], [Op(CHECK_TYPE_FUNCTION)], d);
    assert [Op(PUSH_FALSE)] + [Op(CHECK_TYPE_FUNCTION)] == [Op(PUSH_FALSE), Op(CHECK_TYPE_FUNCTION)];
  }

  lemma PieceFrag(code: seq<Instr>, start: int, want: Want, d: nat, ext: set<(int, nat)>, depths: seq<nat>)
    requires !want.Tail? && Piece(code, start, d, EndDepth(want, d), ext, depths)
    ensures Frag(code, start, want, d, ext, depths)
  {
  }

  lemma {:induction false} FixedDisciplined(t: Tables, args: Exprs, n: nat, cs: seq<Constant>, pos: nat, loop: nat,
                                            d: nat, ext: set<(int, nat)>) returns (depths: seq<nat>)
    requires WellLoopedArgs(args)
    ensures Piece(GenFixed(t, args, n, cs, pos, loop).instrs, pos, d, d + n, ext, depths)
    decreases args, 1
  {
    hide Piece, Runs, DepthAfter;
    if args.NoArgs? {
      var l := seq(n, _ => Op(PUSH_FALSE));
      PushesRun(l, d);
      depths := StraightFrag(l, pos, Count(n, false), d, d, ext);
    } else {
      var w := if n > 0 then SINGLE else NOTHING;
      var ec := Gen(t, args.expr, w, cs, pos, loop);
      var de := GenDisciplined(t, args.expr, w, cs, pos, loop, d, false, ext);
      FragPiece(ec.instrs, pos, w, d, ext, de);
      var m := if n > 0 then n - 1 else 0;
      var rc := GenFixed(t, args.rest, m, ec.constants, pos + Size(ec.instrs), loop);
      var dr := FixedDisciplined(t, args.rest, m, ec.constants, pos + Size(ec.instrs), loop, EndDepth(w, d), ext);
      depths := Join(ec.instrs, rc.instrs, pos, d, EndDepth(w, d), d + n, ext, de, dr);
    }
  }

  lemma {:induction false} MethodRefDisciplined(t: Tables, mm: Method, want: Want, cs: seq<Constant>, pos: nat, loop: nat,
                                                d: nat, ext: set<(int, nat)>) returns (depths: seq<nat>)
    requires WellLooped(mm.specializers, false)
    ensures Frag(GenMethodRef(t, mm, want, cs, pos, loop).instrs, pos, want, d, ext, depths)
    decreases mm, 0
  {
    hide Piece, Frag, Runs, DepthAfter, Canonicalize, Gen, Size, PushTaken, Pops, Pushes, Stops, Ends;
    var k := |Closes(t, mm.id)|;
    var before := PushTaken(t, Closes(t, mm.id)) + [OpArg(PUSH_CONSTANT, |cs|)];
    TakenRuns(t, Closes(t, mm.id), |cs|, d);
    var db := StraightFrag(before, pos, Count(k + 1, false), d, d, ext);
    var sc := Gen(t, mm.specializers, SINGLE, cs + [MethodConst(mm)], pos + Size(before), loop);
    var ds := GenDisciplined(t, mm.specializers, SINGLE, cs + [MethodConst(mm)], pos + Size(before), loop, d + k + 1, false, ext);
    FragPiece(sc.instrs, pos + Size(before), SINGLE, d + k + 1, ext, ds);
    var dj := Join(before, sc.instrs, pos, d, d + k + 1, d + k + 2, ext, db, ds);
    MakeRuns(k, want, d);
    var make := [Op(PUSH_NIL), Op(PUSH_TRUE), MakeMethod(k)];
    depths := PieceThenRuns(before + sc.instrs, make + Canonicalize(want), pos, d, d + k + 2, want, ext, dj);
    assert (before + sc.instrs) + (make + Canonicalize(want)) == before + sc.instrs + make + Canonicalize(want);
  }

  lemma TakenRuns(t: Tables, closes: seq<Over>, i: nat, d: nat)
    ensures var code := PushTaken(t, closes) + [OpArg(PUSH_CONSTANT, i)];
            Runs(code, d) && DepthAfter(code, d) == d + |closes| + 1 && !Ends(code)
  {
    hide Runs, DepthAfter;
    var code := PushTaken(t, closes) + [OpArg(PUSH_CONSTANT, i)];
    forall j | 0 <= j < |code| ensures Pops(code[j]) == 0 && Pushes(code[j]) == 1 && !Stops(code[j]) && !code[j].Branch? {
      if j < |closes| {
        PlaceEffects(OverPlace(t, closes[|closes| - 1 - j]));
      }
    }
    PushesRun(code, d);
  }

  lemma MakeRuns(k: nat, want: Want, d: nat)
    ensures var code := [Op(PUSH_NIL), Op(PUSH_TRUE), MakeMethod(k)] + Canonicalize(want);
            && Runs(code, d + k + 2)
            && if want.Tail? then Ends(code) else DepthAfter(code, d + k + 2) == EndDepth(want, d)
  {
    hide Runs, DepthAfter, Canonicalize;
    OnlyMakeRuns(k, d);
    CanonicalizeRuns(want, d);
    RunsParts([Op(PUSH_NIL), Op(PUSH_TRUE), MakeMethod(k)], Canonicalize(want), d + k + 2);
  }

  lemma OnlyMakeRuns(k: nat, d: nat)
    ensures var make := [Op(PUSH_NIL), Op(PUSH_TRUE), MakeMethod(k)];
            Runs(make, d + k + 2) && DepthAfter(make, d + k + 2) == d + 1 && !Ends(make)
  {
    hide Runs, DepthAfter;
    OneRuns(Op(PUSH_NIL), d + k + 2);
    OneRuns(Op(PUSH_TRUE), d + k + 3);
    OneRuns(MakeMethod(k), d + k + 4);
    RunsParts([Op(PUSH_NIL)], [Op(PUSH_TRUE)], d + k + 2);
    RunsParts([Op(PUSH_NIL)] + [Op(PUSH_TRUE)], [MakeMethod(k)], d + k + 2);
    assert [Op(PUSH_NIL)] + [Op(PUSH_TRUE)] + [MakeMethod(k)] == [Op(PUSH_NIL), Op(PUSH_TRUE), MakeMethod(k)];
  }

  lemma {:induction false} BodyDisciplined(t: Tables, b: Body, want: Want, cs: seq<Constant>, pos: nat, loop: nat,
                                           d: nat, tail: bool, ext: set<(int, nat)>) returns (depths: seq<nat>)
    requires WellLoopedBody(b, tail) && CanRepeat(tail, loop, d, ext)
    ensures Frag(GenBody(t, b, want, cs, pos, loop).instrs, pos, want, d, ext, depths)
    decreases b, 1
  {
    hide Frag, Piece;
    match b
    case Last(e) => depths := GenDisciplined(t, e, want, cs, pos, loop, d, tail, ext);
    case Then(e, rest) =>
      var ec := Gen(t, e, NOTHING, cs, pos, loop);
      var de := GenDisciplined(t, e, NOTHING, cs, pos, loop, d, tail, ext);
      FragPiece(ec.instrs, pos, NOTHING, d, ext, de);
      var rc := GenBody(t, rest, want, ec.constants, pos + Size(ec.instrs), loop);
      var dr := BodyDisciplined(t, rest, want, ec.constants, pos + Size(ec.instrs), loop, d, tail, ext);
      depths := JoinFrag(ec.instrs, rc.instrs, pos, d, d, want, want, ext, de, dr);
    case Let(_, _, _, _, _, _) => depths := LetDisciplined(t, b, want, cs, pos, loop, d, tail, ext);
    case Local(_, _, _, _) => depths := LocalDisciplined(t, b, want, cs, pos, loop, d, tail, ext);
  }

  lemma {:induction false} LetDisciplined(t: Tables, b: Body, want: Want, cs: seq<Constant>, pos: nat, loop: nat,
                                          d: nat, tail: bool, ext: set<(int, nat)>) returns (depths: seq<nat>)
    requires b.Let? && WellLoopedBody(b, tail) && CanRepeat(tail, loop, d, ext)
    ensures Frag(GenBody(t, b, want, cs, pos, loop).instrs, pos, want, d, ext, depths)
    decreases b, 0
  {
    hide Piece, Frag, Runs, DepthAfter, GenPops, Size, Pops, Pushes, Stops, Ends;
    var n := |LetVars(b.vars, b.restVar)|;
    var w := Count(|b.vars|, b.restVar.Some?);
    var ic := Gen(t, b.init, w, cs, pos, loop);
    var di := GenDisciplined(t, b.init, w, cs, pos, loop, d, false, ext);
    FragPiece(ic.instrs, pos, w, d, ext, di);
    var pops := GenPops(t, b.first, n);
    PopsRun(t, b.first, n, d);
    var dp := StraightFrag(pops, pos + Size(ic.instrs), NOTHING, d, d + n, ext);
    var dj := Join(ic.instrs, pops, pos, d, d + n, d, ext, di, dp);
    SizeOfParts(ic.instrs, pops);
    var at := pos + Size(ic.instrs) + Size(pops);
    var bc := GenBody(t, b.body, want, ic.constants, at, loop);
    var db := BodyDisciplined(t, b.body, want, ic.constants, at, loop, d, tail, ext);
    depths := JoinFrag(ic.instrs + pops, bc.instrs, pos, d, d, want, want, ext, dj, db);
  }

  lemma {:induction false} LocalDisciplined(t: Tables, b: Body, want: Want, cs: seq<Constant>, pos: nat, loop: nat,
                                            d: nat, tail: bool, ext: set<(int, nat)>) returns (depths: seq<nat>)
    requires b.Local? && WellLoopedBody(b, tail) && CanRepeat(tail, loop, d, ext)
    ensures Frag(GenBody(t, b, want, cs, pos, loop).instrs, pos, want, d, ext, depths)
    decreases b, 0
  {
    hide Piece, Frag, Runs, DepthAfter, GenCells, Size, Pops, Pushes, Stops, Ends;
    var cells := GenCells(t, b.first, |Names(b.methods)|);
    CellsRun(t, b.first, |Names(b.methods)|, d);
    var dc := StraightFrag(cells, pos, NOTHING, d, d, ext);
    var mc := GenMethods(t, b.methods, b.first, cs, pos + Size(cells), loop);
    var dm := MethodsDisciplined(t, b.methods, b.first, cs, pos + Size(cells), loop, d, ext);
    var dj := Join(cells, mc.instrs, pos, d, d, d, ext, dc, dm);
    SizeOfParts(cells, mc.instrs);
    var at := pos + Size(cells) + Size(mc.instrs);
    var bc := GenBody(t, b.body, want, mc.constants, at, loop);
    var db := BodyDisciplined(t, b.body, want, mc.constants, at, loop, d, tail, ext);
    depths := JoinFrag(cells + mc.instrs, bc.instrs, pos, d, d, want, want, ext, dj, db);
  }

  lemma {:induction false} MethodsDisciplined(t: Tables, ms: Methods, b: nat, cs: seq<Constant>, pos: nat, loop: nat,
                                              d: nat, ext: set<(int, nat)>) returns (depths: seq<nat>)
    requires WellLoopedMethods(ms)
    ensures Piece(GenMethods(t, ms, b, cs, pos, loop).instrs, pos, d, d, ext, depths)
    decreases ms, 0
  {
    hide Piece, Frag, Runs, DepthAfter, GenMethodRef, HomePlace, Noted, Size, InstrSize;
    if ms.NoMethods? {
      depths := EmptyPiece(pos, d, ext);
    } else {
      var mc := GenMethodRef(t, ms.method_, SINGLE, cs, pos, loop);
      var dm := MethodRefDisciplined(t, ms.method_, SINGLE, cs, pos, loop, d, ext);
      FragPiece(mc.instrs, pos, SINGLE, d, ext, dm);
      var p := HomePlace(t, b);
      var store := if Noted(t, b).closedOver then [PushPlace(p), Op(VALUE_CELL_SET)] else [PopPlace(p)];
      StorePlaceRuns(p, 0, d);
      var ds := StraightFrag(store, pos + Size(mc.instrs), NOTHING, d, d + 1, ext);
      var dj := Join(mc.instrs, store, pos, d, d + 1, d, ext, dm, ds);
      SizeOfParts(mc.instrs, store);
      var at := pos + Size(mc.instrs) + Size(store);
      var rc := GenMethods(t, ms.rest, b + 1, mc.constants, at, loop);
      var dr := MethodsDisciplined(t, ms.rest, b + 1, mc.constants, at, loop, d, ext);
      depths := Join(mc.instrs + store, rc.instrs, pos, d, d, d, ext, dj, dr);
    }
  }

  // A branch to a place outside.
  lemma BranchPiece(op: Byte, disp: int, start: int, d: nat, e: nat, ext: set<(int, nat)>) returns (depths: seq<nat>)
    requires op in {BRANCH, CONDITIONAL_BRANCH} && d >= Pops(Branch(op, disp))
    requires (start + 5 + disp, d - Pops(Branch(op, disp))) in ext
    requires op == CONDITIONAL_BRANCH ==> e == d - 1
    ensures Piece([Branch(op, disp)], start, d, e, ext, depths)
  {
    var code := [Branch(op, disp)];
    depths := [d, e];
    assert code[..1] == code && code[1..] == [];
    assert Size(code) == 5;
    assert StepOk(code, start, ext + {(start + 5, e)}, depths, 0);
  }

  // Code that never falls through may be given any depth after it.
  lemma TailAsPiece(code: seq<Instr>, start: int, d: nat, e: nat, ext: set<(int, nat)>, depths: seq<nat>) returns (depths': seq<nat>)
    requires TailPiece(code, start, d, ext, depths)
    ensures Piece(code, start, d, e, ext, depths')
  {
    hide Pops, Pushes, Stops;
    var n := |code|;
    depths' := depths[n := e];
    var ext' := ext + {(start + Size(code), e)};
    forall i | 0 <= i < n ensures StepOk(code, start, ext', depths', i) {
      assert StepOk(code, start, ext, depths, i);
    }
  }

  lemma {:induction false} IfDisciplined(t: Tables, e: Expr, want: Want, cs: seq<Constant>, pos: nat, loop: nat,
                                         d: nat, tail: bool, ext: set<(int, nat)>) returns (depths: seq<nat>)
    requires e.If? && WellLooped(e, tail) && CanRepeat(tail, loop, d, ext)
    ensures Frag(GenIf(t, e, want, cs, pos, loop).instrs, pos, want, d, ext, depths)
    decreases e, 0
  {
    hide Piece, Frag, TailPiece, Gen, GenBody;
    var cc := Gen(t, e.cond, SINGLE, cs, pos, loop);
    var dc := GenDisciplined(t, e.cond, SINGLE, cs, pos, loop, d, false, ext);
    FragPiece(cc.instrs, pos, SINGLE, d, ext, dc);
    var ac := GenBody(t, e.consequent, want, cc.constants, pos + Size(cc.instrs) + 5, loop);
    var da := BodyDisciplined(t, e.consequent, want, cc.constants, pos + Size(cc.instrs) + 5, loop, d, tail, ext);
    var skip := if want.Tail? then 0 else 5;
    var at := pos + Size(cc.instrs) + 5 + Size(ac.instrs) + skip;
    var bc := GenBody(t, e.alternate, want, ac.constants, at, loop);
    var db := BodyDisciplined(t, e.alternate, want, ac.constants, at, loop, d, tail, ext);
    if want.Tail? {
      depths := IfTail(cc.instrs, ac.instrs, bc.instrs, pos, want, d, ext, dc, da, db);
    } else {
      depths := IfMeets(cc.instrs, ac.instrs, bc.instrs, pos, want, d, ext, dc, da, db);
    }
  }

  // Both arms return.
  lemma IfTail(c: seq<Instr>, a: seq<Instr>, b: seq<Instr>, pos: int, want: Want, d: nat, ext: set<(int, nat)>,
               dc: seq<nat>, da: seq<nat>, db: seq<nat>) returns (depths: seq<nat>)
    requires want.Tail? && Piece(c, pos, d, d + 1, ext, dc) && Frag(a, pos + Size(c) + 5, want, d, ext, da)
    requires Frag(b, pos + Size(c) + 5 + Size(a), want, d, ext, db)
    ensures Frag(c + [Branch(CONDITIONAL_BRANCH, Size(a) + 0)] + a + [] + b, pos, want, d, ext, depths)
  {
    hide Piece, TailPiece, Disciplined, Stops;
    var cbr := [Branch(CONDITIONAL_BRANCH, Size(a))];
    var target := pos + Size(c) + 5 + Size(a);
    var ext' := ext + {(target, d)};
    MorePiece(c, pos, d, d + 1, ext, ext', dc);
    MoreFrag(a, pos + Size(c) + 5, want, d, ext, ext', da);
    MoreFrag(b, target, want, d, ext, ext', db);
    var dbr := BranchPiece(CONDITIONAL_BRANCH, Size(a), pos + Size(c), d + 1, d, ext');
    SizeOfParts(c, cbr);
    var d1 := Join(c, cbr, pos, d, d + 1, d, ext', dc, dbr);
    var da' := TailAsPiece(a, pos + Size(c) + 5, d, d, ext', da);
    SizeOfParts(c + cbr, a);
    var d2 := Join(c + cbr, a, pos, d, d, d, ext', d1, da');
    var x := c + cbr + a;
    depths := JoinTail(x, b, pos, d, d, ext', d2, db);
    assert (x + b)[..|x|] == x;
    assert b != [] by { TailNotEmpty(b, target, d, ext', db); }
    InsideFrag(x + b, pos, want, d, ext, depths, |x|, d);
    assert c + [Branch(CONDITIONAL_BRANCH, Size(a) + 0)] + a + [] + b == x + b;
  }

  lemma TailNotEmpty(code: seq<Instr>, start: int, d: nat, ext: set<(int, nat)>, depths: seq<nat>)
    requires TailPiece(code, start, d, ext, depths)
    ensures code != []
  {
  }

  lemma MorePiece(code: seq<Instr>, start: int, d: nat, e: nat, ext: set<(int, nat)>, ext': set<(int, nat)>, depths: seq<nat>)
    requires Piece(code, start, d, e, ext, depths) && ext <= ext'
    ensures Piece(code, start, d, e, ext', depths)
  {
    hide StepOk;
    var end := {(start + Size(code), e)};
    MoreTargets(code, start, ext + end, ext' + end, depths);
  }

  /** Both arms meet at the same depth. */
  lemma IfMeets(c: seq<Instr>, a: seq<Instr>, b: seq<Instr>, pos: int, want: Want, d: nat, ext: set<(int, nat)>,
                dc: seq<nat>, da: seq<nat>, db: seq<nat>) returns (depths: seq<nat>)
    requires !want.Tail? && Piece(c, pos, d, d + 1, ext, dc) && Frag(a, pos + Size(c) + 5, want, d, ext, da)
    requires Frag(b, pos + Size(c) + 5 + Size(a) + 5, want, d, ext, db)
    ensures Frag(c + [Branch(CONDITIONAL_BRANCH, Size(a) + 5)] + a + [Branch(BRANCH, Size(b))] + b, pos, want, d, ext, depths)
  {
    hide Piece, Disciplined, Stops, TailPiece;
    var e := EndDepth(want, d);
    var cbr, br := [Branch(CONDITIONAL_BRANCH, Size(a) + 5)], [Branch(BRANCH, Size(b))];
    var target := pos + Size(c) + 5 + Size(a) + 5;
    var done := target + Size(b);
    var ext1 := ext + {(target, d)};
    var ext2 := ext1 + {(done, e)};
    MorePiece(c, pos, d, d + 1, ext, ext2, dc);
    MoreFrag(a, pos + Size(c) + 5, want, d, ext, ext2, da);
    MoreFrag(b, target, want, d, ext, ext2, db);
    var dbr := BranchPiece(CONDITIONAL_BRANCH, Size(a) + 5, pos + Size(c), d + 1, d, ext2);
    SizeOfParts(c, cbr);
    var d1 := Join(c, cbr, pos, d, d + 1, d, ext2, dc, dbr);
    SizeOfParts(c + cbr, a);
    var d2 := Join(c + cbr, a, pos, d, d, e, ext2, d1, da);
    var dbr2 := BranchPiece(BRANCH, Size(b), pos + Size(c) + 5 + Size(a), e, d, ext2);
    SizeOfParts(c + cbr + a, br);
    var d3 := Join(c + cbr + a, br, pos, d, e, d, ext2, d2, dbr2);
    var x := c + cbr + a + br;
    SizeOfParts(x, b);
    depths := Join(x, b, pos, d, d, e, ext2, d3, db);
    PieceFrag(x + b, pos, want, d, ext2, depths);
    LastDepth(x + b, pos, d, e, ext2, depths);
    assert (x + b)[..|x + b|] == x + b && (x + b)[..|x|] == x;
    InsideFrag(x + b, pos, want, d, ext1, depths, |x + b|, e);
    InsideFrag(x + b, pos, want, d, ext, depths, |x|, d);
  }

  lemma LastDepth(code: seq<Instr>, start: int, d: nat, e: nat, ext: set<(int, nat)>, depths: seq<nat>)
    requires Piece(code, start, d, e, ext, depths)
    ensures |depths| == |code| + 1 && depths[|code|] == e
  {
  }

  /** The code of a method: on every path the depth of the stack is the same, every branch goes to
      an instruction of the method, and execution never runs off its end. */
  lemma MethodDisciplined(t: Tables, mm: Method) returns (depths: seq<nat>)
    requires WellLoopedMethod(mm)
    ensures TailPiece(GenMethod(t, mm).instrs, 0, 0, {}, depths)
  {
    hide Piece, Frag, Runs, DepthAfter, GenBoxes;
    var first, n := FirstParam(t, mm.id), |mm.Bound()|;
    var boxes := GenBoxes(t, first, n);
    BoxesRun(t, first, n, 0);
    var dx := StraightFrag(boxes, 0, NOTHING, 0, 0, {});
    var bc := GenBody(t, mm.body, Tail, [], Size(boxes), 0);
    var db := BodyDisciplined(t, mm.body, Tail, [], Size(boxes), 0, 0, false, {});
    depths := JoinFrag(boxes, bc.instrs, 0, 0, 0, Tail, Tail, {}, dx, db);
    FragTail(GenMethod(t, mm).instrs, 0, 0, {}, depths);
  }

  lemma FragTail(code: seq<Instr>, start: int, d: nat, ext: set<(int, nat)>, depths: seq<nat>)
    requires Frag(code, start, Tail, d, ext, depths)
    ensures TailPiece(code, start, d, ext, depths)
  {
  }
}
