/**
 The code generator: it appends to the blocks of a component, and patches branches when their
 targets are known. What it emits is the code of the program.
 */
module Compilers {
  import opened Wrappers
  import opened Bytecode
  import opened Components
  import opened Programs
  import opened Slots
  import opened Codegen

  // All operands and displacements are C ints.
  predicate Fits(code: seq<Instr>) {
    forall i :: i in code ==> i.Valid()
  }

  function Bytes(code: seq<Instr>): seq<Byte>
    requires Fits(code)
  {
    EncodeAll(code)
  }

  lemma FitsParts(a: seq<Instr>, b: seq<Instr>)
    ensures Fits(a + b) <==> Fits(a) && Fits(b)
  {
    if Fits(a + b) {
      forall i | i in a || i in b ensures i.Valid() { assert i in a + b; }
    }
  }

  lemma {:induction false} BytesParts(a: seq<Instr>, b: seq<Instr>)
    requires Fits(a + b)
    ensures Fits(a) && Fits(b) && Bytes(a + b) == Bytes(a) + Bytes(b)
    decreases |a|
  {
    hide Encode;
    FitsParts(a, b);
    if a == [] {
      assert a + b == b;
    } else {
      assert (a + b)[1..] == a[1..] + b;
      FitsParts(a[1..], b);
      BytesParts(a[1..], b);
    }
  }

  lemma {:induction false} BytesSize(a: seq<Instr>)
    requires Fits(a)
    ensures |Bytes(a)| == Size(a)
    decreases |a|
  {
    hide Encode, InstrSize;
    if a != [] {
      SizeOfEncoding(a[0]);
      BytesSize(a[1..]);
    }
  }

  lemma BytesOne(i: Instr)
    requires i.Valid()
    ensures Fits([i]) && Bytes([i]) == Encode(i)
  {
    assert [i][1..] == [] && EncodeAll([]) == [];
    assert Encode(i) + [] == Encode(i);
  }

  // Where an instruction starts, the interpreter finds it, and after it the next one.
  ghost predicate Fetched(code: seq<Instr>, i: nat)
    requires Fits(code) && i < |code|
  {
    code[i].Valid() && Executed(Bytes(code), Size(code[..i])) == (Shown(code[i], Size(code[..i])), Size(code[..i + 1]))
  }

  /** The interpreter reads the code of a program instruction by instruction. */
  lemma {:induction false} FetchesAll(code: seq<Instr>, i: nat)
    requires Fits(code) && i < |code|
    ensures Fetched(code, i)
  {
    hide Encode, Executed, Shown, InstrSize, EncodeAll, Bytes;
    var a, b := code[..i], code[i + 1..];
    assert code[i] in code;
    assert code == a + ([code[i]] + b) && code[..i + 1] == a + [code[i]];
    BytesParts(a, [code[i]] + b);
    BytesParts([code[i]], b);
    BytesOne(code[i]);
    BytesSize(a);
    SizeOfParts(a, [code[i]]);
    BytesSize([code[i]]);
    HeldBetween(Bytes(a), Encode(code[i]), Bytes(b));
    assert Bytes(code) == Bytes(a) + (Encode(code[i]) + Bytes(b));
    ExecutesAsEmitted(Bytes(code), Size(a), code[i]);
  }

  lemma HeldBetween(a: seq<Byte>, b: seq<Byte>, c: seq<Byte>)
    ensures Holds(a + (b + c), |a|, b)
  {
  }

  // The state of the component, as a value.
  datatype Snapshot = Snapshot(blocks: seq<array<Byte>>, ends: seq<nat>, bytes: seq<Byte>)

  // A branch that is still to be patched has been appended.
  ghost predicate BranchBetween(s: Snapshot, s': Snapshot, op: Byte) {
    && Extends(s.blocks, s.ends, s'.blocks, s'.ends)
    && |s'.bytes| == |s.bytes| + 5 && s'.bytes[..|s.bytes| + 1] == s.bytes + [op]
  }

  // More bytes have been appended.
  ghost predicate Later(s: Snapshot, s': Snapshot, more: seq<Byte>) {
    Extends(s.blocks, s.ends, s'.blocks, s'.ends) && s'.bytes == s.bytes + more
  }

  lemma LaterTransitive(s: Snapshot, s1: Snapshot, s2: Snapshot, more: seq<Byte>, more': seq<Byte>)
    requires Later(s, s1, more) && Later(s1, s2, more')
    ensures Later(s, s2, more + more')
  {
    ExtendsTransitive(s.blocks, s.ends, s1.blocks, s1.ends, s2.blocks, s2.ends);
  }

  // One piece of code after another.
  lemma LaterCode(s: Snapshot, s1: Snapshot, s2: Snapshot, a: seq<Instr>, b: seq<Instr>)
    requires Fits(a + b)
    requires Fits(a) && Fits(b) && Later(s, s1, Bytes(a)) && Later(s1, s2, Bytes(b))
    ensures Later(s, s2, Bytes(a + b))
  {
    hide Later;
    BytesParts(a, b);
    LaterTransitive(s, s1, s2, Bytes(a), Bytes(b));
  }

  lemma Patched(x: seq<Byte>, room: seq<Byte>, y: seq<Byte>, bytes: seq<Byte>)
    requires |room| == |bytes|
    ensures Overwritten(x + room + y, |x|, bytes) == x + bytes + y
  {
    var s := x + room + y;
    assert s[..|x|] == x && s[|x| + |bytes|..] == y;
  }

  class Compiler {
    const t: Tables
    const component: Component
    var constants: seq<Constant>

    ghost predicate Valid()
      reads this, component
    {
      component.Valid()
    }

    ghost function Now(): Snapshot
      requires Valid()
      reads this, component, component.repr
    {
      Snapshot(component.blocks, component.ends, component.Bytes())
    }

    // The blocks are those there were, and new ones.
    twostate predicate Blocks()
      reads this, component
    {
      fresh(component.repr - old(component.repr))
    }

    constructor (t: Tables)
      ensures Valid() && this.t == t && fresh(component) && fresh(component.repr)
      ensures Now().bytes == [] && constants == []
    {
      this.t := t;
      component := new Component();
      constants := [];
    }

    method Emit(i: Instr)
      requires Valid() && i.Valid() && !i.Branch?
      modifies component, component.repr
      ensures Valid() && Blocks() && Fits([i]) && Later(old(Now()), Now(), Bytes([i]))
    {
      component.Emit(i);
      BytesOne(i);
    }

    // One more instruction, after those appended since s.
    method Add(i: Instr, ghost s: Snapshot, ghost done: seq<Instr>)
      requires Valid() && i.Valid() && !i.Branch? && Fits(done) && Later(s, Now(), Bytes(done))
      modifies component, component.repr
      ensures Valid() && Blocks() && Fits(done + [i]) && Later(s, Now(), Bytes(done + [i]))
    {
      hide Component.Valid, Component.Bytes, Extends, Size, InstrSize, Bytes, Later;
      ghost var s1 := Now();
      Emit(i);
      FitsParts(done, [i]);
      LaterCode(s, s1, Now(), done, [i]);
    }

    // What compiling does.
    twostate predicate Emitted(code: Code)
      requires old(Valid())
      reads this, component, component.repr
    {
      && Valid() && Blocks() && Fits(code.instrs) && constants == code.constants
      && Later(old(Now()), Now(), Bytes(code.instrs))
    }

    method CanonicalizeValue(want: Want, ghost s: Snapshot, ghost done: seq<Instr>)
      requires Valid() && Fits(done) && Fits(Canonicalize(want)) && Later(s, Now(), Bytes(done))
      modifies component, component.repr
      ensures Valid() && Blocks() && Fits(done + Canonicalize(want)) && Later(s, Now(), Bytes(done + Canonicalize(want)))
    {
      hide Component.Valid, Component.Bytes, Extends, Size, InstrSize, Bytes, Later;
      if want.Tail? {
        Add(Op(RETURN_SINGLE), s, done);
      } else if want.Func? {
        Add(Op(CHECK_TYPE_FUNCTION), s, done);
      } else if want != SINGLE {
        assert OpWants(CANONICALIZE_VALUE, WantCode(want)) in Canonicalize(want);
        Add(OpWants(CANONICALIZE_VALUE, WantCode(want)), s, done);
      } else {
        assert done + Canonicalize(want) == done;
      }
    }

    method AddConstant(c: Constant) returns (i: nat)
      modifies this`constants
      ensures i == old(|constants|) && constants == old(constants) + [c]
    {
      i := |constants|;
      constants := constants + [c];
    }

    // The index of a variable among the constants.
    method FindVariableIndex(id: Id) returns (i: nat)
      modifies this`constants
      ensures (i, constants) == FindVariable(old(constants), id)
    {
      i := 0;
      while i < |constants|
        invariant i <= |constants| && constants == old(constants)
        invariant forall j :: 0 <= j < i ==> constants[j] != VarConst(id)
      {
        if constants[i] == VarConst(id) {
          FirstIndex(constants, VarConst(id), i);
          return;
        }
        i := i + 1;
      }
      constants := constants + [VarConst(id)];
    }

    method CompileVarref(id: Id, ref: Ref, want: Want)
      requires Valid() && Fits(GenVar(t, id, ref, want, constants).instrs)
      modifies this, component, component.repr
      ensures Emitted(GenVar(t, id, ref, want, old(constants)))
    {
      hide Component.Valid, Component.Bytes, Extends, Size, InstrSize, Bytes, Later, Canonicalize, Fits;
      ghost var s := Now();
      if ref.binding.Some? {
        if want == NOTHING {
          LaterNow(this);
          return;
        }
        var b, p := Noted(t, ref.binding.value), RefPlace(t, ref.binding.value, ref);
        var push := [PushPlace(p)];
        var cell := if b.Boxed() then [Op(VALUE_CELL_REF)] else [];
        FitsThree(push, cell, if want.Func? && b.function_ then [] else Canonicalize(want));
        FitsOne(PushPlace(p));
        Emit(PushPlace(p));
        if b.Boxed() {
          Add(Op(VALUE_CELL_REF), s, push);
        } else {
          assert push + cell == push;
        }
        if !(want.Func? && b.function_) {
          CanonicalizeValue(want, s, push + cell);
        } else {
          assert push + cell + [] == push + cell;
        }
      } else {
        var i := FindVariableIndex(id);
        if want.Func? {
          FitsOne(OpArg(PUSH_FUNCTION, i));
          Emit(OpArg(PUSH_FUNCTION, i));
        } else {
          FitsParts([OpArg(PUSH_VALUE, i)], Canonicalize(want));
          FitsOne(OpArg(PUSH_VALUE, i));
          Emit(OpArg(PUSH_VALUE, i));
          CanonicalizeValue(want, s, [OpArg(PUSH_VALUE, i)]);
        }
      }
    }

    method CompileLiteral(l: Literal, want: Want)
      requires Valid() && Fits(GenLit(l, want, constants).instrs)
      modifies this, component, component.repr
      ensures Emitted(GenLit(l, want, old(constants)))
    {
      hide Component.Valid, Component.Bytes, Extends, Size, InstrSize, Bytes, Later, Canonicalize, Fits;
      ghost var s := Now();
      if want == NOTHING {
        LaterNow(this);
        return;
      }
      var push;
      match l {
        case TrueLit => push := Op(PUSH_TRUE);
        case FalseLit => push := Op(PUSH_FALSE);
        case UnboundLit => push := Op(PUSH_UNBOUND);
        case NilLit => push := Op(PUSH_NIL);
        case IntLit(n) => push := if -128 < n < 128 then PushByte(n) else PushInt(n);
        case OtherLit(_) =>
          var i := AddConstant(LiteralConst(l));
          push := OpArg(PUSH_CONSTANT, i);
      }
      FitsParts([push], Canonicalize(want));
      FitsOne(push);
      Emit(push);
      CanonicalizeValue(want, s, [push]);
    }

    // The call after the function and n arguments.
    method EmitCall(n: nat, want: Want, ghost s: Snapshot, ghost done: seq<Instr>)
      requires Valid() && Fits(done) && Fits(CallCode(n, want)) && Later(s, Now(), Bytes(done))
      modifies component, component.repr
      ensures Valid() && Blocks() && Fits(done + CallCode(n, want)) && Later(s, Now(), Bytes(done + CallCode(n, want)))
    {
      hide Component.Valid, Component.Bytes, Extends, Size, InstrSize, Bytes, Later, Fits;
      FitsCode(CallCode(n, want));
      assert CallCode(n, want)[0].Valid();
      if want.Tail? {
        Add(OpArg(CALL_TAIL, n), s, done);
      } else if want.Func? {
        Add(CallForSingle(n), s, done);
        Add(Op(CHECK_TYPE_FUNCTION), s, done + [CallForSingle(n)]);
        assert done + [CallForSingle(n)] + [Op(CHECK_TYPE_FUNCTION)] == done + CallCode(n, want);
      } else if want == SINGLE {
        Add(CallForSingle(n), s, done);
      } else {
        Add(CallForMany(n, WantCode(want)), s, done);
      }
    }

    method EmitDot(want: Want, ghost s: Snapshot, ghost done: seq<Instr>)
      requires Valid() && Fits(done) && Fits(DotCode(want)) && Later(s, Now(), Bytes(done))
      modifies component, component.repr
      ensures Valid() && Blocks() && Fits(done + DotCode(want)) && Later(s, Now(), Bytes(done + DotCode(want)))
    {
      hide Component.Valid, Component.Bytes, Extends, Size, InstrSize, Bytes, Later, Fits;
      FitsCode(DotCode(want));
      assert DotCode(want)[0].Valid();
      if want.Tail? {
        Add(Op(DOT_TAIL), s, done);
      } else if want.Func? {
        Add(Op(DOT_FOR_SINGLE), s, done);
        Add(Op(CHECK_TYPE_FUNCTION), s, done + [Op(DOT_FOR_SINGLE)]);
        assert done + [Op(DOT_FOR_SINGLE)] + [Op(CHECK_TYPE_FUNCTION)] == done + DotCode(want);
      } else if want == SINGLE {
        Add(Op(DOT_FOR_SINGLE), s, done);
      } else {
        Add(OpWants(DOT_FOR_MANY, WantCode(want)), s, done);
      }
    }

    /** Emits the code of an expression. */
    method CompileExpr(e: Expr, want: Want, loop: nat)
      requires Valid() && Fits(Gen(t, e, want, constants, |Now().bytes|, loop).instrs)
      modifies this, component, component.repr
      ensures Emitted(Gen(t, e, want, old(constants), |old(Now().bytes)|, loop))
      decreases e, 2
    {
      hide Component.Valid, Component.Bytes, Extends, Size, InstrSize, Bytes, Later, Fits;
      match e {
        case Var(id, ref) => CompileVarref(id, ref, want);
        case Lit(l) => CompileLiteral(l, want);
        case Call(f, args) => CompileCall(e, f, args, want, loop);
        case Binary(_, _, _) => CompileBinaryCall(e, want, loop);
        case Values(_, _) => CompileValuesCall(e, want, loop);
        case Dot(_, _) => CompileDot(e, want, loop);
        case MethodRef(mm) => CompileMethodRef(mm, want, loop);
        case BodyExpr(b) => CompileBody(b, want, loop);
        case If(_, _, _) => CompileIf(e, want, loop);
        case Set(_, _, _) => CompileVarset(e, want, loop);
        case Loop(b) =>
          var position := component.CurrentPosition();
          CompileBody(b, want, position);
        case Repeat => CompileRepeat(loop);
      }
    }

    method CompileArgs(args: Exprs, want: Want, loop: nat) returns (nargs: nat)
      requires Valid() && Fits(GenArgs(t, args, want, constants, |Now().bytes|, loop).instrs)
      modifies this, component, component.repr
      ensures Emitted(GenArgs(t, args, want, old(constants), |old(Now().bytes)|, loop)) && nargs == ArgCount(args)
      decreases args, 2
    {
      hide Gen, Component.Valid, Component.Bytes, Extends, Size, InstrSize, Bytes, Later, Fits;
      if args.NoArgs? {
        LaterNow(this);
        return 0;
      }
      ghost var s, pos := Now(), |Now().bytes|;
      ghost var ec := Gen(t, args.expr, want, constants, pos, loop);
      ghost var rc := GenArgs(t, args.rest, want, ec.constants, pos + Size(ec.instrs), loop);
      FitsParts(ec.instrs, rc.instrs);
      CompileExpr(args.expr, want, loop);
      ghost var s1 := Now();
      LaterSize(s, s1, ec.instrs);
      nargs := CompileArgs(args.rest, want, loop);
      LaterCode(s, s1, Now(), ec.instrs, rc.instrs);
      nargs := nargs + 1;
    }

    // A function, its arguments, and the call.
    method CompileCall(ghost e: Expr, f: Expr, args: Exprs, want: Want, loop: nat)
      requires Valid() && f < e && args < e
      requires Fits(CallOf(t, f, args, want, constants, |Now().bytes|, loop).instrs)
      modifies this, component, component.repr
      ensures Emitted(CallOf(t, f, args, want, old(constants), |old(Now().bytes)|, loop))
      decreases e, 0
    {
      hide Gen, GenArgs, Component.Valid, Component.Bytes, Extends, Size, InstrSize, Bytes, Later, Fits, CallCode;
      ghost var s, pos := Now(), |Now().bytes|;
      ghost var fc := Gen(t, f, Func, constants, pos, loop);
      ghost var ac := GenArgs(t, args, SINGLE, fc.constants, pos + Size(fc.instrs), loop);
      FitsThree(fc.instrs, ac.instrs, CallCode(ArgCount(args), want));
      FitsParts(fc.instrs, ac.instrs);
      CompileExpr(f, Func, loop);
      ghost var s1 := Now();
      LaterSize(s, s1, fc.instrs);
      var nargs := CompileArgs(args, SINGLE, loop);
      LaterCode(s, s1, Now(), fc.instrs, ac.instrs);
      EmitCall(nargs, want, s, fc.instrs + ac.instrs);
    }

    // Two values.
    method CompilePair(ghost e: Expr, a: Expr, wa: Want, b: Expr, wb: Want, loop: nat)
      requires Valid() && a < e && b < e
      requires Fits(PairOf(t, a, wa, b, wb, constants, |Now().bytes|, loop).instrs)
      modifies this, component, component.repr
      ensures Emitted(PairOf(t, a, wa, b, wb, old(constants), |old(Now().bytes)|, loop))
      decreases e, 0
    {
      hide Gen, GenArgs, Component.Valid, Component.Bytes, Extends, Size, InstrSize, Bytes, Later, Fits;
      ghost var s, pos := Now(), |Now().bytes|;
      ghost var ac := Gen(t, a, wa, constants, pos, loop);
      ghost var bc := Gen(t, b, wb, ac.constants, pos + Size(ac.instrs), loop);
      FitsParts(ac.instrs, bc.instrs);
      CompileExpr(a, wa, loop);
      ghost var s1 := Now();
      LaterSize(s, s1, ac.instrs);
      CompileExpr(b, wb, loop);
      LaterCode(s, s1, Now(), ac.instrs, bc.instrs);
    }

    method CompileBinaryCall(e: Expr, want: Want, loop: nat)
      requires e.Binary? && Valid() && Fits(Gen(t, e, want, constants, |Now().bytes|, loop).instrs)
      modifies this, component, component.repr
      ensures Emitted(Gen(t, e, want, old(constants), |old(Now().bytes)|, loop))
      decreases e, 1
    {
      hide Component.Valid, Component.Bytes, Extends, Size, InstrSize, Bytes, Later, Fits, Canonicalize;
      ghost var s := Now();
      ghost var pc := PairOf(t, e.left, SINGLE, e.right, SINGLE, constants, |s.bytes|, loop);
      var op := Op(BinaryOp(e.op));
      FitsThree(pc.instrs, [op], Canonicalize(want));
      FitsOne(op);
      CompilePair(e, e.left, SINGLE, e.right, SINGLE, loop);
      Add(op, s, pc.instrs);
      CanonicalizeValue(want, s, pc.instrs + [op]);
    }

    method CompileDot(e: Expr, want: Want, loop: nat)
      requires e.Dot? && Valid() && Fits(Gen(t, e, want, constants, |Now().bytes|, loop).instrs)
      modifies this, component, component.repr
      ensures Emitted(Gen(t, e, want, old(constants), |old(Now().bytes)|, loop))
      decreases e, 1
    {
      hide Component.Valid, Component.Bytes, Extends, Size, InstrSize, Bytes, Later, Fits, DotCode;
      ghost var s := Now();
      ghost var pc := PairOf(t, e.arg, SINGLE, e.func, Func, constants, |s.bytes|, loop);
      FitsParts(pc.instrs, DotCode(want));
      CompilePair(e, e.arg, SINGLE, e.func, Func, loop);
      EmitDot(want, s, pc.instrs);
    }

    method CompileRepeat(loop: nat)
      requires Valid() && Fits([Branch(BRANCH, loop - (|Now().bytes| + 5))])
      modifies this, component, component.repr
      ensures Emitted(Code([Branch(BRANCH, loop - (|old(Now().bytes)| + 5))], old(constants)))
    {
      hide Component.Valid, Component.Bytes, Extends, Bytes, Fits;
      FitsOne(Branch(BRANCH, loop - (|Now().bytes| + 5)));
      ghost var s := Now();
      var branchLoc := EmitBranch(BRANCH);
      ghost var s1 := Now();
      var here := component.CurrentPosition();
      LaterNow(this);
      NoBytes();
      PatchBranch(branchLoc, here, loop, s, s1, BRANCH, []);
      ghost var branch := Branch(BRANCH, loop - (|s.bytes| + 5));
      PatchedCode(s, Now(), branch, []);
      assert [branch] + [] == [branch];
    }

    // A branch whose displacement is not known yet.
    method EmitBranch(op: Byte) returns (where: Location)
      requires Valid() && op in {BRANCH, CONDITIONAL_BRANCH}
      modifies this, component, component.repr
      ensures Valid() && Blocks() && constants == old(constants)
      ensures BranchBetween(old(Now()), Now(), op)
      ensures component.At(where, |old(Now()).bytes| + 1, 4)
    {
      hide Component.Valid, Component.Bytes, Extends;
      ghost var s := Now();
      component.EmitByte(op);
      ghost var s1 := Now();
      where := component.ReserveSpace(4);
      ExtendsTransitive(s.blocks, s.ends, s1.blocks, s1.ends, component.blocks, component.ends);
    }

    // Patches a branch: s was before it, s1 right after it, and `more` has been appended since.
    method PatchBranch(where: Location, here: nat, there: nat, ghost s: Snapshot, ghost s1: Snapshot, ghost op: Byte, ghost more: seq<Byte>)
      requires Valid() && op in {BRANCH, CONDITIONAL_BRANCH} && Branch(op, there - here).Valid()
      requires BranchBetween(s, s1, op) && Later(s1, Now(), more)
      requires component.At(where, |s.bytes| + 1, 4)
      modifies component.repr
      ensures Valid() && component.blocks == old(component.blocks) && component.ends == old(component.ends)
      ensures component.repr == old(component.repr)
      ensures Later(s, Now(), Encode(Branch(op, there - here)) + more)
    {
      hide Component.Valid, Component.Bytes, Extends, BranchBetween, Later, FourBytes, Encode, Overwritten;
      ghost var now := Now();
      component.WriteBranchDisplacement(where, here, there, |s.bytes| + 1);
      PatchLater(s, s1, now, Now(), op, there - here, more);
    }

    method CompileIf(e: Expr, want: Want, loop: nat)
      requires e.If? && Valid() && Fits(GenIf(t, e, want, constants, |Now().bytes|, loop).instrs)
      modifies this, component, component.repr
      ensures Emitted(GenIf(t, e, want, old(constants), |old(Now().bytes)|, loop))
      decreases e, 1
    {
      hide Gen, GenBody, Component.Valid, Component.Bytes, Extends, Size, InstrSize, Bytes, Later, Fits, Placed, Instr.Valid, Encode, BranchBetween, Component.At;
      ghost var s, pos := Now(), |Now().bytes|;
      ghost var skip := if want.Tail? then 0 else 5;
      ghost var cc := Gen(t, e.cond, SINGLE, constants, pos, loop);
      ghost var ac := GenBody(t, e.consequent, want, cc.constants, pos + Size(cc.instrs) + 5, loop);
      ghost var cbr := Branch(CONDITIONAL_BRANCH, Size(ac.instrs) + skip);
      ghost var bc := GenBody(t, e.alternate, want, ac.constants, pos + Size(cc.instrs) + 5 + Size(ac.instrs) + skip, loop);
      ghost var br := if want.Tail? then [] else [Branch(BRANCH, Size(bc.instrs))];
      FitsFive(cc.instrs, cbr, ac.instrs, br, bc.instrs);
      CompileExpr(e.cond, SINGLE, loop);
      ghost var s1 := Now();
      LaterSize(s, s1, cc.instrs);
      var condBranch := EmitBranch(CONDITIONAL_BRANCH);
      PlacedAt(this, condBranch, |s1.bytes| + 1);
      ghost var s2 := Now();
      BranchSize(s1, s2, CONDITIONAL_BRANCH);
      var consequentPos := component.CurrentPosition();
      CompileBody(e.consequent, want, loop);
      LaterSize(s2, Now(), ac.instrs);
      if want.Tail? {
        CompileTailAlternate(e, e.alternate, loop, condBranch, consequentPos, s1, s2, ac.instrs);
        LaterCode(s, s1, Now(), cc.instrs, [cbr] + ac.instrs + bc.instrs);
        Regroup(cc.instrs, cbr, ac.instrs, br, bc.instrs);
      } else {
        CompileAlternate(e, e.alternate, want, loop, condBranch, consequentPos, s1, s2, ac.instrs);
        LaterCode(s, s1, Now(), cc.instrs, [cbr] + ac.instrs + br + bc.instrs);
        Regroup(cc.instrs, cbr, ac.instrs, br, bc.instrs);
      }
    }

    // The consequent returns: the branch goes to the alternate right after it. s1 is before the
    // branch, s2 after it.
    method CompileTailAlternate(ghost e: Expr, b: Body, loop: nat, condBranch: Location, consequentPos: nat,
                                ghost s1: Snapshot, ghost s2: Snapshot, ghost a: seq<Instr>)
      requires Valid() && b < e && Fits(a) && Later(s2, Now(), Bytes(a)) && consequentPos == |s2.bytes|
      requires BranchBetween(s1, s2, CONDITIONAL_BRANCH) && Placed(s2.ends, condBranch, |s1.bytes| + 1, 4)
      requires Branch(CONDITIONAL_BRANCH, Size(a)).Valid()
      requires Fits(GenBody(t, b, Tail, constants, |s2.bytes| + Size(a), loop).instrs)
      requires Fits([Branch(CONDITIONAL_BRANCH, Size(a))] + a + GenBody(t, b, Tail, constants, |s2.bytes| + Size(a), loop).instrs)
      modifies this, component, component.repr
      ensures Valid() && Blocks()
      ensures var bc := GenBody(t, b, Tail, old(constants), |s2.bytes| + Size(a), loop);
              && constants == bc.constants && Fits([Branch(CONDITIONAL_BRANCH, Size(a))] + a + bc.instrs)
              && Later(s1, Now(), Bytes([Branch(CONDITIONAL_BRANCH, Size(a))] + a + bc.instrs))
      decreases e, 0
    {
      hide Gen, GenBody, Component.Valid, Component.Bytes, Extends, Size, InstrSize, Bytes, Later, Fits, Placed, Instr.Valid, Encode, BranchBetween, Component.At;
      ghost var s3, cbr := Now(), Branch(CONDITIONAL_BRANCH, Size(a));
      ghost var bc := GenBody(t, b, Tail, constants, |s2.bytes| + Size(a), loop);
      LaterSize(s2, s3, a);
      BranchSize(s1, s2, CONDITIONAL_BRANCH);
      LaterExtends(s2, s3, Bytes(a));
      LocationStays(s2.blocks, s2.ends, s3.blocks, s3.ends, condBranch, |s1.bytes| + 1, 4);
      PlacedAt(this, condBranch, |s1.bytes| + 1);
      var alternatePos := component.CurrentPosition();
      PatchBranch(condBranch, consequentPos, alternatePos, s1, s2, CONDITIONAL_BRANCH, Bytes(a));
      ghost var s4 := Now();
      PatchedCode(s1, s4, cbr, a);
      SizeOfBranched(s1, s4, cbr, a);
      CompileBody(b, Tail, loop);
      LaterCode(s1, s4, Now(), [cbr] + a, bc.instrs);
    }

    // The consequent goes on after the alternate.
    method CompileAlternate(ghost e: Expr, b: Body, want: Want, loop: nat, condBranch: Location, consequentPos: nat,
                            ghost s1: Snapshot, ghost s2: Snapshot, ghost a: seq<Instr>)
      requires Valid() && b < e && Fits(a) && Later(s2, Now(), Bytes(a)) && consequentPos == |s2.bytes|
      requires BranchBetween(s1, s2, CONDITIONAL_BRANCH) && Placed(s2.ends, condBranch, |s1.bytes| + 1, 4)
      requires Branch(CONDITIONAL_BRANCH, Size(a) + 5).Valid()
      requires var bc := GenBody(t, b, want, constants, |s2.bytes| + Size(a) + 5, loop);
               && Fits(bc.instrs) && Branch(BRANCH, Size(bc.instrs)).Valid()
               && Fits([Branch(CONDITIONAL_BRANCH, Size(a) + 5)] + a + [Branch(BRANCH, Size(bc.instrs))] + bc.instrs)
      modifies this, component, component.repr
      ensures Valid() && Blocks()
      ensures var bc := GenBody(t, b, want, old(constants), |s2.bytes| + Size(a) + 5, loop);
              var code := [Branch(CONDITIONAL_BRANCH, Size(a) + 5)] + a + [Branch(BRANCH, Size(bc.instrs))] + bc.instrs;
              constants == bc.constants && Fits(code) && Later(s1, Now(), Bytes(code))
      decreases e, 0
    {
      hide Gen, GenBody, Component.Valid, Component.Bytes, Extends, Size, InstrSize, Bytes, Later, Fits, Placed, Instr.Valid, Encode, BranchBetween, Component.At;
      ghost var s3, cbr := Now(), Branch(CONDITIONAL_BRANCH, Size(a) + 5);
      ghost var bc := GenBody(t, b, want, constants, |s2.bytes| + Size(a) + 5, loop);
      ghost var br := Branch(BRANCH, Size(bc.instrs));
      LaterSize(s2, s3, a);
      LaterExtends(s2, s3, Bytes(a));
      var doneBranch := EmitBranch(BRANCH);
      PlacedAt(this, doneBranch, |s3.bytes| + 1);
      var alternatePos := component.CurrentPosition();
      BranchSize(s3, Now(), BRANCH);
      BranchSize(s1, s2, CONDITIONAL_BRANCH);
      ghost var s3', four := Now(), Now().bytes[|s3.bytes|..];
      RoomAfter(s3, s3');
      LaterMore(s2, s3, s3', Bytes(a), four);
      LocationStays(s2.blocks, s2.ends, s3.blocks, s3.ends, condBranch, |s1.bytes| + 1, 4);
      LocationStays(s3.blocks, s3.ends, s3'.blocks, s3'.ends, condBranch, |s1.bytes| + 1, 4);
      PlacedAt(this, condBranch, |s1.bytes| + 1);
      PatchBranch(condBranch, consequentPos, alternatePos, s1, s2, CONDITIONAL_BRANCH, Bytes(a) + four);
      ghost var s5 := Now();
      // What has been patched, before the branch that is still to be patched.
      ghost var s4 := Snapshot(s3.blocks, s3.ends, s1.bytes + (Encode(cbr) + Bytes(a)));
      BeforeBranch(s1, s2, s3, s3', s4, s5, cbr, a, four);
      CompileBody(b, want, loop);
      ghost var s6 := Now();
      LaterSize(s5, s6, bc.instrs);
      LaterExtends(s5, s6, Bytes(bc.instrs));
      LocationStays(s5.blocks, s5.ends, s6.blocks, s6.ends, doneBranch, |s3.bytes| + 1, 4);
      PlacedAt(this, doneBranch, |s4.bytes| + 1);
      var donePos := component.CurrentPosition();
      PatchBranch(doneBranch, alternatePos, donePos, s4, s5, BRANCH, Bytes(bc.instrs));
      PatchedCode(s4, Now(), br, bc.instrs);
      FitsFour(cbr, a, br, bc.instrs);
      LaterCode(s1, s4, Now(), [cbr] + a, [br] + bc.instrs);
      RegroupArms(cbr, a, br, bc.instrs);
    }

    method CompileVarset(e: Expr, want: Want, loop: nat)
      requires e.Set? && Valid() && Fits(Gen(t, e, want, constants, |Now().bytes|, loop).instrs)
      modifies this, component, component.repr
      ensures Emitted(Gen(t, e, want, old(constants), |old(Now().bytes)|, loop))
      decreases e, 1
    {
      hide Component.Valid, Component.Bytes, Extends, Size, InstrSize, Bytes, Later, Fits, GenStore;
      ghost var s := Now();
      var w := if want.Func? then Func else SINGLE;
      ghost var vc := Gen(t, e.value, w, constants, |s.bytes|, loop);
      FitsParts(vc.instrs, GenStore(t, e.id, e.ref, want, vc.constants).instrs);
      CompileExpr(e.value, w, loop);
      ghost var s1 := Now();
      CompileStore(e.id, e.ref, want);
      LaterCode(s, s1, Now(), vc.instrs, GenStore(t, e.id, e.ref, want, vc.constants).instrs);
    }

    method CompileStore(id: Id, ref: Ref, want: Want)
      requires Valid() && Fits(GenStore(t, id, ref, want, constants).instrs)
      modifies this, component, component.repr
      ensures Emitted(GenStore(t, id, ref, want, old(constants)))
    {
      hide Component.Valid, Component.Bytes, Extends, Size, InstrSize, Bytes, Later, Canonicalize, Fits;
      ghost var s, code := Now(), GenStore(t, id, ref, want, constants).instrs;
      ghost var done: seq<Instr> := [];
      LaterNow(this);
      FitsCode(code);
      if want != NOTHING {
        Add(Op(DUP), s, done);
        done := [Op(DUP)];
        assert [] + done == done;
      }
      ghost var rest := if want.Func? || want == NOTHING then [] else Canonicalize(want);
      ghost var dup := done;
      if ref.binding.Some? {
        var b, p := Noted(t, ref.binding.value), RefPlace(t, ref.binding.value, ref);
        if b.home != ref.home || b.closedOver {
          assert code == dup + [PushPlace(p), Op(VALUE_CELL_SET)] + rest;
          assert code[|dup|] == PushPlace(p);
          Add(PushPlace(p), s, dup);
          Add(Op(VALUE_CELL_SET), s, dup + [PushPlace(p)]);
          done := dup + [PushPlace(p)] + [Op(VALUE_CELL_SET)];
          assert done == dup + [PushPlace(p), Op(VALUE_CELL_SET)];
        } else {
          assert code == dup + [PopPlace(p)] + rest;
          assert code[|dup|] == PopPlace(p);
          Add(PopPlace(p), s, dup);
          done := dup + [PopPlace(p)];
        }
      } else {
        var i := FindVariableIndex(id);
        assert code == dup + [OpArg(POP_VALUE, i)] + rest;
        assert code[|dup|] == OpArg(POP_VALUE, i);
        Add(OpArg(POP_VALUE, i), s, dup);
        done := dup + [OpArg(POP_VALUE, i)];
      }
      FitsParts(done, rest);
      if !want.Func? && want != NOTHING {
        CanonicalizeValue(want, s, done);
      } else {
        assert done + rest == done;
      }
    }

    method CompileValuesCall(e: Expr, want: Want, loop: nat)
      requires e.Values? && Valid() && Fits(GenValues(t, e, want, constants, |Now().bytes|, loop).instrs)
      modifies this, component, component.repr
      ensures Emitted(GenValues(t, e, want, old(constants), |old(Now().bytes)|, loop))
      decreases e, 1
    {
      hide Gen, GenArgs, GenFixed, Component.Valid, Component.Bytes, Extends, Size, InstrSize, Bytes, Later, Fits;
      ghost var s := Now();
      var args := e.args;
      if want.Tail? && args.Arg? && args.rest.NoArgs? {
        ghost var ec := Gen(t, args.expr, SINGLE, constants, |s.bytes|, loop);
        FitsParts(ec.instrs, [Op(RETURN_SINGLE)]);
        CompileExpr(args.expr, SINGLE, loop);
        Add(Op(RETURN_SINGLE), s, ec.instrs);
      } else if want.Func? {
        if args.NoArgs? {
          Emit(Op(PUSH_FALSE));
          Add(Op(CHECK_TYPE_FUNCTION), s, [Op(PUSH_FALSE)]);
          assert [Op(PUSH_FALSE)] + [Op(CHECK_TYPE_FUNCTION)] == [Op(PUSH_FALSE), Op(CHECK_TYPE_FUNCTION)];
        } else {
          ghost var ec := Gen(t, args.expr, Func, constants, |s.bytes|, loop);
          ghost var rc := GenArgs(t, args.rest, NOTHING, ec.constants, |s.bytes| + Size(ec.instrs), loop);
          FitsParts(ec.instrs, rc.instrs);
          CompileExpr(args.expr, Func, loop);
          ghost var s1 := Now();
          LaterSize(s, s1, ec.instrs);
          var n := CompileArgs(args.rest, NOTHING, loop);
          LaterCode(s, s1, Now(), ec.instrs, rc.instrs);
        }
      } else if want.Count? && !want.rest {
        CompileFixed(args, want.required, loop);
      } else {
        CompileCall(e, e.values, args, want, loop);
      }
    }

    method CompileFixed(args: Exprs, n: nat, loop: nat)
      requires Valid() && Fits(GenFixed(t, args, n, constants, |Now().bytes|, loop).instrs)
      modifies this, component, component.repr
      ensures Emitted(GenFixed(t, args, n, old(constants), |old(Now().bytes)|, loop))
      decreases args, 2
    {
      hide Gen, Component.Valid, Component.Bytes, Extends, Size, InstrSize, Bytes, Later, Fits;
      ghost var s := Now();
      if args.NoArgs? {
        LaterNow(this);
        assert seq(0, _ => Op(PUSH_FALSE)) == [];
        var i := 0;
        while i < n
          invariant i <= n && Valid() && Blocks() && constants == old(constants)
          invariant Fits(seq(i, _ => Op(PUSH_FALSE))) && Later(s, Now(), Bytes(seq(i, _ => Op(PUSH_FALSE))))
        {
          Add(Op(PUSH_FALSE), s, seq(i, _ => Op(PUSH_FALSE)));
          assert seq(i, _ => Op(PUSH_FALSE)) + [Op(PUSH_FALSE)] == seq(i + 1, _ => Op(PUSH_FALSE));
          i := i + 1;
        }
        return;
      }
      var w, m := if n > 0 then SINGLE else NOTHING, if n > 0 then n - 1 else 0;
      ghost var ec := Gen(t, args.expr, w, constants, |s.bytes|, loop);
      ghost var rc := GenFixed(t, args.rest, m, ec.constants, |s.bytes| + Size(ec.instrs), loop);
      FitsParts(ec.instrs, rc.instrs);
      CompileExpr(args.expr, w, loop);
      ghost var s1 := Now();
      LaterSize(s, s1, ec.instrs);
      CompileFixed(args.rest, m, loop);
      LaterCode(s, s1, Now(), ec.instrs, rc.instrs);
    }

    // Pushes the slots that a method takes with it, makes it.
    method CompileMethodRef(mm: Method, want: Want, loop: nat)
      requires Valid() && Fits(GenMethodRef(t, mm, want, constants, |Now().bytes|, loop).instrs)
      modifies this, component, component.repr
      ensures Emitted(GenMethodRef(t, mm, want, old(constants), |old(Now().bytes)|, loop))
      decreases mm, 1
    {
      hide Gen, Component.Valid, Component.Bytes, Extends, Size, InstrSize, Bytes, Later, Fits, Canonicalize, PushTaken;
      ghost var s := Now();
      var closes := Closes(t, mm.id);
      ghost var taken := PushTaken(t, closes);
      ghost var before := taken + [OpArg(PUSH_CONSTANT, |constants|)];
      ghost var sc := Gen(t, mm.specializers, SINGLE, constants + [MethodConst(mm)], |s.bytes| + Size(before), loop);
      ghost var make := [Op(PUSH_NIL), Op(PUSH_TRUE), MakeMethod(|closes|)];
      FitsThree(before + sc.instrs, make, Canonicalize(want));
      FitsParts(before, sc.instrs);
      FitsParts(taken, [OpArg(PUSH_CONSTANT, |constants|)]);
      FitsOne(OpArg(PUSH_CONSTANT, |constants|));
      CompileTaken(closes);
      var i := AddConstant(MethodConst(mm));
      Add(OpArg(PUSH_CONSTANT, i), s, taken);
      ghost var s1 := Now();
      LaterSize(s, s1, before);
      CompileExpr(mm.specializers, SINGLE, loop);
      LaterCode(s, s1, Now(), before, sc.instrs);
      CompileMake(|closes|, want, s, before + sc.instrs);
    }

    // Makes the method, with the types of its results, which are not given.
    method CompileMake(taken: nat, want: Want, ghost s: Snapshot, ghost done: seq<Instr>)
      requires Valid() && Fits(done) && Later(s, Now(), Bytes(done))
      requires Fits(Canonicalize(want))
      modifies component, component.repr
      ensures var code := done + [Op(PUSH_NIL), Op(PUSH_TRUE), MakeMethod(taken)] + Canonicalize(want);
              Valid() && Blocks() && Fits(code) && Later(s, Now(), Bytes(code))
    {
      hide Component.Valid, Component.Bytes, Extends, Bytes, Later, Fits, Canonicalize;
      ghost var make := [Op(PUSH_NIL), Op(PUSH_TRUE), MakeMethod(taken)];
      Add(Op(PUSH_NIL), s, done);
      Add(Op(PUSH_TRUE), s, done + [Op(PUSH_NIL)]);
      Add(MakeMethod(taken), s, done + [Op(PUSH_NIL)] + [Op(PUSH_TRUE)]);
      assert done + [Op(PUSH_NIL)] + [Op(PUSH_TRUE)] + [MakeMethod(taken)] == done + make;
      CanonicalizeValue(want, s, done + make);
    }

    method CompileTaken(closes: seq<Over>)
      requires Valid() && Fits(PushTaken(t, closes))
      modifies component, component.repr
      ensures Valid() && Blocks() && Later(old(Now()), Now(), Bytes(PushTaken(t, closes)))
    {
      hide Component.Valid, Component.Bytes, Extends, Size, InstrSize, Bytes, Later, Fits;
      ghost var s, code := Now(), PushTaken(t, closes);
      LaterNow(this);
      FitsCode(code);
      var i := 0;
      while i < |closes|
        invariant i <= |closes| && Valid() && Blocks()
        invariant Fits(code[..i]) && Later(s, Now(), Bytes(code[..i]))
      {
        var push := PushPlace(OverPlace(t, closes[|closes| - 1 - i]));
        assert code[i] == push;
        Add(push, s, code[..i]);
        assert code[..i] + [push] == code[..i + 1];
        i := i + 1;
      }
      assert code[..i] == code;
    }

    method CompileBody(b: Body, want: Want, loop: nat)
      requires Valid() && Fits(GenBody(t, b, want, constants, |Now().bytes|, loop).instrs)
      modifies this, component, component.repr
      ensures Emitted(GenBody(t, b, want, old(constants), |old(Now().bytes)|, loop))
      decreases b, 2
    {
      hide Component.Valid, Component.Bytes, Extends, Size, InstrSize, Bytes, Later, Fits;
      match b {
        case Last(e) => CompileExpr(e, want, loop);
        case Then(e, rest) =>
          ghost var s := Now();
          ghost var ec := Gen(t, e, NOTHING, constants, |s.bytes|, loop);
          ghost var rc := GenBody(t, rest, want, ec.constants, |s.bytes| + Size(ec.instrs), loop);
          FitsParts(ec.instrs, rc.instrs);
          CompileExpr(e, NOTHING, loop);
          ghost var s1 := Now();
          LaterSize(s, s1, ec.instrs);
          CompileBody(rest, want, loop);
          LaterCode(s, s1, Now(), ec.instrs, rc.instrs);
        case Let(_, _, _, _, _, _) => CompileLet(b, want, loop);
        case Local(_, _, _, _) => CompileLocal(b, want, loop);
      }
    }

    method CompileLet(b: Body, want: Want, loop: nat)
      requires b.Let? && Valid() && Fits(GenBody(t, b, want, constants, |Now().bytes|, loop).instrs)
      modifies this, component, component.repr
      ensures Emitted(GenBody(t, b, want, old(constants), |old(Now().bytes)|, loop))
      decreases b, 1
    {
      hide Gen, Component.Valid, Component.Bytes, Extends, Size, InstrSize, Bytes, Later, Fits, GenPops;
      ghost var s := Now();
      var w, n := Count(|b.vars|, b.restVar.Some?), |LetVars(b.vars, b.restVar)|;
      ghost var ic := Gen(t, b.init, w, constants, |s.bytes|, loop);
      ghost var pops := GenPops(t, b.first, n);
      ghost var bc := GenBody(t, b.body, want, ic.constants, |s.bytes| + Size(ic.instrs) + Size(pops), loop);
      FitsThree(ic.instrs, pops, bc.instrs);
      FitsParts(ic.instrs, pops);
      CompileExpr(b.init, w, loop);
      ghost var s1 := Now();
      CompilePops(b.first, n);
      LaterCode(s, s1, Now(), ic.instrs, pops);
      ghost var s2 := Now();
      LaterSize(s, s2, ic.instrs + pops);
      SizeOfParts(ic.instrs, pops);
      CompileBody(b.body, want, loop);
      LaterCode(s, s2, Now(), ic.instrs + pops, bc.instrs);
    }

    method CompilePops(first: nat, n: nat)
      requires Valid() && Fits(GenPops(t, first, n))
      modifies component, component.repr
      ensures Valid() && Blocks() && Later(old(Now()), Now(), Bytes(GenPops(t, first, n)))
      decreases n
    {
      hide Component.Valid, Component.Bytes, Extends, Size, InstrSize, Bytes, Later, Fits;
      ghost var s := Now();
      LaterNow(this);
      if n == 0 {
        return;
      }
      var b := first + n - 1;
      var p := HomePlace(t, b);
      ghost var box := if Noted(t, b).Boxed() then [Op(MAKE_VALUE_CELL)] else [];
      FitsThree(box, [PopPlace(p)], GenPops(t, first, n - 1));
      FitsParts(box, [PopPlace(p)]);
      FitsOne(PopPlace(p));
      if Noted(t, b).Boxed() {
        Emit(Op(MAKE_VALUE_CELL));
      }
      Add(PopPlace(p), s, box);
      ghost var s1 := Now();
      CompilePops(first, n - 1);
      LaterCode(s, s1, Now(), box + [PopPlace(p)], GenPops(t, first, n - 1));
    }

    method CompileLocal(b: Body, want: Want, loop: nat)
      requires b.Local? && Valid() && Fits(GenBody(t, b, want, constants, |Now().bytes|, loop).instrs)
      modifies this, component, component.repr
      ensures Emitted(GenBody(t, b, want, old(constants), |old(Now().bytes)|, loop))
      decreases b, 1
    {
      hide GenMethods, Component.Valid, Component.Bytes, Extends, Size, InstrSize, Bytes, Later, Fits, GenCells;
      ghost var s := Now();
      var n := |Names(b.methods)|;
      ghost var cells := GenCells(t, b.first, n);
      ghost var mc := GenMethods(t, b.methods, b.first, constants, |s.bytes| + Size(cells), loop);
      ghost var bc := GenBody(t, b.body, want, mc.constants, |s.bytes| + Size(cells) + Size(mc.instrs), loop);
      FitsThree(cells, mc.instrs, bc.instrs);
      FitsParts(cells, mc.instrs);
      CompileCells(b.first, n);
      ghost var s1 := Now();
      LaterSize(s, s1, cells);
      CompileMethods(b.methods, b.first, loop);
      LaterCode(s, s1, Now(), cells, mc.instrs);
      ghost var s2 := Now();
      LaterSize(s, s2, cells + mc.instrs);
      SizeOfParts(cells, mc.instrs);
      CompileBody(b.body, want, loop);
      LaterCode(s, s2, Now(), cells + mc.instrs, bc.instrs);
    }

    method CompileCells(first: nat, n: nat)
      requires Valid() && Fits(GenCells(t, first, n))
      modifies component, component.repr
      ensures Valid() && Blocks() && Later(old(Now()), Now(), Bytes(GenCells(t, first, n)))
      decreases n
    {
      hide Component.Valid, Component.Bytes, Extends, Size, InstrSize, Bytes, Later, Fits;
      ghost var s := Now();
      LaterNow(this);
      if n == 0 {
        return;
      }
      var b := first + n - 1;
      var p := HomePlace(t, b);
      ghost var before := GenCells(t, first, n - 1);
      FitsParts(before, if Noted(t, b).closedOver then [Op(PUSH_FALSE), Op(MAKE_VALUE_CELL), PopPlace(p)] else []);
      CompileCells(first, n - 1);
      if Noted(t, b).closedOver {
        FitsCode([Op(PUSH_FALSE), Op(MAKE_VALUE_CELL), PopPlace(p)]);
        assert [Op(PUSH_FALSE), Op(MAKE_VALUE_CELL), PopPlace(p)][2] == PopPlace(p);
        Add(Op(PUSH_FALSE), s, before);
        Add(Op(MAKE_VALUE_CELL), s, before + [Op(PUSH_FALSE)]);
        Add(PopPlace(p), s, before + [Op(PUSH_FALSE)] + [Op(MAKE_VALUE_CELL)]);
        assert before + [Op(PUSH_FALSE)] + [Op(MAKE_VALUE_CELL)] + [PopPlace(p)] == GenCells(t, first, n);
      } else {
        assert before + [] == before;
      }
    }

    method CompileMethods(ms: Methods, b: nat, loop: nat)
      requires Valid() && Fits(GenMethods(t, ms, b, constants, |Now().bytes|, loop).instrs)
      modifies this, component, component.repr
      ensures Emitted(GenMethods(t, ms, b, old(constants), |old(Now().bytes)|, loop))
      decreases ms, 1
    {
      hide GenMethodRef, Component.Valid, Component.Bytes, Extends, Size, InstrSize, Bytes, Later, Fits;
      ghost var s := Now();
      if ms.NoMethods? {
        LaterNow(this);
        return;
      }
      var p := HomePlace(t, b);
      ghost var mc := GenMethodRef(t, ms.method_, SINGLE, constants, |s.bytes|, loop);
      ghost var store := if Noted(t, b).closedOver then [PushPlace(p), Op(VALUE_CELL_SET)] else [PopPlace(p)];
      ghost var rc := GenMethods(t, ms.rest, b + 1, mc.constants, |s.bytes| + Size(mc.instrs) + Size(store), loop);
      FitsThree(mc.instrs, store, rc.instrs);
      FitsParts(mc.instrs, store);
      FitsCode(store);
      assert store[0].Valid();
      CompileMethodRef(ms.method_, SINGLE, loop);
      if Noted(t, b).closedOver {
        Add(PushPlace(p), s, mc.instrs);
        Add(Op(VALUE_CELL_SET), s, mc.instrs + [PushPlace(p)]);
        assert mc.instrs + [PushPlace(p)] + [Op(VALUE_CELL_SET)] == mc.instrs + store;
      } else {
        Add(PopPlace(p), s, mc.instrs);
      }
      ghost var s2 := Now();
      LaterSize(s, s2, mc.instrs + store);
      SizeOfParts(mc.instrs, store);
      CompileMethods(ms.rest, b + 1, loop);
      LaterCode(s, s2, Now(), mc.instrs + store, rc.instrs);
    }

    method CompileBoxes(first: nat, n: nat)
      requires Valid() && Fits(GenBoxes(t, first, n))
      modifies component, component.repr
      ensures Valid() && Blocks() && Later(old(Now()), Now(), Bytes(GenBoxes(t, first, n)))
      decreases n
    {
      hide Component.Valid, Component.Bytes, Extends, Size, InstrSize, Bytes, Later, Fits;
      ghost var s := Now();
      LaterNow(this);
      if n == 0 {
        return;
      }
      var b := first + n - 1;
      var p := HomePlace(t, b);
      ghost var box := if Noted(t, b).Boxed() then [PushPlace(p), Op(MAKE_VALUE_CELL), PopPlace(p)] else [];
      FitsParts(box, GenBoxes(t, first, n - 1));
      FitsCode(box);
      if Noted(t, b).Boxed() {
        assert box[0] == PushPlace(p) && box[2] == PopPlace(p);
        Emit(PushPlace(p));
        Add(Op(MAKE_VALUE_CELL), s, [PushPlace(p)]);
        Add(PopPlace(p), s, [PushPlace(p)] + [Op(MAKE_VALUE_CELL)]);
        assert [PushPlace(p)] + [Op(MAKE_VALUE_CELL)] + [PopPlace(p)] == box;
      }
      ghost var s1 := Now();
      CompileBoxes(first, n - 1);
      LaterCode(s, s1, Now(), box, GenBoxes(t, first, n - 1));
    }

    /** Emits the component of a method. */
    method CompileMethod(mm: Method)
      requires Valid() && constants == [] && Now().bytes == [] && Fits(GenMethod(t, mm).instrs)
      modifies this, component, component.repr
      ensures Valid() && Blocks() && Now().bytes == Bytes(GenMethod(t, mm).instrs) && constants == GenMethod(t, mm).constants
    {
      hide Component.Valid, Component.Bytes, Extends, Bytes, Fits;
      ghost var s := Now();
      var first := FirstParam(t, mm.id);
      ghost var boxes := GenBoxes(t, first, |mm.Bound()|);
      ghost var bc := GenBody(t, mm.body, Tail, [], Size(boxes), 0);
      FitsParts(boxes, bc.instrs);
      CompileBoxes(first, |mm.Bound()|);
      ghost var s1 := Now();
      LaterSize(s, s1, boxes);
      CompileBody(mm.body, Tail, 0);
      LaterCode(s, s1, Now(), boxes, bc.instrs);
    }
  }

  lemma FitsFive(c: seq<Instr>, cbr: Instr, a: seq<Instr>, br: seq<Instr>, b: seq<Instr>)
    requires Fits(c + [cbr] + a + br + b)
    ensures Fits(c) && cbr.Valid() && Fits(a) && Fits(br) && Fits(b)
    ensures Fits([cbr] + a + b) && Fits([cbr] + a + br + b)
    ensures Fits(c + ([cbr] + a + b)) && Fits(c + ([cbr] + a + br + b))
    ensures |br| == 1 ==> br[0].Valid()
  {
    FitsParts(c + [cbr] + a + br, b);
    FitsParts(c + [cbr] + a, br);
    FitsParts(c + [cbr], a);
    FitsParts(c, [cbr]);
    FitsOne(cbr);
    FitsParts([cbr], a);
    FitsParts([cbr] + a, b);
    FitsParts([cbr] + a, br);
    FitsParts([cbr] + a + br, b);
    FitsParts(c, [cbr] + a + b);
    FitsParts(c, [cbr] + a + br + b);
    if |br| == 1 { assert br[0] in br; }
  }

  lemma FitsFour(cbr: Instr, a: seq<Instr>, br: Instr, b: seq<Instr>)
    requires Fits([cbr] + a + [br] + b)
    ensures Fits([cbr] + a + ([br] + b))
  {
    assert [cbr] + a + ([br] + b) == [cbr] + a + [br] + b;
  }

  lemma SizeOfBranched(s: Snapshot, s': Snapshot, branch: Instr, a: seq<Instr>)
    requires branch.Branch? && Fits([branch] + a) && Later(s, s', Bytes([branch] + a))
    ensures |s'.bytes| == |s.bytes| + 5 + Size(a)
  {
    LaterSize(s, s', [branch] + a);
    SizeOfParts([branch], a);
    assert [branch][1..] == [];
  }

  // A location in the component, as a fact about its blocks.
  lemma PlacedAt(c: Compiler, where: Location, position: nat)
    requires c.Valid()
    ensures c.component.At(where, position, 4) <==> Placed(c.component.ends, where, position, 4)
  {
  }

  lemma BranchSize(s: Snapshot, s': Snapshot, op: Byte)
    requires BranchBetween(s, s', op)
    ensures |s'.bytes| == |s.bytes| + 5
  {
  }

  lemma RoomAfter(s: Snapshot, s': Snapshot)
    requires BranchBetween(s, s', BRANCH)
    ensures s'.bytes == s.bytes + s'.bytes[|s.bytes|..] && Extends(s.blocks, s.ends, s'.blocks, s'.ends)
  {
    assert s'.bytes[..|s.bytes|] == s'.bytes[..|s.bytes| + 1][..|s.bytes|];
  }

  lemma Regroup(c: seq<Instr>, cbr: Instr, a: seq<Instr>, br: seq<Instr>, b: seq<Instr>)
    ensures c + ([cbr] + a + br + b) == c + [cbr] + a + br + b
    ensures br == [] ==> c + ([cbr] + a + b) == c + [cbr] + a + br + b
  {
  }

  lemma RegroupArms(cbr: Instr, a: seq<Instr>, br: Instr, b: seq<Instr>)
    ensures [cbr] + a + ([br] + b) == [cbr] + a + [br] + b
  {
  }

  lemma BeforeBranch(s1: Snapshot, s2: Snapshot, s3: Snapshot, s3': Snapshot, s4: Snapshot, s5: Snapshot,
                     cbr: Instr, a: seq<Instr>, four: seq<Byte>)
    requires cbr.Branch? && cbr.Valid() && Fits(a) && BranchBetween(s1, s2, CONDITIONAL_BRANCH) && Later(s2, s3, Bytes(a))
    requires BranchBetween(s3, s3', BRANCH) && s3'.bytes == s3.bytes + four
    requires s5.blocks == s3'.blocks && s5.ends == s3'.ends && Later(s1, s5, Encode(cbr) + (Bytes(a) + four))
    requires s4 == Snapshot(s3.blocks, s3.ends, s1.bytes + (Encode(cbr) + Bytes(a)))
    ensures Fits([cbr] + a) && Later(s1, s4, Bytes([cbr] + a)) && BranchBetween(s4, s5, BRANCH)
    ensures |s4.bytes| == |s1.bytes| + 5 + Size(a) && |s4.bytes| == |s3.bytes| && |s5.bytes| == |s4.bytes| + 5
  {
    hide Encode;
    LaterExtendsTwice(s1, s2, s3, Bytes(a));
    LaterSize(s2, s3, a);
    PatchedCode(s1, s4, cbr, a);
    SizeOfBranched(s1, s4, cbr, a);
    assert s5.bytes == s4.bytes + four;
    assert four == s3'.bytes[|s3.bytes|..];
    assert four[..1] == [BRANCH] by { assert s3'.bytes[..|s3.bytes| + 1][|s3.bytes|] == four[0]; }
  }

  lemma LaterExtends(s: Snapshot, s': Snapshot, more: seq<Byte>)
    requires Later(s, s', more)
    ensures Extends(s.blocks, s.ends, s'.blocks, s'.ends)
  {
  }

  lemma LaterExtendsTwice(s: Snapshot, s1: Snapshot, s2: Snapshot, more: seq<Byte>)
    requires Extends(s.blocks, s.ends, s1.blocks, s1.ends) && Later(s1, s2, more)
    ensures Extends(s.blocks, s.ends, s2.blocks, s2.ends)
  {
    ExtendsTransitive(s.blocks, s.ends, s1.blocks, s1.ends, s2.blocks, s2.ends);
  }

  lemma LaterMore(s: Snapshot, s1: Snapshot, s2: Snapshot, more: seq<Byte>, more': seq<Byte>)
    requires Later(s, s1, more) && Extends(s1.blocks, s1.ends, s2.blocks, s2.ends) && s2.bytes == s1.bytes + more'
    ensures Later(s, s2, more + more')
  {
    LaterTransitive(s, s1, s2, more, more');
  }

  // A patched branch and the code after it.
  lemma PatchedCode(s: Snapshot, s': Snapshot, branch: Instr, code: seq<Instr>)
    requires branch.Valid() && Fits(code) && Later(s, s', Encode(branch) + Bytes(code))
    ensures Fits([branch] + code) && Later(s, s', Bytes([branch] + code))
  {
    FitsOne(branch);
    FitsParts([branch], code);
    BytesParts([branch], code);
    BytesOne(branch);
  }

  // A call, and two values, as parts of the code of an expression.
  function CallOf(t: Tables, f: Expr, args: Exprs, want: Want, cs: seq<Constant>, pos: nat, loop: nat): Code {
    var fc := Gen(t, f, Func, cs, pos, loop);
    var ac := GenArgs(t, args, SINGLE, fc.constants, pos + Size(fc.instrs), loop);
    Code(fc.instrs + ac.instrs + CallCode(ArgCount(args), want), ac.constants)
  }

  function PairOf(t: Tables, a: Expr, wa: Want, b: Expr, wb: Want, cs: seq<Constant>, pos: nat, loop: nat): Code {
    var ac := Gen(t, a, wa, cs, pos, loop);
    var bc := Gen(t, b, wb, ac.constants, pos + Size(ac.instrs), loop);
    Code(ac.instrs + bc.instrs, bc.constants)
  }

  lemma LaterNow(c: Compiler)
    requires c.Valid()
    ensures Fits([]) && Later(c.Now(), c.Now(), Bytes([]))
  {
    assert c.Now().bytes + [] == c.Now().bytes;
  }

  lemma NoBytes()
    ensures Fits([]) && Bytes([]) == []
  {
  }

  // What patching a branch makes of the bytes.
  lemma PatchLater(s: Snapshot, s1: Snapshot, now: Snapshot, patched: Snapshot, op: Byte, disp: int, more: seq<Byte>)
    requires op in {BRANCH, CONDITIONAL_BRANCH} && Branch(op, disp).Valid()
    requires BranchBetween(s, s1, op) && Later(s1, now, more)
    requires patched.blocks == now.blocks && patched.ends == now.ends
    requires |s.bytes| + 5 <= |now.bytes|
    requires patched.bytes == Overwritten(now.bytes, |s.bytes| + 1, FourBytes(Unsigned(disp)))
    ensures Later(s, patched, Encode(Branch(op, disp)) + more)
  {
    hide Extends, FourBytes;
    var four := FourBytes(Unsigned(disp));
    var room := s1.bytes[|s.bytes| + 1..];
    assert s1.bytes == s.bytes + [op] + room;
    Patched(s.bytes + [op], room, more, four);
    assert s.bytes + [op] + four + more == s.bytes + ([op] + four + more);
    ExtendsTransitive(s.blocks, s.ends, s1.blocks, s1.ends, now.blocks, now.ends);
  }

  // How far it is after some code.
  lemma LaterSize(s: Snapshot, s': Snapshot, code: seq<Instr>)
    requires Fits(code) && Later(s, s', Bytes(code))
    ensures |s'.bytes| == |s.bytes| + Size(code)
  {
    BytesSize(code);
  }

  // The instructions of a short piece of code.
  lemma FitsCode(code: seq<Instr>)
    requires Fits(code)
    ensures forall k :: 0 <= k < |code| ==> code[k].Valid()
  {
    forall k | 0 <= k < |code| ensures code[k].Valid() { assert code[k] in code; }
  }

  lemma FitsThree(a: seq<Instr>, b: seq<Instr>, c: seq<Instr>)
    ensures Fits(a + b + c) <==> Fits(a) && Fits(b) && Fits(c)
  {
    FitsParts(a, b);
    FitsParts(a + b, c);
  }

  lemma FitsOne(i: Instr)
    ensures Fits([i]) <==> i.Valid()
  {
    assert i in [i];
  }

  lemma {:induction false} FirstIndex(cs: seq<Constant>, c: Constant, i: nat)
    requires i < |cs| && cs[i] == c && forall j :: 0 <= j < i ==> cs[j] != c
    ensures c in cs && IndexOf(cs, c) == i
  {
  }
}
