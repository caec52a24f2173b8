/**
 The code of a few small methods, instruction by instruction: what is evaluated first, where the
 parameters are, and how many values are asked for.
 */
module Listings {
  import opened Wrappers
  import opened Bytecode
  import opened Programs
  import opened Slots
  import opened Codegen

  const X := Id("x", false)
  const Y := Id("y", false)
  const F := Id("f", false)
  const XREF := Var(X, Ref(Some(0), 1, 0))
  const YREF := Var(Y, Ref(Some(1), 1, 0))
  const FREF := Var(F, Ref(None, 1, 0))

  // method (x, y): x has argument slot 2, y 1, and the next methods 0. The others are local.
  const TABLES := Tables([Binding(X, 1, false, false, false, true, 0), Binding(Y, 1, false, false, false, true, 1),
                          Binding(X, 1, false, false, false, false, 0), Binding(Y, 1, false, false, false, false, 1)],
                         [MethodInfo(0, 0, [], 1, [], 0), MethodInfo(0, 0, [], 3, [], 2)])

  function Listed(b: Body): seq<Instr> {
    GenMethod(TABLES, Method(Id("", true), [X, Y], None, [], None, Lit(NilLit), b, 1)).instrs
  }

  lemma ListedIs(b: Body)
    ensures Listed(b) == GenBody(TABLES, b, Tail, [], 0, 0).instrs
  {
    var mm := Method(Id("", true), [X, Y], None, [], None, Lit(NilLit), b, 1);
    assert |mm.Bound()| == 2;
    assert GenBoxes(TABLES, 0, 0) == [];
    assert GenBoxes(TABLES, 0, 1) == [];
    assert GenBoxes(TABLES, 0, 2) == [];
    assert GenMethod(TABLES, mm).instrs == [] + GenBody(TABLES, b, Tail, [], 0, 0).instrs;
  }

  // if (x) f(x, 1) else y end
  const CALL := Call(FREF, Arg(XREF, Arg(Lit(IntLit(1)), NoArgs)))

  lemma CallListed(pos: nat, loop: nat)
    ensures Gen(TABLES, CALL, Tail, [], pos, loop).instrs == [OpArg(0xb0, 0), OpArg(0x30, 2), PushByte(1), OpArg(0x70, 2)]
  {
    hide Size;
    var t := TABLES;
    assert FindVariable([], F) == (0, [VarConst(F)]);
    forall p: nat ensures Gen(t, XREF, SINGLE, [VarConst(F)], p, loop).instrs == [OpArg(0x30, 2)] {}
    forall p: nat ensures GenArgs(t, Arg(Lit(IntLit(1)), NoArgs), SINGLE, [VarConst(F)], p, loop).instrs == [PushByte(1)] {}
    assert ArgCount(CALL.args) == 2;
  }

  /** The function is pushed before the arguments, and these in order; a test that is false branches
      over the consequent; what comes last is a tail call or a return. */
  lemma ConditionalListed()
    ensures Listed(Last(If(XREF, Last(CALL), Last(YREF)))) ==
            [OpArg(0x30, 2), Branch(12, 5), OpArg(0xb0, 0), OpArg(0x30, 2), PushByte(1), OpArg(0x70, 2), OpArg(0x30, 1), Op(2)]
  {
    hide Gen, Size;
    var t, e := TABLES, If(XREF, Last(CALL), Last(YREF));
    ListedIs(Last(e));
    var call := [OpArg(0xb0, 0), OpArg(0x30, 2), PushByte(1), OpArg(0x70, 2)];
    assert Size(call) == 5 by { SizeOfCall(); }
    VarsListed(0, [], 0);
    CallListed(Size([OpArg(0x30, 2)]) + 5, 0);
    forall cs, pos: nat { TailListed(cs, pos, 0); }
    assert Gen(t, e, Tail, [], 0, 0) == GenIf(t, e, Tail, [], 0, 0) by { IfListed(e); }
  }

  lemma SizeOfCall()
    ensures Size([OpArg(0xb0, 0), OpArg(0x30, 2), PushByte(1), OpArg(0x70, 2)]) == 5
  {
    assert Size([OpArg(0x70, 2)]) == 1;
    assert [PushByte(1), OpArg(0x70, 2)][1..] == [OpArg(0x70, 2)];
    assert [OpArg(0x30, 2), PushByte(1), OpArg(0x70, 2)][1..] == [PushByte(1), OpArg(0x70, 2)];
    assert [OpArg(0xb0, 0), OpArg(0x30, 2), PushByte(1), OpArg(0x70, 2)][1..] == [OpArg(0x30, 2), PushByte(1), OpArg(0x70, 2)];
  }

  lemma IfListed(e: Expr)
    requires e.If?
    ensures Gen(TABLES, e, Tail, [], 0, 0) == GenIf(TABLES, e, Tail, [], 0, 0)
  {
  }

  lemma VarsListed(pos: nat, cs: seq<Constant>, loop: nat)
    ensures Gen(TABLES, XREF, SINGLE, cs, pos, loop) == Code([OpArg(0x30, 2)], cs)
    ensures Gen(TABLES, YREF, SINGLE, cs, pos, loop) == Code([OpArg(0x30, 1)], cs)
  {
  }

  lemma TailListed(cs: seq<Constant>, pos: nat, loop: nat)
    ensures Gen(TABLES, YREF, Tail, cs, pos, loop) == Code([OpArg(0x30, 1), Op(2)], cs)
  {
  }

  /** x - y */
  lemma DifferenceListed()
    ensures Listed(Last(Binary(1, XREF, YREF))) == [OpArg(0x30, 2), OpArg(0x30, 1), Op(0xf1), Op(2)]
  {
    hide Size;
    ListedIs(Last(Binary(1, XREF, YREF)));
    forall pos: nat { VarsListed(pos, [], 0); }
  }

  /** x.f: the argument is pushed before the function. */
  lemma DotListed()
    ensures Listed(Last(Dot(XREF, FREF))) == [OpArg(0x30, 2), OpArg(0xb0, 0), Op(19)]
  {
    hide Size;
    ListedIs(Last(Dot(XREF, FREF)));
    VarsListed(0, [], 0);
    FunctionListed(Size([OpArg(0x30, 2)]));
    assert Gen(TABLES, Dot(XREF, FREF), Tail, [], 0, 0).instrs == [OpArg(0x30, 2)] + [OpArg(0xb0, 0)] + [Op(19)] by {
      hide GenVar;
    }
  }

  lemma FunctionListed(pos: nat)
    ensures Gen(TABLES, FREF, Func, [], pos, 0).instrs == [OpArg(0xb0, 0)]
  {
  }

  /** let (x, #rest y) = f(); x := y; x: one value and the others are wanted, the last variable is
      popped first, and an assignment that is not used leaves nothing. */
  lemma LetListed()
    ensures Listed(Let([X], Some(Y), Call(FREF, NoArgs), 2, 0,
                       Then(Set(X, Ref(Some(2), 1, 0), Var(Y, Ref(Some(3), 1, 0))), Last(Var(X, Ref(Some(2), 1, 0)))))) ==
            [OpArg(0xb0, 0), CallForMany(0, 3), OpArg(0x60, 1), OpArg(0x60, 0),
             OpArg(0x50, 1), OpArg(0x60, 0), OpArg(0x50, 0), Op(2)]
  {
    hide Size, Gen;
    var t, b := TABLES, Then(Set(X, Ref(Some(2), 1, 0), Var(Y, Ref(Some(3), 1, 0))), Last(Var(X, Ref(Some(2), 1, 0))));
    ListedIs(Let([X], Some(Y), Call(FREF, NoArgs), 2, 0, b));
    assert LetVars([X], Some(Y)) == [X, Y];
    LetCallListed();
    PopsListed();
    forall cs, pos: nat ensures GenBody(t, b, Tail, cs, pos, 0).instrs == [OpArg(0x50, 1), OpArg(0x60, 0), OpArg(0x50, 0), Op(2)] {
      AssignmentListed(cs, pos);
      ReadListed(cs, pos + Size([OpArg(0x50, 1), OpArg(0x60, 0)]));
    }
  }

  lemma LetCallListed()
    ensures Gen(TABLES, Call(FREF, NoArgs), Count(1, true), [], 0, 0).instrs == [OpArg(0xb0, 0), CallForMany(0, 3)]
  {
    hide Size;
    assert Gen(TABLES, FREF, Func, [], 0, 0).instrs == [OpArg(0xb0, 0)];
  }

  lemma PopsListed()
    ensures GenPops(TABLES, 2, 2) == [OpArg(0x60, 1), OpArg(0x60, 0)]
  {
    assert GenPops(TABLES, 2, 0) == [];
    assert GenPops(TABLES, 2, 1) == [OpArg(0x60, 0)];
  }

  lemma AssignmentListed(cs: seq<Constant>, pos: nat)
    ensures Gen(TABLES, Set(X, Ref(Some(2), 1, 0), Var(Y, Ref(Some(3), 1, 0))), NOTHING, cs, pos, 0)
         == Code([OpArg(0x50, 1), OpArg(0x60, 0)], cs)
  {
    hide Size;
    assert Gen(TABLES, Var(Y, Ref(Some(3), 1, 0)), SINGLE, cs, pos, 0) == Code([OpArg(0x50, 1)], cs);
  }

  lemma ReadListed(cs: seq<Constant>, pos: nat)
    ensures Gen(TABLES, Var(X, Ref(Some(2), 1, 0)), Tail, cs, pos, 0) == Code([OpArg(0x50, 0), Op(2)], cs)
  {
  }
}
