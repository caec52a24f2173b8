/**
 The machine, given the code of a program, does what the compiled program does.

 A result is followed backwards: if from the end of a piece of code execution ends in some
 result, then from its start it ends in the same result.
 */
module Execution {
  import opened Wrappers
  import opened Bytecode
  import opened Programs
  import opened Semantics
  import opened Slots
  import opened Codegen
  import opened StackDepth
  import opened Machine

  // The code that runs, and what it is to end in.
  datatype Job = Job(m: Meaning, t: Tables, code: Code, r: Goal)

  // The same a step later.
  function Soon(j: Job): Job {
    j.(r := Sooner(j.r))
  }

  // The compiler omits checks, which is fine under its assumptions, and in what returns anyway.
  ghost predicate Trusts(m: Meaning, t: Tables, g: Goal) {
    (m.assumed.Some? && forall b: nat :: Noted(t, b).function_ ==> m.assumed.value(b)) || Returns(g)
  }

  predicate Returns(g: Goal) {
    g.Gives? && g.result.Returned?
  }

  ghost predicate Ends(j: Job, pc: nat, stack: seq<Value>, fr: Frame, s: State) {
    EndsIn(j.m, j.t, j.code, Config(pc, stack, fr, s), j.r)
  }

  // A part of the code, from instruction `at`, at byte `pos`.
  ghost predicate Within(code: Code, at: nat, part: seq<Instr>, pos: nat, cs: seq<Constant>) {
    && at + |part| <= |code.instrs| && code.instrs[at..at + |part|] == part
    && Size(code.instrs[..at]) == pos
    && cs <= code.constants
  }

  lemma {:induction false} WithinParts(code: Code, at: nat, a: seq<Instr>, b: seq<Instr>, pos: nat, cs: seq<Constant>)
    requires Within(code, at, a + b, pos, cs)
    ensures Within(code, at, a, pos, cs) && Within(code, at + |a|, b, pos + Size(a), cs)
  {
    var l := code.instrs;
    assert l[at..at + |a|] == (a + b)[..|a|];
    assert l[at + |a|..at + |a| + |b|] == (a + b)[|a|..];
    assert l[..at + |a|] == l[..at] + a;
    SizeOfParts(l[..at], a);
  }

  lemma {:induction false} WithinLess(code: Code, at: nat, a: seq<Instr>, pos: nat, cs: seq<Constant>, cs': seq<Constant>)
    requires Within(code, at, a, pos, cs) && cs' <= cs
    ensures Within(code, at, a, pos, cs')
  {
  }

  lemma {:induction false} InstrIn(code: Code, at: nat, part: seq<Instr>, pos: nat, cs: seq<Constant>, i: nat)
    requires Within(code, at, part, pos, cs) && i < |part|
    ensures at + i < |code.instrs| && code.instrs[at + i] == part[i]
  {
    assert code.instrs[at..at + |part|][i] == code.instrs[at + i];
  }

  // Constants are only added.

  lemma {:induction false} GenGrows(t: Tables, e: Expr, want: Want, cs: seq<Constant>, pos: nat, loop: nat)
    ensures cs <= Gen(t, e, want, cs, pos, loop).constants
    decreases e, 1
  {
    hide Size, GenVar, GenLit, GenStore, GenValues, GenMethodRef, GenBody, GenArgs, GenIf, Canonicalize, CallCode, DotCode, BinaryOp;
    match e
    case Var(id, ref) => VarGrows(t, id, ref, want, cs);
    case Lit(l) => LitGrows(l, want, cs);
    case Call(f, args) =>
      GenGrows(t, f, Func, cs, pos, loop);
      var fc := Gen(t, f, Func, cs, pos, loop);
      ArgsGrow(t, args, SINGLE, fc.constants, pos + Size(fc.instrs), loop);
    case Binary(_, l, r) =>
      GenGrows(t, l, SINGLE, cs, pos, loop);
      var lc := Gen(t, l, SINGLE, cs, pos, loop);
      GenGrows(t, r, SINGLE, lc.constants, pos + Size(lc.instrs), loop);
    case Values(f, args) => ValuesGrow(t, e, want, cs, pos, loop);
    case Dot(a, f) =>
      GenGrows(t, a, SINGLE, cs, pos, loop);
      var ac := Gen(t, a, SINGLE, cs, pos, loop);
      GenGrows(t, f, Func, ac.constants, pos + Size(ac.instrs), loop);
    case MethodRef(mm) => MethodRefGrows(t, mm, want, cs, pos, loop);
    case BodyExpr(b) => BodyGrows(t, b, want, cs, pos, loop);
    case If(_, _, _) => IfGrows(t, e, want, cs, pos, loop);
    case Set(id, ref, v) =>
      var w := if want.Func? then Func else SINGLE;
      GenGrows(t, v, w, cs, pos, loop);
      StoreGrows(t, id, ref, want, Gen(t, v, w, cs, pos, loop).constants);
    case Loop(b) => BodyGrows(t, b, want, cs, pos, pos);
    case Repeat =>
  }

  lemma {:induction false} VarGrows(t: Tables, id: Id, ref: Ref, want: Want, cs: seq<Constant>)
    ensures cs <= GenVar(t, id, ref, want, cs).constants
  {
  }

  lemma {:induction false} LitGrows(l: Literal, want: Want, cs: seq<Constant>)
    ensures cs <= GenLit(l, want, cs).constants
  {
  }

  lemma {:induction false} StoreGrows(t: Tables, id: Id, ref: Ref, want: Want, cs: seq<Constant>)
    ensures cs <= GenStore(t, id, ref, want, cs).constants
  {
  }

  lemma {:induction false} IfGrows(t: Tables, e: Expr, want: Want, cs: seq<Constant>, pos: nat, loop: nat)
    requires e.If?
    ensures cs <= GenIf(t, e, want, cs, pos, loop).constants
    decreases e, 0
  {
    hide Size, Gen, GenBody;
    GenGrows(t, e.cond, SINGLE, cs, pos, loop);
    var cc := Gen(t, e.cond, SINGLE, cs, pos, loop);
    BodyGrows(t, e.consequent, want, cc.constants, pos + Size(cc.instrs) + 5, loop);
    var ac := GenBody(t, e.consequent, want, cc.constants, pos + Size(cc.instrs) + 5, loop);
    var skip := if want.Tail? then 0 else 5;
    BodyGrows(t, e.alternate, want, ac.constants, pos + Size(cc.instrs) + 5 + Size(ac.instrs) + skip, loop);
  }

  lemma {:induction false} ArgsGrow(t: Tables, args: Exprs, want: Want, cs: seq<Constant>, pos: nat, loop: nat)
    ensures cs <= GenArgs(t, args, want, cs, pos, loop).constants
    decreases args, 1
  {
    hide Size;
    if args.Arg? {
      GenGrows(t, args.expr, want, cs, pos, loop);
      var ec := Gen(t, args.expr, want, cs, pos, loop);
      ArgsGrow(t, args.rest, want, ec.constants, pos + Size(ec.instrs), loop);
    }
  }

  lemma {:induction false} FixedGrows(t: Tables, args: Exprs, n: nat, cs: seq<Constant>, pos: nat, loop: nat)
    ensures cs <= GenFixed(t, args, n, cs, pos, loop).constants
    decreases args, 1
  {
    hide Size;
    if args.Arg? {
      var w, k := if n > 0 then SINGLE else NOTHING, if n > 0 then n - 1 else 0;
      GenGrows(t, args.expr, w, cs, pos, loop);
      var ec := Gen(t, args.expr, w, cs, pos, loop);
      FixedGrows(t, args.rest, k, ec.constants, pos + Size(ec.instrs), loop);
    }
  }

  lemma {:induction false} ValuesGrow(t: Tables, e: Expr, want: Want, cs: seq<Constant>, pos: nat, loop: nat)
    requires e.Values?
    ensures cs <= GenValues(t, e, want, cs, pos, loop).constants
    decreases e, 0
  {
    hide Size, Gen, GenArgs, GenFixed;
    var args := e.args;
    if args.Arg? {
      GenGrows(t, args.expr, SINGLE, cs, pos, loop);
      FuncGrows(t, args, cs, pos, loop);
    }
    if want.Count? { FixedGrows(t, args, want.required, cs, pos, loop); }
    GenGrows(t, e.values, Func, cs, pos, loop);
    var fc := Gen(t, e.values, Func, cs, pos, loop);
    ArgsGrow(t, args, SINGLE, fc.constants, pos + Size(fc.instrs), loop);
  }

  lemma {:induction false} FuncGrows(t: Tables, args: Exprs, cs: seq<Constant>, pos: nat, loop: nat)
    requires args.Arg?
    ensures var ec := Gen(t, args.expr, Func, cs, pos, loop);
            cs <= ec.constants <= GenArgs(t, args.rest, NOTHING, ec.constants, pos + Size(ec.instrs), loop).constants
    decreases args, 0
  {
    hide Size, Gen, GenArgs;
    GenGrows(t, args.expr, Func, cs, pos, loop);
    var ec := Gen(t, args.expr, Func, cs, pos, loop);
    ArgsGrow(t, args.rest, NOTHING, ec.constants, pos + Size(ec.instrs), loop);
  }

  lemma {:induction false} MethodRefGrows(t: Tables, mm: Method, want: Want, cs: seq<Constant>, pos: nat, loop: nat)
    ensures cs + [MethodConst(mm)] <= GenMethodRef(t, mm, want, cs, pos, loop).constants
    decreases mm, 1
  {
    hide Size, PushTaken;
    var before := PushTaken(t, Closes(t, mm.id)) + [OpArg(PUSH_CONSTANT, |cs|)];
    GenGrows(t, mm.specializers, SINGLE, cs + [MethodConst(mm)], pos + Size(before), loop);
  }

  lemma {:induction false} BodyGrows(t: Tables, b: Body, want: Want, cs: seq<Constant>, pos: nat, loop: nat)
    ensures cs <= GenBody(t, b, want, cs, pos, loop).constants
    decreases b, 1
  {
    hide Size, GenPops, GenCells, GenMethods, Gen;
    match b
    case Last(e) => GenGrows(t, e, want, cs, pos, loop);
    case Then(e, rest) =>
      GenGrows(t, e, NOTHING, cs, pos, loop);
      var ec := Gen(t, e, NOTHING, cs, pos, loop);
      BodyGrows(t, rest, want, ec.constants, pos + Size(ec.instrs), loop);
    case Let(vars, restVar, init, first, _, body) =>
      var w := Count(|vars|, restVar.Some?);
      GenGrows(t, init, w, cs, pos, loop);
      var ic := Gen(t, init, w, cs, pos, loop);
      var pops := GenPops(t, first, |LetVars(vars, restVar)|);
      BodyGrows(t, body, want, ic.constants, pos + Size(ic.instrs) + Size(pops), loop);
    case Local(ms, first, _, body) =>
      var cells := GenCells(t, first, |Names(ms)|);
      MethodsGrow(t, ms, first, cs, pos + Size(cells), loop);
      var mc := GenMethods(t, ms, first, cs, pos + Size(cells), loop);
      BodyGrows(t, body, want, mc.constants, pos + Size(cells) + Size(mc.instrs), loop);
  }

  lemma {:induction false} MethodsGrow(t: Tables, ms: Methods, b: nat, cs: seq<Constant>, pos: nat, loop: nat)
    ensures cs <= GenMethods(t, ms, b, cs, pos, loop).constants
    decreases ms, 1
  {
    hide Size, GenMethodRef, HomePlace, Noted;
    if ms.AMethod? {
      MethodRefGrows(t, ms.method_, SINGLE, cs, pos, loop);
      var mc := GenMethodRef(t, ms.method_, SINGLE, cs, pos, loop);
      var p := HomePlace(t, b);
      var store := if Noted(t, b).closedOver then [PushPlace(p), Op(VALUE_CELL_SET)] else [PopPlace(p)];
      MethodsGrow(t, ms.rest, b + 1, mc.constants, pos + Size(mc.instrs) + Size(store), loop);
    }
  }

  // Branches.

  lemma {:induction false} ByteFound(instrs: seq<Instr>, k: nat)
    requires k <= |instrs|
    ensures AtByte(instrs, Size(instrs[..k])) == k
    decreases k
  {
    if k == 0 {
      assert instrs[..0] == [];
    } else {
      assert instrs[..k][1..] == instrs[1..][..k - 1] && instrs[..k][0] == instrs[0];
      ByteFound(instrs[1..], k - 1);
    }
  }

  // Instructions one by one.

  lemma {:induction false} StackSplit(stack: seq<Value>, vs: seq<Value>)
    ensures (stack + vs)[..|stack + vs| - |vs|] == stack && (stack + vs)[|stack + vs| - |vs|..] == vs
  {
  }

  // What an instruction does to what it pops.
  lemma {:induction false} StepIs(m: Meaning, t: Tables, code: Code, pc: nat, i: Instr, stack: seq<Value>, popped: seq<Value>, fr: Frame, s: State)
    requires pc < |code.instrs| && code.instrs[pc] == i && |popped| == Pops(i)
    ensures var c := Config(pc, stack + popped, fr, s);
            var next := Config(pc + 1, stack, fr, s);
            Step(m, t, code, c) ==
            match i
            case Op(op) => OpEffect(m, op, popped, stack, c)
            case MakeMethod(taken) =>
              if popped[taken].Flat? && taken == |Closes(t, popped[taken].method_.id)| then
                Next(next.(stack := stack + [Flat(popped[taken].method_, popped[..taken])]))
              else Fail(s)
            case OpArg(op, arg) => ArgEffect(m, code, op, arg, popped, stack, c)
            case CallForSingle(_) => CallFor(popped[0], popped[1..], stack, 2)
            case CallForMany(_, want) => CallFor(popped[0], popped[1..], stack, want)
            case OpWants(op, want) =>
              if op == DOT_FOR_MANY then CallFor(popped[1], [popped[0]], stack, want)
              else Next(next.(stack := stack + Delivered(popped, want)))
            case PushByte(k) => Next(next.(stack := stack + [Prim(IntLit(k))]))
            case PushInt(k) => Next(next.(stack := stack + [Prim(IntLit(k))]))
            case Branch(op, disp) =>
              if op == CONDITIONAL_BRANCH && popped[0] != FALSE then Next(next)
              else Next(next.(pc := AtByte(code.instrs, Size(code.instrs[..pc + 1]) + disp)))
  {
    hide OpEffect, ArgEffect, Pops, AtByte, Size, Delivered;
    StackSplit(stack, popped);
  }

  // An instruction of a part of the code, that goes on with the next one.
  ghost predicate Goes(j: Job, at: nat, i: Instr, stack: seq<Value>, popped: seq<Value>, pushed: seq<Value>,
                       fr: Frame, fr': Frame, s: State, s': State)
  {
    at < |j.code.instrs| && j.code.instrs[at] == i && Ends(j, at + 1, stack + pushed, fr', s')
  }

  lemma {:induction false} OpRuns(j: Job, at: nat, op: Byte, stack: seq<Value>, popped: seq<Value>, pushed: seq<Value>, fr: Frame, s: State, s': State)
    requires Goes(j, at, Op(op), stack, popped, pushed, fr, fr, s, s') && |popped| == Pops(Op(op))
    requires OpEffect(j.m, op, popped, stack, Config(at, stack + popped, fr, s)) == Next(Config(at + 1, stack + pushed, fr, s'))
    ensures Ends(j, at, stack + popped, fr, s)
  {
    hide Step, OpEffect, EndsIn;
    StepIs(j.m, j.t, j.code, at, Op(op), stack, popped, fr, s);
    StepEnds(j.m, j.t, j.code, Config(at, stack + popped, fr, s), Config(at + 1, stack + pushed, fr, s'), j.r);
  }

  lemma {:induction false} ArgRuns(j: Job, at: nat, op: Byte, arg: nat, stack: seq<Value>, popped: seq<Value>, pushed: seq<Value>,
                fr: Frame, fr': Frame, s: State, s': State)
    requires Goes(j, at, OpArg(op, arg), stack, popped, pushed, fr, fr', s, s') && |popped| == Pops(OpArg(op, arg))
    requires ArgEffect(j.m, j.code, op, arg, popped, stack, Config(at, stack + popped, fr, s))
          == Next(Config(at + 1, stack + pushed, fr', s'))
    ensures Ends(j, at, stack + popped, fr, s)
  {
    hide Step, ArgEffect, EndsIn;
    StepIs(j.m, j.t, j.code, at, OpArg(op, arg), stack, popped, fr, s);
    StepEnds(j.m, j.t, j.code, Config(at, stack + popped, fr, s), Config(at + 1, stack + pushed, fr', s'), j.r);
  }

  // Pushing and popping variables.
  lemma {:induction false} PushRuns(j: Job, at: nat, p: Place, stack: seq<Value>, fr: Frame, s: State)
    requires at < |j.code.instrs| && j.code.instrs[at] == PushPlace(p) && Ends(j, at + 1, stack + [Peek(fr, p)], fr, s)
    ensures Ends(j, at, stack, fr, s)
  {
    hide Ends, Peek;
    assert stack + [] == stack;
    var i := PushPlace(p);
    ArgRuns(j, at, i.op, i.arg, stack, [], [Peek(fr, p)], fr, fr, s, s);
  }

  lemma {:induction false} PopRuns(j: Job, at: nat, p: Place, stack: seq<Value>, v: Value, fr: Frame, s: State)
    requires at < |j.code.instrs| && j.code.instrs[at] == PopPlace(p) && Ends(j, at + 1, stack, Poke(fr, p, v), s)
    ensures Ends(j, at, stack + [v], fr, s)
  {
    hide Ends, Poke;
    assert stack + [] == stack;
    var i := PopPlace(p);
    ArgRuns(j, at, i.op, i.arg, stack, [v], [], fr, Poke(fr, p, v), s, s);
  }

  lemma {:induction false} CellRefRuns(j: Job, at: nat, stack: seq<Value>, v: Value, fr: Frame, s: State)
    requires at < |j.code.instrs| && j.code.instrs[at] == Op(VALUE_CELL_REF) && Ends(j, at + 1, stack + [CellRef(s, v)], fr, s)
    ensures Ends(j, at, stack + [v], fr, s)
  {
    hide Ends, CellRef;
    OpRuns(j, at, VALUE_CELL_REF, stack, [v], [CellRef(s, v)], fr, s, s);
  }

  lemma {:induction false} MakeCellRuns(j: Job, at: nat, stack: seq<Value>, v: Value, fr: Frame, s: State)
    requires at < |j.code.instrs| && j.code.instrs[at] == Op(MAKE_VALUE_CELL)
    requires Ends(j, at + 1, stack + [Cell(|s.mem|)], fr, s.(mem := s.mem + [v]))
    ensures Ends(j, at, stack + [v], fr, s)
  {
    hide Ends;
    OpRuns(j, at, MAKE_VALUE_CELL, stack, [v], [Cell(|s.mem|)], fr, s, s.(mem := s.mem + [v]));
  }

  lemma {:induction false} CellSetRuns(j: Job, at: nat, stack: seq<Value>, v: Value, cell: Value, fr: Frame, s: State)
    requires at < |j.code.instrs| && j.code.instrs[at] == Op(VALUE_CELL_SET) && Ends(j, at + 1, stack, fr, CellSet(s, cell, v))
    ensures Ends(j, at, stack + [v, cell], fr, s)
  {
    hide Ends, CellSet;
    assert stack + [] == stack;
    OpRuns(j, at, VALUE_CELL_SET, stack, [v, cell], [], fr, s, CellSet(s, cell, v));
  }

  lemma {:induction false} PushConstRuns(j: Job, at: nat, op: Byte, v: Value, stack: seq<Value>, fr: Frame, s: State)
    requires at < |j.code.instrs| && j.code.instrs[at] == Op(op) && Ends(j, at + 1, stack + [v], fr, s)
    requires || (op == PUSH_NIL && v == Prim(NilLit)) || (op == PUSH_TRUE && v == Prim(TrueLit))
             || (op == PUSH_FALSE && v == FALSE) || (op == PUSH_UNBOUND && v == Prim(UnboundLit))
    ensures Ends(j, at, stack, fr, s)
  {
    hide Ends;
    assert stack + [] == stack;
    OpRuns(j, at, op, stack, [], [v], fr, s, s);
  }

  // What an expression leaves on the stack.
  function Delivery(vs: seq<Value>, want: Want): seq<Value> {
    match want
    case Tail => []
    case Func => [First(vs)]
    case Count(n, rest) => Wanted(vs, n, rest)
  }

  // Code that has made these values for the want ends right.
  ghost predicate Arrives(j: Job, end: nat, stack: seq<Value>, want: Want, vs: seq<Value>, fr: Frame, s: State) {
    if want.Tail? then j.r == Gives(Returned(vs, s))
    else if want.Func? && !Callable(j.m, First(vs)) then j.r == Gives(Failed(s))
    else Ends(j, end, stack + Delivery(vs, want), fr, s)
  }

  lemma {:induction false} ReturnRuns(j: Job, at: nat, stack: seq<Value>, v: Value, fr: Frame, s: State)
    requires at < |j.code.instrs| && j.code.instrs[at] == Op(RETURN_SINGLE) && j.r == Gives(Returned([v], s))
    ensures Ends(j, at, stack + [v], fr, s)
  {
    hide Step, EndsIn;
    StepIs(j.m, j.t, j.code, at, Op(RETURN_SINGLE), stack, [v], fr, s);
    ReturnEnds(j.m, j.t, j.code, Config(at, stack + [v], fr, s), [v]);
  }

  lemma {:induction false} CheckRuns(j: Job, at: nat, stack: seq<Value>, v: Value, fr: Frame, s: State)
    requires at < |j.code.instrs| && j.code.instrs[at] == Op(CHECK_TYPE_FUNCTION)
    requires if Callable(j.m, v) then Ends(j, at + 1, stack + [v], fr, s) else j.r == Gives(Failed(s))
    ensures Ends(j, at, stack + [v], fr, s)
  {
    hide Ends, Callable;
    if Callable(j.m, v) {
      OpRuns(j, at, CHECK_TYPE_FUNCTION, stack, [v], [v], fr, s, s);
    } else {
      OpFails(j, at, CHECK_TYPE_FUNCTION, stack, [v], fr, s, s);
    }
  }

  lemma {:induction false} OpFails(j: Job, at: nat, op: Byte, stack: seq<Value>, popped: seq<Value>, fr: Frame, s: State, s': State)
    requires at < |j.code.instrs| && j.code.instrs[at] == Op(op) && |popped| == Pops(Op(op)) && j.r == Gives(Failed(s'))
    requires OpEffect(j.m, op, popped, stack, Config(at, stack + popped, fr, s)) == Fail(s')
    ensures Ends(j, at, stack + popped, fr, s)
  {
    hide Step, OpEffect, EndsIn;
    StepIs(j.m, j.t, j.code, at, Op(op), stack, popped, fr, s);
    FailEnds(j.m, j.t, j.code, Config(at, stack + popped, fr, s), s');
  }

  lemma {:induction false} ArgFails(j: Job, at: nat, op: Byte, arg: nat, stack: seq<Value>, popped: seq<Value>, fr: Frame, s: State, s': State)
    requires at < |j.code.instrs| && j.code.instrs[at] == OpArg(op, arg) && |popped| == Pops(OpArg(op, arg)) && j.r == Gives(Failed(s'))
    requires ArgEffect(j.m, j.code, op, arg, popped, stack, Config(at, stack + popped, fr, s)) == Fail(s')
    ensures Ends(j, at, stack + popped, fr, s)
  {
    hide Step, ArgEffect, EndsIn;
    StepIs(j.m, j.t, j.code, at, OpArg(op, arg), stack, popped, fr, s);
    FailEnds(j.m, j.t, j.code, Config(at, stack + popped, fr, s), s');
  }

  lemma {:induction false} WantCodeParts(want: Want)
    requires want.Count?
    ensures forall vs :: Delivered(vs, WantCode(want)) == Delivery(vs, want)
  {
    assert WantCode(want) / 2 == want.required && (WantCode(want) % 2 == 1) == want.rest;
  }

  lemma {:induction false} WantsRuns(j: Job, at: nat, want: Want, stack: seq<Value>, v: Value, fr: Frame, s: State)
    requires want.Count? && at < |j.code.instrs| && j.code.instrs[at] == OpWants(CANONICALIZE_VALUE, WantCode(want))
    requires Ends(j, at + 1, stack + Delivery([v], want), fr, s)
    ensures Ends(j, at, stack + [v], fr, s)
  {
    hide Step, EndsIn, Delivery, Delivered, WantCode;
    StepIs(j.m, j.t, j.code, at, OpWants(CANONICALIZE_VALUE, WantCode(want)), stack, [v], fr, s);
    WantCodeParts(want);
    StepEnds(j.m, j.t, j.code, Config(at, stack + [v], fr, s), Config(at + 1, stack + Delivery([v], want), fr, s), j.r);
  }

  lemma {:induction false} SingleDelivery(vs: seq<Value>)
    ensures Delivery(vs, SINGLE) == [First(vs)] && Delivery(vs, Func) == [First(vs)] && Delivery(vs, NOTHING) == []
    ensures forall v :: First([v]) == v
  {
  }

  // One value is turned into what is wanted.
  lemma {:induction false} CanonicalizeRuns(j: Job, at: nat, want: Want, stack: seq<Value>, v: Value, fr: Frame, s: State, pos: nat, cs: seq<Constant>)
    requires Within(j.code, at, Canonicalize(want), pos, cs)
    requires Arrives(j, at + |Canonicalize(want)|, stack, want, [v], fr, s)
    ensures Ends(j, at, stack + [v], fr, s)
  {
    hide Ends, Within, Delivery;
    SingleDelivery([v]);
    if Canonicalize(want) != [] { InstrIn(j.code, at, Canonicalize(want), pos, cs, 0); }
    if want.Tail? {
      ReturnRuns(j, at, stack, v, fr, s);
    } else if want.Func? {
      CheckRuns(j, at, stack, v, fr, s);
    } else if want != SINGLE {
      WantsRuns(j, at, want, stack, v, fr, s);
    }
  }

  // A value is pushed, and turned into what is wanted.
  lemma {:induction false} PushedRuns(j: Job, at: nat, i: Instr, want: Want, stack: seq<Value>, v: Value, fr: Frame, s: State, pos: nat, cs: seq<Constant>)
    requires Within(j.code, at, [i] + Canonicalize(want), pos, cs)
    requires Arrives(j, at + 1 + |Canonicalize(want)|, stack, want, [v], fr, s)
    requires at < |j.code.instrs| && j.code.instrs[at] == i && Ends(j, at + 1, stack + [v], fr, s) ==> Ends(j, at, stack, fr, s)
    ensures Ends(j, at, stack, fr, s)
  {
    hide Ends, Within, Arrives, Canonicalize;
    WithinParts(j.code, at, [i], Canonicalize(want), pos, cs);
    InstrIn(j.code, at, [i], pos, cs, 0);
    CanonicalizeRuns(j, at + 1, want, stack, v, fr, s, pos + Size([i]), cs);
  }

  lemma {:induction false} LitRuns(j: Job, l: Literal, want: Want, cs: seq<Constant>, pos: nat, at: nat, stack: seq<Value>, fr: Frame, s: State)
    requires var g := GenLit(l, want, cs);
             && Within(j.code, at, g.instrs, pos, g.constants)
             && Arrives(j, at + |g.instrs|, stack, want, [Prim(l)], fr, s)
    ensures Ends(j, at, stack, fr, s)
  {
    hide Ends, Canonicalize;
    var g := GenLit(l, want, cs);
    if want == NOTHING {
      assert stack + [] == stack;
    } else {
      InstrIn(j.code, at, g.instrs, pos, g.constants, 0);
      PushLitRuns(j, at, l, stack, fr, s, cs);
      PushedRuns(j, at, g.instrs[0], want, stack, Prim(l), fr, s, pos, g.constants);
    }
  }

  lemma {:induction false} PushLitRuns(j: Job, at: nat, l: Literal, stack: seq<Value>, fr: Frame, s: State, cs: seq<Constant>)
    requires at < |j.code.instrs|
    requires match l
             case TrueLit => j.code.instrs[at] == Op(PUSH_TRUE)
             case FalseLit => j.code.instrs[at] == Op(PUSH_FALSE)
             case UnboundLit => j.code.instrs[at] == Op(PUSH_UNBOUND)
             case NilLit => j.code.instrs[at] == Op(PUSH_NIL)
             case IntLit(n) => j.code.instrs[at] == if -128 < n < 128 then PushByte(n) else PushInt(n)
             case OtherLit(_) => j.code.instrs[at] == OpArg(PUSH_CONSTANT, |cs|) && cs + [LiteralConst(l)] <= j.code.constants
    ensures Ends(j, at + 1, stack + [Prim(l)], fr, s) ==> Ends(j, at, stack, fr, s)
  {
    hide EndsIn;
    if Ends(j, at + 1, stack + [Prim(l)], fr, s) {
      assert stack + [] == stack;
      match l
      case TrueLit => PushConstRuns(j, at, PUSH_TRUE, Prim(l), stack, fr, s);
      case FalseLit => PushConstRuns(j, at, PUSH_FALSE, Prim(l), stack, fr, s);
      case UnboundLit => PushConstRuns(j, at, PUSH_UNBOUND, Prim(l), stack, fr, s);
      case NilLit => PushConstRuns(j, at, PUSH_NIL, Prim(l), stack, fr, s);
      case IntLit(n) => PushIntRuns(j, at, n, stack, fr, s);
      case OtherLit(_) =>
        assert j.code.constants[|cs|] == LiteralConst(l);
        ArgRuns(j, at, PUSH_CONSTANT, |cs|, stack, [], [Prim(l)], fr, fr, s, s);
    }
  }

  lemma {:induction false} PushIntRuns(j: Job, at: nat, n: int, stack: seq<Value>, fr: Frame, s: State)
    requires at < |j.code.instrs| && j.code.instrs[at] in {PushByte(n), PushInt(n)} && Ends(j, at + 1, stack + [Prim(IntLit(n))], fr, s)
    ensures Ends(j, at, stack, fr, s)
  {
    hide Step, EndsIn;
    assert stack + [] == stack;
    StepIs(j.m, j.t, j.code, at, j.code.instrs[at], stack, [], fr, s);
    StepEnds(j.m, j.t, j.code, Config(at, stack + [], fr, s), Config(at + 1, stack + [Prim(IntLit(n))], fr, s), j.r);
  }

  // References.
  lemma {:induction false} BoundVarRuns(j: Job, id: Id, ref: Ref, want: Want, cs: seq<Constant>, pos: nat, at: nat, stack: seq<Value>, fr: Frame, s: State)
    requires ref.binding.Some?
    requires var g := GenVar(j.t, id, ref, want, cs);
             && Within(j.code, at, g.instrs, pos, g.constants)
             && Arrives(j, at + |g.instrs|, stack, want, [ReadVar(j.t, ref, fr, s)], fr, s)
    requires Trusts(j.m, j.t, j.r) && !Surprising(j.m, ref, ReadVar(j.t, ref, fr, s))
    ensures Ends(j, at, stack, fr, s)
  {
    hide Ends, Canonicalize, Within, RefPlace, Peek, CellRef, Size, Arrives, Callable;
    var g, v := GenVar(j.t, id, ref, want, cs), ReadVar(j.t, ref, fr, s);
    if want == NOTHING {
      NothingArrives(j, at, stack, [v], fr, s);
    } else {
      var b, p := Noted(j.t, ref.binding.value), RefPlace(j.t, ref.binding.value, ref);
      var read := [PushPlace(p)] + (if b.Boxed() then [Op(VALUE_CELL_REF)] else []);
      var rest := if want.Func? && b.function_ then [] else Canonicalize(want);
      WithinParts(j.code, at, read, rest, pos, g.constants);
      VarRestRuns(j, at + |read|, b.function_, want, stack, v, fr, s, pos + Size(read), g.constants);
      ReadRuns(j, at, p, b.Boxed(), stack, fr, s, pos, g.constants);
    }
  }

  lemma {:induction false} NothingArrives(j: Job, at: nat, stack: seq<Value>, vs: seq<Value>, fr: Frame, s: State)
    requires Arrives(j, at, stack, NOTHING, vs, fr, s)
    ensures Ends(j, at, stack, fr, s)
  {
    hide Ends;
    assert stack + [] == stack;
  }

  // The slot of a variable is pushed, and the value in its cell taken.
  lemma {:induction false} ReadRuns(j: Job, at: nat, p: Place, boxed: bool, stack: seq<Value>, fr: Frame, s: State, pos: nat, cs: seq<Constant>)
    requires var read := [PushPlace(p)] + (if boxed then [Op(VALUE_CELL_REF)] else []);
             && Within(j.code, at, read, pos, cs)
             && Ends(j, at + |read|, stack + [if boxed then CellRef(s, Peek(fr, p)) else Peek(fr, p)], fr, s)
    ensures Ends(j, at, stack, fr, s)
  {
    hide Ends, Within, Peek, CellRef;
    var read := [PushPlace(p)] + (if boxed then [Op(VALUE_CELL_REF)] else []);
    InstrIn(j.code, at, read, pos, cs, 0);
    if boxed {
      InstrIn(j.code, at, read, pos, cs, 1);
      CellRefRuns(j, at + 1, stack, Peek(fr, p), fr, s);
    }
    PushRuns(j, at, p, stack, fr, s);
  }

  // A local method needs no check.
  lemma {:induction false} VarRestRuns(j: Job, at: nat, function_: bool, want: Want, stack: seq<Value>, v: Value, fr: Frame, s: State,
                                       pos: nat, cs: seq<Constant>)
    requires var rest := if want.Func? && function_ then [] else Canonicalize(want);
             && Within(j.code, at, rest, pos, cs)
             && Arrives(j, at + |rest|, stack, want, [v], fr, s)
    requires want.Func? && function_ ==> Callable(j.m, v) || Returns(j.r)
    ensures Ends(j, at, stack + [v], fr, s)
  {
    hide Ends, Canonicalize, Within, Callable;
    if want.Func? && function_ {
      SingleDelivery([v]);
    } else {
      CanonicalizeRuns(j, at, want, stack, v, fr, s, pos, cs);
    }
  }

  lemma {:induction false} FreeVarRuns(j: Job, id: Id, ref: Ref, want: Want, cs: seq<Constant>, pos: nat, at: nat, stack: seq<Value>, fr: Frame, s: State)
    requires ref.binding.None?
    requires var g := GenVar(j.t, id, ref, want, cs);
             && Within(j.code, at, g.instrs, pos, g.constants)
             && if id in s.globals then Arrives(j, at + |g.instrs|, stack, want, [s.globals[id]], fr, s)
                else j.r == Gives(Failed(s))
    ensures Ends(j, at, stack, fr, s)
  {
    hide Ends, Canonicalize, FindVariable, Callable, Within, Arrives;
    var g := GenVar(j.t, id, ref, want, cs);
    var (i, cs') := FindVariable(cs, id);
    InstrIn(j.code, at, g.instrs, pos, g.constants, 0);
    VarConstant(j.code, at, g.instrs, pos, cs', i, id);
    assert stack + [] == stack;
    if id !in s.globals {
      ArgFails(j, at, if want.Func? then PUSH_FUNCTION else PUSH_VALUE, i, stack, [], fr, s, s);
      return;
    }
    var v := s.globals[id];
    if want.Func? {
      FuncArrives(j, at + 1, stack, v, fr, s);
      if Callable(j.m, v) {
        ArgRuns(j, at, PUSH_FUNCTION, i, stack, [], [v], fr, fr, s, s);
      } else {
        ArgFails(j, at, PUSH_FUNCTION, i, stack, [], fr, s, s);
      }
    } else {
      if Ends(j, at + 1, stack + [v], fr, s) {
        ArgRuns(j, at, PUSH_VALUE, i, stack, [], [v], fr, fr, s, s);
      }
      PushedRuns(j, at, OpArg(PUSH_VALUE, i), want, stack, v, fr, s, pos, g.constants);
    }
  }

  lemma {:induction false} VarConstant(code: Code, at: nat, part: seq<Instr>, pos: nat, cs: seq<Constant>, i: nat, id: Id)
    requires Within(code, at, part, pos, cs) && i < |cs| && cs[i] == VarConst(id)
    ensures i < |code.constants| && code.constants[i] == VarConst(id)
  {
  }

  lemma {:induction false} FuncArrives(j: Job, at: nat, stack: seq<Value>, v: Value, fr: Frame, s: State)
    requires Arrives(j, at, stack, Func, [v], fr, s)
    ensures if Callable(j.m, v) then Ends(j, at, stack + [v], fr, s) else j.r == Gives(Failed(s))
  {
    hide Ends, Callable;
  }

  // What a call comes to: it returns, or execution ends with it as it should.
  ghost predicate Called(j: Job, f: Value, vs: seq<Value>, s: State, o: Outcome) {
    match o
    case Done(ws, s') => CallEndsIn(j.m, j.t, f, vs, s, Gives(Returned(ws, s')))
    case _ => !Returns(j.r) && CallEndsIn(j.m, j.t, f, vs, s, Sooner(j.r))
  }

  // Calls, with the function and the arguments on the stack.
  lemma {:induction false} CallCodeRuns(j: Job, at: nat, want: Want, stack: seq<Value>, f: Value, vs: seq<Value>, fr: Frame, s: State,
                     o: Outcome, pos: nat, cs: seq<Constant>)
    requires Within(j.code, at, CallCode(|vs|, want), pos, cs)
    requires Called(j, f, vs, s, o)
    requires o.Done? ==> Arrives(j, at + |CallCode(|vs|, want)|, stack, want, o.values, fr, o.state)
    ensures Ends(j, at, stack + ([f] + vs), fr, s)
  {
    hide Step, EndsIn, CallEndsIn, Within, Delivery, Delivered, WantCode, Callable;
    var n, popped := |vs|, [f] + vs;
    var code := CallCode(n, want);
    InstrIn(j.code, at, code, pos, cs, 0);
    assert popped[1..] == vs;
    StepIs(j.m, j.t, j.code, at, code[0], stack, popped, fr, s);
    var c := Config(at, stack + popped, fr, s);
    var w := if want.Func? || want == SINGLE then 2 else if want.Count? then WantCode(want) else 0;
    if want.Tail? {
      TailCallEnds(j.m, j.t, j.code, c, f, vs, j.r);
    } else if o.Done? {
      var ws, s' := o.values, o.state;
      SingleDelivery(ws);
      DeliveredIs(ws, want);
      if want.Func? {
        InstrIn(j.code, at, code, pos, cs, 1);
        CheckRuns(j, at + 1, stack, First(ws), fr, s');
      }
      CallEnds(j.m, j.t, j.code, c, f, vs, stack, w, ws, s', j.r);
    } else {
      CallStops(j.m, j.t, j.code, c, f, vs, stack, w, j.r);
    }
  }

  lemma {:induction false} DeliveredIs(ws: seq<Value>, want: Want)
    requires !want.Tail?
    ensures Delivered(ws, if want.Func? || want == SINGLE then 2 else WantCode(want)) == Delivery(ws, want)
  {
    SingleDelivery(ws);
    if want.Count? && want != SINGLE { WantCodeParts(want); }
  }

  lemma {:induction false} DotCodeRuns(j: Job, at: nat, want: Want, stack: seq<Value>, v: Value, f: Value, fr: Frame, s: State,
                    o: Outcome, pos: nat, cs: seq<Constant>)
    requires Within(j.code, at, DotCode(want), pos, cs)
    requires Called(j, f, [v], s, o)
    requires o.Done? ==> Arrives(j, at + |DotCode(want)|, stack, want, o.values, fr, o.state)
    ensures Ends(j, at, stack + [v, f], fr, s)
  {
    hide Step, EndsIn, CallEndsIn, Within, Delivery, Delivered, WantCode, Callable;
    var code := DotCode(want);
    InstrIn(j.code, at, code, pos, cs, 0);
    StepIs(j.m, j.t, j.code, at, code[0], stack, [v, f], fr, s);
    var c := Config(at, stack + [v, f], fr, s);
    var w := if want.Func? || want == SINGLE then 2 else if want.Count? then WantCode(want) else 0;
    if want.Tail? {
      TailCallEnds(j.m, j.t, j.code, c, f, [v], j.r);
    } else if o.Done? {
      var ws, s' := o.values, o.state;
      SingleDelivery(ws);
      DeliveredIs(ws, want);
      if want.Func? {
        InstrIn(j.code, at, code, pos, cs, 1);
        CheckRuns(j, at + 1, stack, First(ws), fr, s');
      }
      CallEnds(j.m, j.t, j.code, c, f, [v], stack, w, ws, s', j.r);
    } else {
      CallStops(j.m, j.t, j.code, c, f, [v], stack, w, j.r);
    }
  }

  predicate Assigns(t: Tables, id: Id, ref: Ref, v: Value, fr: Frame, s: State, fr': Frame, s': State) {
    (fr', s') == if ref.binding.Some? then WriteVar(t, ref, v, fr, s) else (fr, s.(globals := s.globals[id := v]))
  }

  // Assignment, with the value on the stack.
  lemma {:induction false} StoreRuns(j: Job, id: Id, ref: Ref, want: Want, cs: seq<Constant>, pos: nat, at: nat, stack: seq<Value>, v: Value,
                                     fr: Frame, s: State, fr': Frame, s': State)
    requires Assigns(j.t, id, ref, v, fr, s, fr', s') && (want.Func? ==> Callable(j.m, v))
    requires var g := GenStore(j.t, id, ref, want, cs);
             && Within(j.code, at, g.instrs, pos, g.constants)
             && Arrives(j, at + |g.instrs|, stack, want, [v], fr', s')
    ensures Ends(j, at, stack + [v], fr, s)
  {
    hide Ends, Within, Assigns, GenStore, StoreCode, FindVariable, Size, Arrives, StoreRest, Callable;
    var g, store, rest := GenStore(j.t, id, ref, want, cs), StoreCode(j.t, id, ref, cs), StoreRest(want);
    StoreParts(j.t, id, ref, want, cs);
    if want == NOTHING {
      AfterDupRuns(j, id, ref, want, cs, pos, at, stack, v, fr, s, fr', s', g.constants);
    } else {
      KeptRuns(j, id, ref, want, cs, pos, at, stack, v, fr, s, fr', s', g.constants);
    }
  }

  // The value of the assignment is wanted.
  lemma {:induction false} KeptRuns(j: Job, id: Id, ref: Ref, want: Want, cs: seq<Constant>, pos: nat, at: nat, stack: seq<Value>, v: Value,
                                    fr: Frame, s: State, fr': Frame, s': State, cs': seq<Constant>)
    requires Assigns(j.t, id, ref, v, fr, s, fr', s') && (want.Func? ==> Callable(j.m, v)) && want != NOTHING
    requires Within(j.code, at, [Op(DUP)] + (StoreCode(j.t, id, ref, cs) + StoreRest(want)), pos, cs')
    requires ref.binding.None? ==> FindVariable(cs, id).1 <= cs'
    requires Arrives(j, at + 1 + |StoreCode(j.t, id, ref, cs)| + |StoreRest(want)|, stack, want, [v], fr', s')
    ensures Ends(j, at, stack + [v], fr, s)
  {
    hide Ends, Within, Assigns, StoreCode, FindVariable, Size, Arrives, StoreRest, Callable;
    WithinParts(j.code, at, [Op(DUP)], StoreCode(j.t, id, ref, cs) + StoreRest(want), pos, cs');
    InstrIn(j.code, at, [Op(DUP)], pos, cs', 0);
    AfterDupRuns(j, id, ref, want, cs, pos + Size([Op(DUP)]), at + 1, stack, v, fr, s, fr', s', cs');
    DupRuns(j, at, stack, v, fr, s);
  }

  function StoreRest(want: Want): seq<Instr> {
    if want.Func? || want == NOTHING then [] else Canonicalize(want)
  }

  // The value is kept on the stack if it is wanted.
  lemma {:induction false} AfterDupRuns(j: Job, id: Id, ref: Ref, want: Want, cs: seq<Constant>, pos: nat, at: nat, stack: seq<Value>, v: Value,
                                        fr: Frame, s: State, fr': Frame, s': State, cs': seq<Constant>)
    requires Assigns(j.t, id, ref, v, fr, s, fr', s') && (want.Func? ==> Callable(j.m, v))
    requires Within(j.code, at, StoreCode(j.t, id, ref, cs) + StoreRest(want), pos, cs')
    requires ref.binding.None? ==> FindVariable(cs, id).1 <= cs'
    requires Arrives(j, at + |StoreCode(j.t, id, ref, cs)| + |StoreRest(want)|, stack, want, [v], fr', s')
    ensures Ends(j, at, (if want == NOTHING then stack else stack + [v]) + [v], fr, s)
  {
    hide Ends, Within, Assigns, StoreCode, FindVariable, Size;
    var store, rest := StoreCode(j.t, id, ref, cs), StoreRest(want);
    var kept := if want == NOTHING then stack else stack + [v];
    WithinParts(j.code, at, store, rest, pos, cs');
    StoreRestRuns(j, at + |store|, want, stack, v, fr', s', pos + Size(store), cs');
    StoreCodeRuns(j, id, ref, cs, pos, at, kept, v, fr, s, fr', s', cs');
  }

  lemma {:induction false} StoreRestRuns(j: Job, at: nat, want: Want, stack: seq<Value>, v: Value, fr: Frame, s: State, pos: nat, cs: seq<Constant>)
    requires want.Func? ==> Callable(j.m, v)
    requires Within(j.code, at, StoreRest(want), pos, cs) && Arrives(j, at + |StoreRest(want)|, stack, want, [v], fr, s)
    ensures Ends(j, at, if want == NOTHING then stack else stack + [v], fr, s)
  {
    hide Ends, Within, Canonicalize, Delivery;
    SingleDelivery([v]);
    if want == NOTHING {
      assert stack + [] == stack;
    } else if !want.Func? {
      CanonicalizeRuns(j, at, want, stack, v, fr, s, pos, cs);
    }
  }

  lemma {:induction false} DupRuns(j: Job, at: nat, stack: seq<Value>, v: Value, fr: Frame, s: State)
    requires at < |j.code.instrs| && j.code.instrs[at] == Op(DUP) && Ends(j, at + 1, stack + [v] + [v], fr, s)
    ensures Ends(j, at, stack + [v], fr, s)
  {
    hide Ends;
    assert stack + [v] + [v] == stack + [v, v];
    OpRuns(j, at, DUP, stack, [v], [v, v], fr, s, s);
  }

  function StoreCode(t: Tables, id: Id, ref: Ref, cs: seq<Constant>): seq<Instr> {
    if ref.binding.Some? then
      var b, p := Noted(t, ref.binding.value), RefPlace(t, ref.binding.value, ref);
      if b.home != ref.home || b.closedOver then [PushPlace(p), Op(VALUE_CELL_SET)] else [PopPlace(p)]
    else [OpArg(POP_VALUE, FindVariable(cs, id).0)]
  }

  lemma {:induction false} StoreParts(t: Tables, id: Id, ref: Ref, want: Want, cs: seq<Constant>)
    ensures var rest := StoreCode(t, id, ref, cs) + StoreRest(want);
            GenStore(t, id, ref, want, cs).instrs == if want == NOTHING then rest else [Op(DUP)] + rest
    ensures GenStore(t, id, ref, want, cs).constants == if ref.binding.Some? then cs else FindVariable(cs, id).1
  {
  }

  lemma {:induction false} StoreCodeRuns(j: Job, id: Id, ref: Ref, cs: seq<Constant>, pos: nat, at: nat, stack: seq<Value>, v: Value,
                      fr: Frame, s: State, fr': Frame, s': State, cs': seq<Constant>)
    requires Assigns(j.t, id, ref, v, fr, s, fr', s')
    requires Within(j.code, at, StoreCode(j.t, id, ref, cs), pos, cs')
    requires ref.binding.None? ==> FindVariable(cs, id).1 <= cs'
    requires Ends(j, at + |StoreCode(j.t, id, ref, cs)|, stack, fr', s')
    ensures Ends(j, at, stack + [v], fr, s)
  {
    hide Ends, IndexOf, Peek, Poke, CellSet, RefPlace;
    var code := StoreCode(j.t, id, ref, cs);
    InstrIn(j.code, at, code, pos, cs', 0);
    assert stack + [] == stack;
    if ref.binding.Some? {
      var b, p := Noted(j.t, ref.binding.value), RefPlace(j.t, ref.binding.value, ref);
      if b.home != ref.home || b.closedOver {
        InstrIn(j.code, at, code, pos, cs', 1);
        CellSetRuns(j, at + 1, stack, v, Peek(fr, p), fr, s);
        assert stack + [v] + [Peek(fr, p)] == stack + [v, Peek(fr, p)];
        PushRuns(j, at, p, stack + [v], fr, s);
      } else {
        PopRuns(j, at, p, stack, v, fr, s);
      }
    } else {
      var i := FindVariable(cs, id).0;
      assert j.code.constants[i] == FindVariable(cs, id).1[i];
      ArgRuns(j, at, POP_VALUE, i, stack, [v], [], fr, fr, s, s');
    }
  }

  // New variables.
  lemma {:induction false} PopsRuns(j: Job, first: nat, vs: seq<Value>, n: nat, at: nat, pos: nat, cs: seq<Constant>,
                                    stack: seq<Value>, fr: Frame, s: State)
    requires n <= |vs| && Within(j.code, at, GenPops(j.t, first, n), pos, cs)
    requires var (fr', s') := PopAll(j.t, first, vs, n, fr, s); Ends(j, at + |GenPops(j.t, first, n)|, stack, fr', s')
    ensures Ends(j, at, stack + vs[..n], fr, s)
    decreases n
  {
    hide Ends, Within, PopNew, Size, Noted, HomePlace;
    if n == 0 {
      assert stack + vs[..0] == stack;
    } else {
      var b, v := first + n - 1, vs[n - 1];
      var pop := (if Noted(j.t, b).Boxed() then [Op(MAKE_VALUE_CELL)] else []) + [PopPlace(HomePlace(j.t, b))];
      var (fr1, s1) := PopNew(j.t, b, v, fr, s);
      WithinParts(j.code, at, pop, GenPops(j.t, first, n - 1), pos, cs);
      PopsRuns(j, first, vs, n - 1, at + |pop|, pos + Size(pop), cs, stack, fr1, s1);
      assert stack + vs[..n] == stack + vs[..n - 1] + [v];
      PopNewRuns(j, b, v, at, pos, cs, stack + vs[..n - 1], fr, s);
    }
  }

  lemma {:induction false} PopNewRuns(j: Job, b: nat, v: Value, at: nat, pos: nat, cs: seq<Constant>, stack: seq<Value>, fr: Frame, s: State)
    requires var pop := (if Noted(j.t, b).Boxed() then [Op(MAKE_VALUE_CELL)] else []) + [PopPlace(HomePlace(j.t, b))];
             var (fr', s') := PopNew(j.t, b, v, fr, s);
             Within(j.code, at, pop, pos, cs) && Ends(j, at + |pop|, stack, fr', s')
    ensures Ends(j, at, stack + [v], fr, s)
  {
    hide Ends, Within, Poke, HomePlace, Noted;
    var p := HomePlace(j.t, b);
    var pop := (if Noted(j.t, b).Boxed() then [Op(MAKE_VALUE_CELL)] else []) + [PopPlace(p)];
    InstrIn(j.code, at, pop, pos, cs, 0);
    if Noted(j.t, b).Boxed() {
      InstrIn(j.code, at, pop, pos, cs, 1);
      PopRuns(j, at + 1, p, stack, Cell(|s.mem|), fr, s.(mem := s.mem + [v]));
      MakeCellRuns(j, at, stack, v, fr, s);
    } else {
      PopRuns(j, at, p, stack, v, fr, s);
    }
  }

  lemma {:induction false} CellsRuns(j: Job, first: nat, n: nat, at: nat, pos: nat, cs: seq<Constant>,
                                     stack: seq<Value>, fr: Frame, s: State)
    requires Within(j.code, at, GenCells(j.t, first, n), pos, cs)
    requires var (fr', s') := MakeCells(j.t, first, n, fr, s); Ends(j, at + |GenCells(j.t, first, n)|, stack, fr', s')
    ensures Ends(j, at, stack, fr, s)
    decreases n
  {
    hide Ends, Within, Poke, HomePlace;
    if n > 0 {
      var b := first + n - 1;
      var p := HomePlace(j.t, b);
      var before := GenCells(j.t, first, n - 1);
      var more := if Noted(j.t, b).closedOver then [Op(PUSH_FALSE), Op(MAKE_VALUE_CELL), PopPlace(p)] else [];
      var (fr1, s1) := MakeCells(j.t, first, n - 1, fr, s);
      WithinParts(j.code, at, before, more, pos, cs);
      var at1 := at + |before|;
      if Noted(j.t, b).closedOver {
        InstrIn(j.code, at1, more, pos + Size(before), cs, 0);
        InstrIn(j.code, at1, more, pos + Size(before), cs, 1);
        InstrIn(j.code, at1, more, pos + Size(before), cs, 2);
        PopRuns(j, at1 + 2, p, stack, Cell(|s1.mem|), fr1, s1.(mem := s1.mem + [FALSE]));
        MakeCellRuns(j, at1 + 1, stack, FALSE, fr1, s1);
        PushConstRuns(j, at1, PUSH_FALSE, FALSE, stack, fr1, s1);
      }
      CellsRuns(j, first, n - 1, at, pos, cs, stack, fr, s);
    }
  }

  lemma {:induction false} BoxesRuns(j: Job, first: nat, n: nat, at: nat, pos: nat, cs: seq<Constant>,
                                     stack: seq<Value>, fr: Frame, s: State)
    requires Within(j.code, at, GenBoxes(j.t, first, n), pos, cs)
    requires var (fr', s') := BoxParams(j.t, first, n, fr, s); Ends(j, at + |GenBoxes(j.t, first, n)|, stack, fr', s')
    ensures Ends(j, at, stack, fr, s)
    decreases n
  {
    hide Ends, Within, Poke, Peek, HomePlace;
    if n > 0 {
      var b := first + n - 1;
      var p := HomePlace(j.t, b);
      var box := if Noted(j.t, b).Boxed() then [PushPlace(p), Op(MAKE_VALUE_CELL), PopPlace(p)] else [];
      WithinParts(j.code, at, box, GenBoxes(j.t, first, n - 1), pos, cs);
      if Noted(j.t, b).Boxed() {
        var s1, fr1 := s.(mem := s.mem + [Peek(fr, p)]), Poke(fr, p, Cell(|s.mem|));
        BoxesRuns(j, first, n - 1, at + 3, pos + Size(box), cs, stack, fr1, s1);
        InstrIn(j.code, at, box, pos, cs, 0);
        InstrIn(j.code, at, box, pos, cs, 1);
        InstrIn(j.code, at, box, pos, cs, 2);
        PopRuns(j, at + 2, p, stack, Cell(|s.mem|), fr, s1);
        MakeCellRuns(j, at + 1, stack, Peek(fr, p), fr, s);
        PushRuns(j, at, p, stack, fr, s);
      } else {
        BoxesRuns(j, first, n - 1, at, pos, cs, stack, fr, s);
      }
    }
  }

  // The slots that a method takes with it, from number i on.
  lemma {:induction false} TakenRuns(j: Job, m: nat, i: nat, at: nat, pos: nat, cs: seq<Constant>,
                                     stack: seq<Value>, fr: Frame, s: State)
    requires i <= |Closes(j.t, m)| && Within(j.code, at, PushTaken(j.t, Closes(j.t, m)), pos, cs)
    requires Ends(j, at + |Closes(j.t, m)|, stack + TakenSlots(j.t, m, fr), fr, s)
    ensures Ends(j, at + i, stack + TakenSlots(j.t, m, fr)[..i], fr, s)
    decreases |Closes(j.t, m)| - i
  {
    hide Ends, Within, Peek, OverPlace;
    var slots, closes := TakenSlots(j.t, m, fr), Closes(j.t, m);
    if i == |slots| {
      assert slots[..i] == slots;
    } else {
      TakenRuns(j, m, i + 1, at, pos, cs, stack, fr, s);
      var p := OverPlace(j.t, closes[|closes| - 1 - i]);
      InstrIn(j.code, at, PushTaken(j.t, closes), pos, cs, i);
      assert stack + slots[..i + 1] == stack + slots[..i] + [Peek(fr, p)];
      PushRuns(j, at + i, p, stack + slots[..i], fr, s);
    }
  }

  // Making the method.
  lemma {:induction false} MakeRuns(j: Job, at: nat, mm: Method, slots: seq<Value>, types: Value, stack: seq<Value>, fr: Frame, s: State,
                 pos: nat, cs: seq<Constant>)
    requires Within(j.code, at, [Op(PUSH_NIL), Op(PUSH_TRUE), MakeMethod(|slots|)], pos, cs) && |slots| == |Closes(j.t, mm.id)|
    requires Ends(j, at + 3, stack + [Flat(mm, slots)], fr, s)
    ensures Ends(j, at, stack + slots + [Flat(mm, [])] + [types], fr, s)
  {
    hide Ends, Within;
    var code := [Op(PUSH_NIL), Op(PUSH_TRUE), MakeMethod(|slots|)];
    InstrIn(j.code, at, code, pos, cs, 0);
    InstrIn(j.code, at, code, pos, cs, 1);
    InstrIn(j.code, at, code, pos, cs, 2);
    var stack2 := stack + slots + [Flat(mm, [])] + [types];
    var popped := slots + [Flat(mm, [])] + [types] + [Prim(NilLit)] + [Prim(TrueLit)];
    MakeStepRuns(j, at + 2, mm, slots, popped, stack, fr, s);
    assert stack + popped == stack2 + [Prim(NilLit)] + [Prim(TrueLit)];
    PushConstRuns(j, at + 1, PUSH_TRUE, Prim(TrueLit), stack2 + [Prim(NilLit)], fr, s);
    PushConstRuns(j, at, PUSH_NIL, Prim(NilLit), stack2, fr, s);
  }

  lemma {:induction false} MakeStepRuns(j: Job, at: nat, mm: Method, slots: seq<Value>, popped: seq<Value>, stack: seq<Value>, fr: Frame, s: State)
    requires at < |j.code.instrs| && j.code.instrs[at] == MakeMethod(|slots|)
    requires |slots| == |Closes(j.t, mm.id)|
    requires |popped| == |slots| + 4 && popped[..|slots|] == slots && popped[|slots|] == Flat(mm, [])
    requires Ends(j, at + 1, stack + [Flat(mm, slots)], fr, s)
    ensures Ends(j, at, stack + popped, fr, s)
  {
    hide Step, EndsIn;
    StepIs(j.m, j.t, j.code, at, MakeMethod(|slots|), stack, popped, fr, s);
    StepEnds(j.m, j.t, j.code, Config(at, stack + popped, fr, s), Config(at + 1, stack + [Flat(mm, slots)], fr, s), j.r);
  }

  // Magic functions.
  lemma {:induction false} BinaryRuns(j: Job, at: nat, op: Magic, stack: seq<Value>, args: seq<Value>, fr: Frame, s: State, v: Value, s': State)
    requires at < |j.code.instrs| && j.code.instrs[at] == Op(BinaryOp(op)) && |args| == 2
    requires RepliedOne(j.m.binary(op, Views(args), s.world), args, s) == Done([v], s')
    requires Ends(j, at + 1, stack + [v], fr, s')
    ensures Ends(j, at, stack + args, fr, s)
  {
    hide Ends, Views, Picked;
    OpRuns(j, at, BinaryOp(op), stack, args, [v], fr, s, s');
  }

  lemma {:induction false} BinaryFails(j: Job, at: nat, op: Magic, stack: seq<Value>, args: seq<Value>, fr: Frame, s: State, s': State)
    requires at < |j.code.instrs| && j.code.instrs[at] == Op(BinaryOp(op)) && |args| == 2 && j.r == Gives(Failed(s'))
    requires RepliedOne(j.m.binary(op, Views(args), s.world), args, s) == Exit(s')
    ensures Ends(j, at, stack + args, fr, s)
  {
    hide Ends, Views, Picked;
    OpFails(j, at, BinaryOp(op), stack, args, fr, s, s');
  }

  // Branches. A jump is a step.
  lemma {:induction false} JumpRuns(j: Job, at: nat, disp: int, target: nat, stack: seq<Value>, fr: Frame, s: State)
    requires at < |j.code.instrs| && j.code.instrs[at] == Branch(BRANCH, disp)
    requires target <= |j.code.instrs| && Size(j.code.instrs[..target]) == Size(j.code.instrs[..at + 1]) + disp
    requires Ends(Soon(j), target, stack, fr, s)
    ensures Ends(j, at, stack, fr, s)
  {
    hide Step, EndsIn, AtByte, Size;
    assert stack + [] == stack;
    StepIs(j.m, j.t, j.code, at, Branch(BRANCH, disp), stack, [], fr, s);
    ByteFound(j.code.instrs, target);
    StepEndsSooner(j.m, j.t, j.code, Config(at, stack + [], fr, s), Config(target, stack, fr, s), j.r);
  }

  lemma {:induction false} TestRuns(j: Job, at: nat, disp: int, target: nat, stack: seq<Value>, v: Value, fr: Frame, s: State)
    requires at < |j.code.instrs| && j.code.instrs[at] == Branch(CONDITIONAL_BRANCH, disp)
    requires target <= |j.code.instrs| && Size(j.code.instrs[..target]) == Size(j.code.instrs[..at + 1]) + disp
    requires Ends(j, if v != FALSE then at + 1 else target, stack, fr, s)
    ensures Ends(j, at, stack + [v], fr, s)
  {
    hide Step, EndsIn, AtByte, Size;
    StepIs(j.m, j.t, j.code, at, Branch(CONDITIONAL_BRANCH, disp), stack, [v], fr, s);
    ByteFound(j.code.instrs, target);
    StepEnds(j.m, j.t, j.code, Config(at, stack + [v], fr, s), Config(if v != FALSE then at + 1 else target, stack, fr, s), j.r);
  }
}
