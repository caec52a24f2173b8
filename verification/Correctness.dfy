/**
 The code of a program does what the compiled program does, expression by expression.
 */
module Correctness {
  import opened Wrappers
  import opened Bytecode
  import opened Programs
  import opened Semantics
  import opened Slots
  import opened Codegen
  import StackDepth
  import opened Machine
  import opened Execution

  // The end of execution where the program stops.
  ghost predicate Stopped(g: Goal, o: Outcome, fuel: nat) {
    match o
    case Exit(s) => g == Gives(Failed(s))
    case Timeout => g.Lasts? && g.fuel <= fuel
    case _ => false
  }

  // From what the compiled program comes to, execution ends right: after the code with the
  // values on the stack, or, for another round, at the start of the innermost loop.
  ghost predicate Target(j: Job, end: nat, stack: seq<Value>, want: Want, o: Ran, loopAt: nat, fuel: nat) {
    match o.outcome
    case Done(vs, s) => Arrives(j, end, stack, want, vs, o.frame, s)
    case Again(s) => Ends(Soon(j), loopAt, stack, o.frame, s)
    case x => Stopped(j.r, x, fuel)
  }

  // The same for one value, of an expression that asks for no other round.
  ghost predicate OneTarget(j: Job, end: nat, stack: seq<Value>, want: Want, o: Ran, fuel: nat) {
    match NoLoop(o.outcome)
    case Done(vs, s) =>
      if want.Func? && !Callable(j.m, First(vs)) then j.r == Gives(Failed(s))
      else Ends(j, end, if want == NOTHING then stack else stack + [First(vs)], o.frame, s)
    case x => Stopped(j.r, x, fuel)
  }

  ghost predicate ArgsTarget(j: Job, end: nat, stack: seq<Value>, want: Want, o: RanArgs, fuel: nat) {
    match o.outcome
    case Args(vs, s) => Ends(j, end, if want == NOTHING then stack else stack + vs, o.frame, s)
    case Stop(x) => Stopped(j.r, x, fuel)
  }

  // Where the first of several values is checked before the others, only what returns is followed.
  predicate Calm(g: Goal, want: Want, many: bool) {
    want.Func? && many ==> Returns(g)
  }

  ghost predicate LoopHere(code: Code, loop: nat, loopAt: nat) {
    loopAt <= |code.instrs| && Size(code.instrs[..loopAt]) == loop
  }

  // The code of an expression, or of something else, in the whole code.
  ghost predicate Placed(j: Job, g: Code, at: nat, pos: nat, loop: nat, loopAt: nat) {
    && j.m.Good() && Trusts(j.m, j.t, j.r)
    && Within(j.code, at, g.instrs, pos, g.constants) && LoopHere(j.code, loop, loopAt)
  }

  lemma {:induction false} PlacedParts(j: Job, a: Code, b: Code, at: nat, pos: nat, loop: nat, loopAt: nat)
    requires Placed(j, Code(a.instrs + b.instrs, b.constants), at, pos, loop, loopAt) && a.constants <= b.constants
    ensures Placed(j, a, at, pos, loop, loopAt) && Placed(j, b, at + |a.instrs|, pos + Size(a.instrs), loop, loopAt)
  {
    hide Within, LoopHere, Size;
    WithinParts(j.code, at, a.instrs, b.instrs, pos, b.constants);
    WithinLess(j.code, at, a.instrs, pos, b.constants, a.constants);
  }

  /** Where the compiled program gets, execution gets. */
  lemma {:induction false} ExprRuns(j: Job, e: Expr, want: Want, cs: seq<Constant>, pos: nat, loop: nat, at: nat, loopAt: nat,
                                    stack: seq<Value>, fr: Frame, s: State, fuel: nat)
    requires Placed(j, Gen(j.t, e, want, cs, pos, loop), at, pos, loop, loopAt)
    requires Target(j, at + |Gen(j.t, e, want, cs, pos, loop).instrs|, stack, want, Run(j.m, j.t, e, fr, s, fuel), loopAt, fuel)
    requires Calm(j.r, want, CheckedEarly(e))
    ensures Ends(j, at, stack, fr, s)
    decreases fuel, 1, e, 3
  {
    hide Ends, Within, LoopHere, Arrives, ReadVar, GenVar, GenLit, GenIf, GenValues, GenMethodRef, GenBody;
    match e
    case Var(id, ref) =>
      if ref.binding.Some? {
        PlacedWithin(j, GenVar(j.t, id, ref, want, cs), at, pos, loop, loopAt);
        BoundVarRuns(j, id, ref, want, cs, pos, at, stack, fr, s);
      } else {
        FreeVarRuns(j, id, ref, want, cs, pos, at, stack, fr, s);
      }
    case Lit(l) => LitRuns(j, l, want, cs, pos, at, stack, fr, s);
    case Call(f, args) => CallRuns(j, e, want, cs, pos, loop, at, loopAt, stack, fr, s, fuel);
    case Binary(op, l, r) => BinaryCallRuns(j, e, want, cs, pos, loop, at, loopAt, stack, fr, s, fuel);
    case Values(f, args) => ValuesRuns(j, e, want, cs, pos, loop, at, loopAt, stack, fr, s, fuel);
    case Dot(a, f) => DotRuns(j, e, want, cs, pos, loop, at, loopAt, stack, fr, s, fuel);
    case MethodRef(mm) => MethodRefRuns(j, mm, want, cs, pos, loop, at, loopAt, stack, fr, s, fuel);
    case BodyExpr(b) => BodyRuns(j, b, want, cs, pos, loop, at, loopAt, stack, fr, s, fuel);
    case If(c, a, b) => IfRuns(j, e, want, cs, pos, loop, at, loopAt, stack, fr, s, fuel);
    case Set(id, ref, v) => SetRuns(j, e, want, cs, pos, loop, at, loopAt, stack, fr, s, fuel);
    case Loop(b) => LoopRuns(j, e, want, cs, pos, loop, at, loopAt, stack, fr, s, fuel);
    case Repeat => RepeatRuns(j, pos, loop, at, loopAt, stack, fr, s, cs);
  }

  lemma {:induction false} RepeatRuns(j: Job, pos: nat, loop: nat, at: nat, loopAt: nat, stack: seq<Value>, fr: Frame, s: State, cs: seq<Constant>)
    requires Placed(j, Code([Branch(BRANCH, loop - (pos + 5))], cs), at, pos, loop, loopAt) && Ends(Soon(j), loopAt, stack, fr, s)
    ensures Ends(j, at, stack, fr, s)
  {
    hide Ends;
    var br := Branch(BRANCH, loop - (pos + 5));
    InstrIn(j.code, at, [br], pos, cs, 0);
    assert j.code.instrs[..at + 1] == j.code.instrs[..at] + [br];
    SizeOfParts(j.code.instrs[..at], [br]);
    assert [br][1..] == [] && Size([br]) == 5;
    JumpRuns(j, at, loop - (pos + 5), loopAt, stack, fr, s);
  }

  // One value for the next instruction.
  lemma {:induction false} OneRuns(j: Job, e: Expr, want: Want, cs: seq<Constant>, pos: nat, loop: nat, at: nat, loopAt: nat,
                                   stack: seq<Value>, fr: Frame, s: State, fuel: nat)
    requires Placed(j, Gen(j.t, e, want, cs, pos, loop), at, pos, loop, loopAt) && want in {SINGLE, Func, NOTHING}
    requires OneTarget(j, at + |Gen(j.t, e, want, cs, pos, loop).instrs|, stack, want, Run(j.m, j.t, e, fr, s, fuel), fuel)
    requires Calm(j.r, want, CheckedEarly(e))
    ensures Ends(j, at, stack, fr, s)
    decreases fuel, 1, e, 4
  {
    hide Ends, Placed, Gen, Run, Callable, Calm, CheckedEarly;
    var o := Run(j.m, j.t, e, fr, s, fuel).outcome;
    if o.Done? { SingleDelivery(o.values); }
    assert stack + [] == stack;
    ExprRuns(j, e, want, cs, pos, loop, at, loopAt, stack, fr, s, fuel);
  }

  // The values of arguments.
  lemma {:induction false} ArgsRuns(j: Job, args: Exprs, want: Want, cs: seq<Constant>, pos: nat, loop: nat, at: nat, loopAt: nat,
                                    stack: seq<Value>, fr: Frame, s: State, fuel: nat)
    requires Placed(j, GenArgs(j.t, args, want, cs, pos, loop), at, pos, loop, loopAt) && want in {SINGLE, NOTHING}
    requires ArgsTarget(j, at + |GenArgs(j.t, args, want, cs, pos, loop).instrs|, stack, want, RunArgs(j.m, j.t, args, fr, s, fuel), fuel)
    ensures Ends(j, at, stack, fr, s)
    decreases fuel, 1, args, 4
  {
    hide Ends, Placed, Gen, Run, RunArgs, Size, Callable;
    RunArgsParts(j.m, j.t, args, fr, s, fuel);
    if args.NoArgs? {
      assert stack + [] == stack;
    } else {
      var ec := Gen(j.t, args.expr, want, cs, pos, loop);
      var rc := GenArgs(j.t, args.rest, want, ec.constants, pos + Size(ec.instrs), loop);
      ArgsGrow(j.t, args.rest, want, ec.constants, pos + Size(ec.instrs), loop);
      PlacedParts(j, ec, rc, at, pos, loop, loopAt);
      var r := Run(j.m, j.t, args.expr, fr, s, fuel);
      if r.outcome.Done? {
        var v := First(r.outcome.values);
        var stack1 := if want == NOTHING then stack else stack + [v];
        var o := RunArgs(j.m, j.t, args.rest, r.frame, r.outcome.state, fuel).outcome;
        if o.Args? { ArgStack(stack, v, o.values); }
        ArgsRuns(j, args.rest, want, ec.constants, pos + Size(ec.instrs), loop, at + |ec.instrs|, loopAt,
                 stack1, r.frame, r.outcome.state, fuel);
      }
      OneRuns(j, args.expr, want, cs, pos, loop, at, loopAt, stack, fr, s, fuel);
    }
  }

  lemma {:induction false} ArgStack(stack: seq<Value>, v: Value, vs: seq<Value>)
    ensures stack + [v] + vs == stack + ([v] + vs)
  {
  }

  lemma {:induction false} RunArgsParts(m: Meaning, t: Tables, args: Exprs, fr: Frame, s: State, fuel: nat)
    ensures var o := RunArgs(m, t, args, fr, s, fuel);
            if args.NoArgs? then o == RanArgs(Args([], s), fr)
            else
              var r := Run(m, t, args.expr, fr, s, fuel);
              if !r.outcome.Done? then o == RanArgs(Stop(NoLoop(r.outcome)), r.frame)
              else
                var o' := RunArgs(m, t, args.rest, r.frame, r.outcome.state, fuel);
                o == if o'.outcome.Stop? then o'
                     else RanArgs(Args([First(r.outcome.values)] + o'.outcome.values, o'.outcome.state), o'.frame)
  {
    hide Run;
  }

  // What a call comes to.
  function CallRan(m: Meaning, t: Tables, f: Expr, args: Exprs, fr: Frame, s: State, fuel: nat): Ran {
    match Run(m, t, f, fr, s, fuel)
    case Ran(Done(fs, s1), fr1) =>
      if !Callable(m, First(fs)) then Ran(Exit(s1), fr1)
      else
        (match RunArgs(m, t, args, fr1, s1, fuel)
         case RanArgs(Args(vs, s2), fr2) => Ran(Invoke(m, t, First(fs), vs, s2, fuel), fr2)
         case RanArgs(Stop(o), fr2) => Ran(o, fr2))
    case Ran(o, fr1) => Ran(NoLoop(o), fr1)
  }

  lemma {:induction false} CallRuns(j: Job, e: Expr, want: Want, cs: seq<Constant>, pos: nat, loop: nat, at: nat, loopAt: nat,
                                    stack: seq<Value>, fr: Frame, s: State, fuel: nat)
    requires e.Call? && Placed(j, Gen(j.t, e, want, cs, pos, loop), at, pos, loop, loopAt)
    requires Target(j, at + |Gen(j.t, e, want, cs, pos, loop).instrs|, stack, want, Run(j.m, j.t, e, fr, s, fuel), loopAt, fuel)
    ensures Ends(j, at, stack, fr, s)
    decreases fuel, 1, e, 1
  {
    hide Ends, Size, CallCode, GenArgs, Arrives, Callable, Invoke, RunArgs, CheckedEarly, Within, LoopHere;
    CallPartsRun(j, e.func, e.args, want, cs, pos, loop, at, loopAt, stack, fr, s, fuel, e);
  }

  // A call never asks for another round.
  lemma {:induction false} InvokeDone(m: Meaning, t: Tables, f: Value, vs: seq<Value>, s: State, fuel: nat)
    ensures !Invoke(m, t, f, vs, s, fuel).Again?
  {
    hide RunBody, BoxParams, NewFrame;
  }

  lemma {:induction false} StopsFinally(m: Meaning, t: Tables, args: Exprs, fr: Frame, s: State, fuel: nat)
    ensures var r := RunArgs(m, t, args, fr, s, fuel).outcome; r.Stop? ==> !r.outcome.Done? && !r.outcome.Again?
    decreases args
  {
    hide Run;
    if args.Arg? {
      var r := Run(m, t, args.expr, fr, s, fuel);
      if r.outcome.Done? { StopsFinally(m, t, args.rest, r.frame, r.outcome.state, fuel); }
    }
  }

  lemma {:induction false} CallPartsRun(j: Job, f: Expr, args: Exprs, want: Want, cs: seq<Constant>, pos: nat, loop: nat, at: nat, loopAt: nat,
                                        stack: seq<Value>, fr: Frame, s: State, fuel: nat, e: Expr)
    requires f < e && args < e && Calm(j.r, Func, CheckedEarly(f))
    requires var fc := Gen(j.t, f, Func, cs, pos, loop);
             var ac := GenArgs(j.t, args, SINGLE, fc.constants, pos + Size(fc.instrs), loop);
             && Placed(j, Code(fc.instrs + ac.instrs + CallCode(ArgCount(args), want), ac.constants), at, pos, loop, loopAt)
             && Target(j, at + |fc.instrs + ac.instrs + CallCode(ArgCount(args), want)|, stack, want,
                       CallRan(j.m, j.t, f, args, fr, s, fuel), loopAt, fuel)
    ensures Ends(j, at, stack, fr, s)
    decreases fuel, 1, e, 0
  {
    hide Ends, Placed, Gen, Run, Size, CallCode, GenArgs, RunArgs, Arrives, Callable, Invoke, Calm, CheckedEarly;
    var fc := Gen(j.t, f, Func, cs, pos, loop);
    var ac := GenArgs(j.t, args, SINGLE, fc.constants, pos + Size(fc.instrs), loop);
    var n := ArgCount(args);
    ArgsGrow(j.t, args, SINGLE, fc.constants, pos + Size(fc.instrs), loop);
    PlacedParts(j, Code(fc.instrs + ac.instrs, ac.constants), Code(CallCode(n, want), ac.constants), at, pos, loop, loopAt);
    PlacedParts(j, fc, ac, at, pos, loop, loopAt);
    var r := Run(j.m, j.t, f, fr, s, fuel);
    if r.outcome.Done? && Callable(j.m, First(r.outcome.values)) {
      var g, s1 := First(r.outcome.values), r.outcome.state;
      var ra := RunArgs(j.m, j.t, args, r.frame, s1, fuel);
      StopsFinally(j.m, j.t, args, r.frame, s1, fuel);
      if ra.outcome.Args? {
        ArgsCounted(j.m, j.t, args, r.frame, s1, fuel);
        var vs, s2 := ra.outcome.values, ra.outcome.state;
        var at2, pos2 := at + |fc.instrs| + |ac.instrs|, pos + Size(fc.instrs + ac.instrs);
        InvokeDone(j.m, j.t, g, vs, s2, fuel);
        CalleeRuns(j, Code(CallCode(n, want), ac.constants), at2, pos2, loop, loopAt, g, vs, s2, fuel);
        CallCodeRuns(j, at2, want, stack, g, vs, ra.frame, s2, Invoke(j.m, j.t, g, vs, s2, fuel), pos2, ac.constants);
        assert stack + ([g] + vs) == stack + [g] + vs;
      }
      ArgsRuns(j, args, SINGLE, fc.constants, pos + Size(fc.instrs), loop, at + |fc.instrs|, loopAt, stack + [g], r.frame, s1, fuel);
    }
    OneRuns(j, f, Func, cs, pos, loop, at, loopAt, stack, fr, s, fuel);
  }

  // The callee, which comes to what execution comes to unless it returns.
  lemma {:induction false} CalleeRuns(j: Job, g: Code, at: nat, pos: nat, loop: nat, loopAt: nat, f: Value, vs: seq<Value>, s: State, fuel: nat)
    requires Placed(j, g, at, pos, loop, loopAt)
    requires var o := Invoke(j.m, j.t, f, vs, s, fuel); o.Done? || Stopped(j.r, o, fuel)
    ensures Called(j, f, vs, s, Invoke(j.m, j.t, f, vs, s, fuel)) && Within(j.code, at, g.instrs, pos, g.constants)
    decreases fuel, 0, 1
  {
    hide Invoke, CallEndsIn, Within, LoopHere;
    var o := Invoke(j.m, j.t, f, vs, s, fuel);
    InvokeRuns(j.m, j.t, f, vs, s, fuel, if o.Done? then Gives(Returned(o.values, o.state)) else Sooner(j.r));
  }

  lemma {:induction false} PlacedWithin(j: Job, g: Code, at: nat, pos: nat, loop: nat, loopAt: nat)
    requires Placed(j, g, at, pos, loop, loopAt)
    ensures Within(j.code, at, g.instrs, pos, g.constants) && LoopHere(j.code, loop, loopAt)
    ensures j.m.Good() && Trusts(j.m, j.t, j.r)
  {
  }

  lemma {:induction false} ArgsCounted(m: Meaning, t: Tables, args: Exprs, fr: Frame, s: State, fuel: nat)
    ensures var r := RunArgs(m, t, args, fr, s, fuel).outcome; r.Args? ==> |r.values| == ArgCount(args)
    decreases args
  {
    hide Run;
    if args.Arg? {
      var r := Run(m, t, args.expr, fr, s, fuel);
      if r.outcome.Done? { ArgsCounted(m, t, args.rest, r.frame, r.outcome.state, fuel); }
    }
  }

  // Two values.
  ghost predicate PairTarget(j: Job, end: nat, stack: seq<Value>, a: Expr, b: Expr, wb: Want, fr: Frame, s: State, fuel: nat) {
    match Run(j.m, j.t, a, fr, s, fuel)
    case Ran(Done(vs, s1), fr1) => OneTarget(j, end, stack + [First(vs)], wb, Run(j.m, j.t, b, fr1, s1, fuel), fuel)
    case Ran(o, _) => Stopped(j.r, NoLoop(o), fuel)
  }

  lemma {:induction false} PairRuns(j: Job, e: Expr, a: Expr, b: Expr, wb: Want, cs: seq<Constant>, pos: nat, loop: nat, at: nat, loopAt: nat,
                                    stack: seq<Value>, fr: Frame, s: State, fuel: nat)
    requires a < e && b < e && wb in {SINGLE, Func} && Calm(j.r, wb, CheckedEarly(b))
    requires var ac := Gen(j.t, a, SINGLE, cs, pos, loop);
             var bc := Gen(j.t, b, wb, ac.constants, pos + Size(ac.instrs), loop);
             && Placed(j, Code(ac.instrs + bc.instrs, bc.constants), at, pos, loop, loopAt)
             && PairTarget(j, at + |ac.instrs + bc.instrs|, stack, a, b, wb, fr, s, fuel)
    ensures Ends(j, at, stack, fr, s)
    decreases fuel, 1, e, 0
  {
    hide Ends, Placed, Gen, Run, Size, Callable, CheckedEarly;
    var ac := Gen(j.t, a, SINGLE, cs, pos, loop);
    var bc := Gen(j.t, b, wb, ac.constants, pos + Size(ac.instrs), loop);
    GenGrows(j.t, b, wb, ac.constants, pos + Size(ac.instrs), loop);
    PlacedParts(j, ac, bc, at, pos, loop, loopAt);
    var r := Run(j.m, j.t, a, fr, s, fuel);
    if r.outcome.Done? {
      OneRuns(j, b, wb, ac.constants, pos + Size(ac.instrs), loop, at + |ac.instrs|, loopAt,
              stack + [First(r.outcome.values)], r.frame, r.outcome.state, fuel);
    }
    OneRuns(j, a, SINGLE, cs, pos, loop, at, loopAt, stack, fr, s, fuel);
  }

  lemma {:induction false} BinaryCallRuns(j: Job, e: Expr, want: Want, cs: seq<Constant>, pos: nat, loop: nat, at: nat, loopAt: nat,
                                          stack: seq<Value>, fr: Frame, s: State, fuel: nat)
    requires e.Binary? && Placed(j, Gen(j.t, e, want, cs, pos, loop), at, pos, loop, loopAt)
    requires Target(j, at + |Gen(j.t, e, want, cs, pos, loop).instrs|, stack, want, Run(j.m, j.t, e, fr, s, fuel), loopAt, fuel)
    ensures Ends(j, at, stack, fr, s)
    decreases fuel, 1, e, 1
  {
    hide Ends, Placed, Size, Canonicalize, Arrives, Views, Picked, BinaryOp, Callable, CheckedEarly, GenArgs, GenBody, GenMethodRef, RepliedOne;
    var lc := Gen(j.t, e.left, SINGLE, cs, pos, loop);
    var rc := Gen(j.t, e.right, SINGLE, lc.constants, pos + Size(lc.instrs), loop);
    var op := [Op(BinaryOp(e.op))];
    assert lc.instrs + rc.instrs + op + Canonicalize(want) == (lc.instrs + rc.instrs) + (op + Canonicalize(want));
    PlacedParts(j, Code(lc.instrs + rc.instrs, rc.constants), Code(op + Canonicalize(want), rc.constants), at, pos, loop, loopAt);
    var r := Run(j.m, j.t, e.left, fr, s, fuel);
    if r.outcome.Done? {
      var r2 := Run(j.m, j.t, e.right, r.frame, r.outcome.state, fuel);
      if r2.outcome.Done? {
        var v, w := First(r.outcome.values), First(r2.outcome.values);
        var at2, pos2 := at + |lc.instrs + rc.instrs|, pos + Size(lc.instrs + rc.instrs);
        OperatorRuns(j, e.op, want, rc.constants, pos2, loop, at2, loopAt, stack, [v, w], r2.frame, r2.outcome.state, fuel);
        assert stack + [v, w] == stack + [v] + [w];
      }
    }
    PairRuns(j, e, e.left, e.right, SINGLE, cs, pos, loop, at, loopAt, stack, fr, s, fuel);
  }

  lemma {:induction false} OperatorRuns(j: Job, op: Magic, want: Want, cs: seq<Constant>, pos: nat, loop: nat, at: nat, loopAt: nat,
                                        stack: seq<Value>, args: seq<Value>, fr: Frame, s: State, fuel: nat)
    requires Placed(j, Code([Op(BinaryOp(op))] + Canonicalize(want), cs), at, pos, loop, loopAt) && |args| == 2
    requires Target(j, at + 1 + |Canonicalize(want)|, stack, want,
                    Ran(RepliedOne(j.m.binary(op, Views(args), s.world), args, s), fr), loopAt, fuel)
    ensures Ends(j, at, stack + args, fr, s)
  {
    hide Ends, Canonicalize, Arrives, Views, Picked, BinaryOp, Within, Trusts;
    WithinParts(j.code, at, [Op(BinaryOp(op))], Canonicalize(want), pos, cs);
    InstrIn(j.code, at, [Op(BinaryOp(op))], pos, cs, 0);
    match RepliedOne(j.m.binary(op, Views(args), s.world), args, s)
    case Done(vs, s') =>
      assert vs == [vs[0]];
      CanonicalizeRuns(j, at + 1, want, stack, vs[0], fr, s', pos + Size([Op(BinaryOp(op))]), cs);
      BinaryRuns(j, at, op, stack, args, fr, s, vs[0], s');
    case Exit(s') => BinaryFails(j, at, op, stack, args, fr, s, s');
  }

  // What a call with a dot comes to.
  function DotRan(m: Meaning, t: Tables, a: Expr, f: Expr, fr: Frame, s: State, fuel: nat): Ran {
    match Run(m, t, a, fr, s, fuel)
    case Ran(Done(vs, s1), fr1) =>
      (match Run(m, t, f, fr1, s1, fuel)
       case Ran(Done(fs, s2), fr2) =>
         if !Callable(m, First(fs)) then Ran(Exit(s2), fr2)
         else Ran(Invoke(m, t, First(fs), [First(vs)], s2, fuel), fr2)
       case Ran(o, fr2) => Ran(NoLoop(o), fr2))
    case Ran(o, fr1) => Ran(NoLoop(o), fr1)
  }

  lemma {:induction false} DotRuns(j: Job, e: Expr, want: Want, cs: seq<Constant>, pos: nat, loop: nat, at: nat, loopAt: nat,
                                   stack: seq<Value>, fr: Frame, s: State, fuel: nat)
    requires e.Dot? && Placed(j, Gen(j.t, e, want, cs, pos, loop), at, pos, loop, loopAt)
    requires Target(j, at + |Gen(j.t, e, want, cs, pos, loop).instrs|, stack, want, Run(j.m, j.t, e, fr, s, fuel), loopAt, fuel)
    ensures Ends(j, at, stack, fr, s)
    decreases fuel, 1, e, 2
  {
    hide Ends, Size, DotCode, Arrives, Callable, Invoke, CheckedEarly, Within, LoopHere;
    DotPartsRun(j, e.arg, e.func, want, cs, pos, loop, at, loopAt, stack, fr, s, fuel, e);
  }

  lemma {:induction false} DottedRuns(j: Job, want: Want, cs: seq<Constant>, pos: nat, loop: nat, at: nat, loopAt: nat,
                                      stack: seq<Value>, v: Value, f: Value, fr: Frame, s: State, fuel: nat)
    requires Placed(j, Code(DotCode(want), cs), at, pos, loop, loopAt)
    requires Target(j, at + |DotCode(want)|, stack, want, Ran(Invoke(j.m, j.t, f, [v], s, fuel), fr), loopAt, fuel)
    ensures Ends(j, at, stack + [v] + [f], fr, s)
    decreases fuel, 0, 2
  {
    hide Ends, Placed, DotCode, Arrives, Invoke, Called;
    var o := Invoke(j.m, j.t, f, [v], s, fuel);
    InvokeDone(j.m, j.t, f, [v], s, fuel);
    CalleeRuns(j, Code(DotCode(want), cs), at, pos, loop, loopAt, f, [v], s, fuel);
    DotCodeRuns(j, at, want, stack, v, f, fr, s, o, pos, cs);
    assert stack + [v, f] == stack + [v] + [f];
  }

  lemma {:induction false} DotPartsRun(j: Job, a: Expr, f: Expr, want: Want, cs: seq<Constant>, pos: nat, loop: nat, at: nat, loopAt: nat,
                                       stack: seq<Value>, fr: Frame, s: State, fuel: nat, e: Expr)
    requires a < e && f < e && Calm(j.r, Func, CheckedEarly(f))
    requires var ac := Gen(j.t, a, SINGLE, cs, pos, loop);
             var fc := Gen(j.t, f, Func, ac.constants, pos + Size(ac.instrs), loop);
             && Placed(j, Code(ac.instrs + fc.instrs + DotCode(want), fc.constants), at, pos, loop, loopAt)
             && Target(j, at + |ac.instrs + fc.instrs + DotCode(want)|, stack, want, DotRan(j.m, j.t, a, f, fr, s, fuel), loopAt, fuel)
    ensures Ends(j, at, stack, fr, s)
    decreases fuel, 1, e, 1
  {
    hide Ends, Placed, Gen, Run, Size, DotCode, Arrives, Callable, Invoke, CheckedEarly, Calm;
    var ac := Gen(j.t, a, SINGLE, cs, pos, loop);
    var fc := Gen(j.t, f, Func, ac.constants, pos + Size(ac.instrs), loop);
    PlacedParts(j, Code(ac.instrs + fc.instrs, fc.constants), Code(DotCode(want), fc.constants), at, pos, loop, loopAt);
    var r := Run(j.m, j.t, a, fr, s, fuel);
    if r.outcome.Done? {
      var r2 := Run(j.m, j.t, f, r.frame, r.outcome.state, fuel);
      if r2.outcome.Done? && Callable(j.m, First(r2.outcome.values)) {
        DottedRuns(j, want, fc.constants, pos + Size(ac.instrs + fc.instrs), loop, at + |ac.instrs + fc.instrs|, loopAt, stack,
                   First(r.outcome.values), First(r2.outcome.values), r2.frame, r2.outcome.state, fuel);
      }
    }
    PairRuns(j, e, a, f, Func, cs, pos, loop, at, loopAt, stack, fr, s, fuel);
  }

  lemma {:induction false} SetRuns(j: Job, e: Expr, want: Want, cs: seq<Constant>, pos: nat, loop: nat, at: nat, loopAt: nat,
                                   stack: seq<Value>, fr: Frame, s: State, fuel: nat)
    requires e.Set? && Placed(j, Gen(j.t, e, want, cs, pos, loop), at, pos, loop, loopAt)
    requires Target(j, at + |Gen(j.t, e, want, cs, pos, loop).instrs|, stack, want, Run(j.m, j.t, e, fr, s, fuel), loopAt, fuel)
    requires Calm(j.r, want, CheckedEarly(e))
    ensures Ends(j, at, stack, fr, s)
    decreases fuel, 1, e, 1
  {
    hide Ends, Placed, Size, GenStore, WriteVar, Callable;
    var w := if want.Func? then Func else SINGLE;
    var vc := Gen(j.t, e.value, w, cs, pos, loop);
    var sc := GenStore(j.t, e.id, e.ref, want, vc.constants);
    StoreGrows(j.t, e.id, e.ref, want, vc.constants);
    PlacedParts(j, vc, sc, at, pos, loop, loopAt);
    var r := Run(j.m, j.t, e.value, fr, s, fuel);
    if r.outcome.Done? {
      var v, s1 := First(r.outcome.values), r.outcome.state;
      var (fr2, s2) := if e.ref.binding.Some? then WriteVar(j.t, e.ref, v, r.frame, s1) else (r.frame, s1.(globals := s1.globals[e.id := v]));
      SingleDelivery([v]);
      if want.Func? && !Callable(j.m, v) {
        if e.value.MethodRef? { MethodMade(j.m, j.t, e.value, fr, s, fuel); }
        assert false;
      } else {
        var at2, pos2 := at + |vc.instrs|, pos + Size(vc.instrs);
        PlacedWithin(j, sc, at2, pos2, loop, loopAt);
        StoreRuns(j, e.id, e.ref, want, vc.constants, pos2, at2, stack, v, r.frame, s1, fr2, s2);
      }
    }
    OneRuns(j, e.value, w, cs, pos, loop, at, loopAt, stack, fr, s, fuel);
  }

  // A method that has been made can be called.
  lemma {:induction false} MethodMade(m: Meaning, t: Tables, e: Expr, fr: Frame, s: State, fuel: nat)
    requires e.MethodRef?
    ensures var o := Run(m, t, e, fr, s, fuel).outcome; o.Done? ==> Callable(m, First(o.values))
  {
  }

  lemma {:induction false} LoopRuns(j: Job, e: Expr, want: Want, cs: seq<Constant>, pos: nat, loop: nat, at: nat, loopAt: nat,
                                   stack: seq<Value>, fr: Frame, s: State, fuel: nat)
    requires e.Loop? && Placed(j, Gen(j.t, e, want, cs, pos, loop), at, pos, loop, loopAt)
    requires Target(j, at + |Gen(j.t, e, want, cs, pos, loop).instrs|, stack, want, Run(j.m, j.t, e, fr, s, fuel), loopAt, fuel)
    requires Calm(j.r, want, CheckedEarly(e))
    ensures Ends(j, at, stack, fr, s)
    decreases fuel, 1, e, 1
  {
    hide Ends, Size, Arrives, GenBody, Callable;
    var g := GenBody(j.t, e.body, want, cs, pos, pos);
    var end := at + |g.instrs|;
    var r := RunBody(j.m, j.t, e.body, fr, s, fuel);
    assert Placed(j, g, at, pos, pos, at);
    if r.outcome.Again? {
      if fuel > 0 {
        SoonTarget(j, end, stack, want, Run(j.m, j.t, e, r.frame, r.outcome.state, fuel - 1), loopAt, fuel);
        ExprRuns(Soon(j), e, want, cs, pos, loop, at, loopAt, stack, r.frame, r.outcome.state, fuel - 1);
      } else {
        AtOnce(Soon(j), at, stack, r.frame, r.outcome.state);
      }
    }
    BodyRuns(j, e.body, want, cs, pos, pos, at, at, stack, fr, s, fuel);
  }

  // A round takes at least a step.
  lemma {:induction false} SoonTarget(j: Job, end: nat, stack: seq<Value>, want: Want, o: Ran, loopAt: nat, fuel: nat)
    requires fuel > 0 && Target(j, end, stack, want, o, loopAt, fuel)
    ensures Target(Soon(j), end, stack, want, o, loopAt, fuel - 1)
  {
    hide EndsIn, Callable, Delivery;
    match o.outcome
    case Done(vs, s) =>
      if !want.Tail? && (want.Func? ==> Callable(j.m, First(vs))) {
        SoonEnds(j, end, stack + Delivery(vs, want), o.frame, s);
      }
    case Again(s) => SoonEnds(Soon(j), loopAt, stack, o.frame, s);
    case _ =>
  }

  lemma {:induction false} SoonEnds(j: Job, pc: nat, stack: seq<Value>, fr: Frame, s: State)
    requires Ends(j, pc, stack, fr, s)
    ensures Ends(Soon(j), pc, stack, fr, s)
  {
    hide EndsIn;
    EndsSooner(j.m, j.t, j.code, Config(pc, stack, fr, s), j.r);
  }

  lemma {:induction false} AtOnce(j: Job, pc: nat, stack: seq<Value>, fr: Frame, s: State)
    requires j.r == Lasts(0)
    ensures Ends(j, pc, stack, fr, s)
  {
  }

  lemma {:induction false} IfRuns(j: Job, e: Expr, want: Want, cs: seq<Constant>, pos: nat, loop: nat, at: nat, loopAt: nat,
                                  stack: seq<Value>, fr: Frame, s: State, fuel: nat)
    requires e.If? && Placed(j, GenIf(j.t, e, want, cs, pos, loop), at, pos, loop, loopAt)
    requires Target(j, at + |GenIf(j.t, e, want, cs, pos, loop).instrs|, stack, want, Run(j.m, j.t, e, fr, s, fuel), loopAt, fuel)
    requires Calm(j.r, want, CheckedEarly(e))
    ensures Ends(j, at, stack, fr, s)
    decreases fuel, 1, e, 1
  {
    hide Ends, Placed, Size, Arrives, GenBody, Gen, Callable, RunBody;
    var cc := Gen(j.t, e.cond, SINGLE, cs, pos, loop);
    var skip := if want.Tail? then 0 else 5;
    var ac := GenBody(j.t, e.consequent, want, cc.constants, pos + Size(cc.instrs) + 5, loop);
    var posB := pos + Size(cc.instrs) + 5 + Size(ac.instrs) + skip;
    var bc := GenBody(j.t, e.alternate, want, ac.constants, posB, loop);
    var cbr := Branch(CONDITIONAL_BRANCH, Size(ac.instrs) + skip);
    var br := if want.Tail? then [] else [Branch(BRANCH, Size(bc.instrs))];
    BodyGrows(j.t, e.consequent, want, cc.constants, pos + Size(cc.instrs) + 5, loop);
    BodyGrows(j.t, e.alternate, want, ac.constants, posB, loop);
    IfParts(j, cc, cbr, ac, br, bc, at, pos, loop, loopAt);
    var r := Run(j.m, j.t, e.cond, fr, s, fuel);
    if r.outcome.Done? {
      var v, s1 := First(r.outcome.values), r.outcome.state;
      var atA := at + |cc.instrs| + 1;
      var atB := atA + |ac.instrs| + |br|;
      if v != FALSE {
        AfterConsequent(j, atA + |ac.instrs|, bc, stack, want, RunBody(j.m, j.t, e.consequent, r.frame, s1, fuel), loopAt, fuel);
        BodyRuns(j, e.consequent, want, cc.constants, pos + Size(cc.instrs) + 5, loop, atA, loopAt, stack, r.frame, s1, fuel);
      } else {
        BodyRuns(j, e.alternate, want, ac.constants, posB, loop, atB, loopAt, stack, r.frame, s1, fuel);
      }
      TestRuns(j, at + |cc.instrs|, Size(ac.instrs) + skip, atB, stack, v, r.frame, s1);
    }
    OneRuns(j, e.cond, SINGLE, cs, pos, loop, at, loopAt, stack, fr, s, fuel);
  }

  // The consequent has the target of the conditional, before the branch if there is one.
  lemma {:induction false} AfterConsequent(j: Job, at: nat, bc: Code, stack: seq<Value>, want: Want, o: Ran, loopAt: nat, fuel: nat)
    requires !want.Tail? ==>
               && at < |j.code.instrs| && j.code.instrs[at] == Branch(BRANCH, Size(bc.instrs))
               && at + 1 + |bc.instrs| <= |j.code.instrs| && j.code.instrs[at + 1..at + 1 + |bc.instrs|] == bc.instrs
    requires Target(j, at + (if want.Tail? then 0 else 1) + |bc.instrs|, stack, want, o, loopAt, fuel)
    ensures Target(j, at, stack, want, o, loopAt, fuel)
  {
    hide Ends, Size, Arrives, Callable;
    if o.outcome.Done? {
      if want.Tail? {
        TailArrives(j, at + |bc.instrs|, at, stack, o.outcome.values, o.frame, o.outcome.state);
      } else {
        JumpOver(j, at, bc, stack, want, o);
      }
    }
  }

  // What is returned does not depend on where code ends.
  lemma {:induction false} TailArrives(j: Job, end: nat, end': nat, stack: seq<Value>, vs: seq<Value>, fr: Frame, s: State)
    requires Arrives(j, end, stack, Tail, vs, fr, s)
    ensures Arrives(j, end', stack, Tail, vs, fr, s) && j.r == Gives(Returned(vs, s))
  {
  }

  // After the consequent, the branch goes over the alternate.
  lemma {:induction false} JumpOver(j: Job, at: nat, bc: Code, stack: seq<Value>, want: Want, o: Ran)
    requires at < |j.code.instrs| && j.code.instrs[at] == Branch(BRANCH, Size(bc.instrs))
    requires at + 1 + |bc.instrs| <= |j.code.instrs| && j.code.instrs[at + 1..at + 1 + |bc.instrs|] == bc.instrs
    requires o.outcome.Done? && !want.Tail? && Arrives(j, at + 1 + |bc.instrs|, stack, want, o.outcome.values, o.frame, o.outcome.state)
    ensures Arrives(j, at, stack, want, o.outcome.values, o.frame, o.outcome.state)
  {
    hide Ends, Delivery, Callable;
    var l, end := j.code.instrs, at + 1 + |bc.instrs|;
    assert l[..end] == l[..at + 1] + bc.instrs;
    SizeOfParts(l[..at + 1], bc.instrs);
    if want.Func? ==> Callable(j.m, First(o.outcome.values)) {
      SoonEnds(j, end, stack + Delivery(o.outcome.values, want), o.frame, o.outcome.state);
      JumpRuns(j, at, Size(bc.instrs), end, stack + Delivery(o.outcome.values, want), o.frame, o.outcome.state);
    }
  }

  // The parts of a conditional, and where its branch goes.
  lemma {:induction false} IfParts(j: Job, cc: Code, cbr: Instr, ac: Code, br: seq<Instr>, bc: Code, at: nat, pos: nat, loop: nat, loopAt: nat)
    requires cbr.Branch? && |br| <= 1 && (br != [] ==> br[0].Branch?) && cc.constants <= ac.constants <= bc.constants
    requires Placed(j, Code(cc.instrs + [cbr] + ac.instrs + br + bc.instrs, bc.constants), at, pos, loop, loopAt)
    ensures var atC, atA := at + |cc.instrs|, at + |cc.instrs| + 1;
            var atB := atA + |ac.instrs| + |br|;
            && Placed(j, cc, at, pos, loop, loopAt)
            && atC < |j.code.instrs| && j.code.instrs[atC] == cbr
            && Placed(j, ac, atA, pos + Size(cc.instrs) + 5, loop, loopAt)
            && (br != [] ==> atB - 1 < |j.code.instrs| && j.code.instrs[atB - 1] == br[0])
            && Placed(j, bc, atB, pos + Size(cc.instrs) + 5 + Size(ac.instrs) + 5 * |br|, loop, loopAt)
            && atB + |bc.instrs| <= |j.code.instrs| && j.code.instrs[atB..atB + |bc.instrs|] == bc.instrs
            && Size(j.code.instrs[..atB]) == Size(j.code.instrs[..atA]) + Size(ac.instrs) + 5 * |br|
  {
    hide Size, Within;
    var all := cc.instrs + [cbr] + ac.instrs + br + bc.instrs;
    var rest := [cbr] + ac.instrs + br + bc.instrs;
    assert all == cc.instrs + rest;
    PlacedParts(j, cc, Code(rest, bc.constants), at, pos, loop, loopAt);
    var atC, posC := at + |cc.instrs|, pos + Size(cc.instrs);
    assert rest == [cbr] + (ac.instrs + br + bc.instrs);
    PlacedParts(j, Code([cbr], cc.constants), Code(ac.instrs + br + bc.instrs, bc.constants), atC, posC, loop, loopAt);
    SizeOfBranch(cbr);
    InstrIn(j.code, atC, [cbr], posC, cc.constants, 0);
    var atA, posA := atC + 1, posC + 5;
    assert ac.instrs + br + bc.instrs == ac.instrs + (br + bc.instrs);
    PlacedParts(j, ac, Code(br + bc.instrs, bc.constants), atA, posA, loop, loopAt);
    var atR, posR := atA + |ac.instrs|, posA + Size(ac.instrs);
    PlacedParts(j, Code(br, ac.constants), bc, atR, posR, loop, loopAt);
    if br != [] {
      assert br == [br[0]];
      SizeOfBranch(br[0]);
      InstrIn(j.code, atR, br, posR, ac.constants, 0);
    } else {
      SizeOfNothing();
    }
    PlacedSizes(j, ac, atA, posA, loop, loopAt);
    PlacedSizes(j, bc, atR + |br|, posR + Size(br), loop, loopAt);
  }

  lemma {:induction false} SizeOfBranch(i: Instr)
    requires i.Branch?
    ensures Size([i]) == 5
  {
    assert [i][1..] == [];
  }

  lemma {:induction false} SizeOfNothing()
    ensures Size([]) == 0
  {
  }

  lemma {:induction false} PlacedSizes(j: Job, g: Code, at: nat, pos: nat, loop: nat, loopAt: nat)
    requires Placed(j, g, at, pos, loop, loopAt)
    ensures at + |g.instrs| <= |j.code.instrs| && j.code.instrs[at..at + |g.instrs|] == g.instrs
    ensures Size(j.code.instrs[..at]) == pos
  {
  }

  lemma {:induction false} MethodRefRuns(j: Job, mm: Method, want: Want, cs: seq<Constant>, pos: nat, loop: nat, at: nat, loopAt: nat,
                                         stack: seq<Value>, fr: Frame, s: State, fuel: nat)
    requires Placed(j, GenMethodRef(j.t, mm, want, cs, pos, loop), at, pos, loop, loopAt)
    requires Target(j, at + |GenMethodRef(j.t, mm, want, cs, pos, loop).instrs|, stack, want, RunMethod(j.m, j.t, mm, fr, s, fuel), loopAt, fuel)
    ensures Ends(j, at, stack, fr, s)
    decreases fuel, 1, mm, 2
  {
    hide Ends, Placed, Size, Arrives, Gen, PushTaken, TakenSlots, Canonicalize, Callable, CheckedEarly;
    var k := |Closes(j.t, mm.id)|;
    var taken := PushTaken(j.t, Closes(j.t, mm.id));
    var before := taken + [OpArg(PUSH_CONSTANT, |cs|)];
    var cs1 := cs + [MethodConst(mm)];
    var sc := Gen(j.t, mm.specializers, SINGLE, cs1, pos + Size(before), loop);
    var make := [Op(PUSH_NIL), Op(PUSH_TRUE), MakeMethod(k)];
    GenGrows(j.t, mm.specializers, SINGLE, cs1, pos + Size(before), loop);
    assert before + sc.instrs + make + Canonicalize(want) == before + (sc.instrs + (make + Canonicalize(want)));
    PlacedParts(j, Code(before, cs1), Code(sc.instrs + (make + Canonicalize(want)), sc.constants), at, pos, loop, loopAt);
    PlacedParts(j, sc, Code(make + Canonicalize(want), sc.constants), at + |before|, pos + Size(before), loop, loopAt);
    var slots := TakenSlots(j.t, mm.id, fr);
    var r := Run(j.m, j.t, mm.specializers, fr, s, fuel);
    SlotsTaken(j.t, mm.id, fr);
    if r.outcome.Done? {
      var at2, pos2 := at + |before| + |sc.instrs|, pos + Size(before) + Size(sc.instrs);
      MadeRuns(j, mm, slots, First(r.outcome.values), want, sc.constants, pos2, loop, at2, loopAt, stack, r.frame, r.outcome.state);
    }
    OneRuns(j, mm.specializers, SINGLE, cs1, pos + Size(before), loop, at + |before|, loopAt,
            stack + slots + [Flat(mm, [])], fr, s, fuel);
    TakenPartRuns(j, mm, cs, pos, loop, at, loopAt, stack, fr, s);
  }

  lemma {:induction false} SlotsTaken(t: Tables, m: nat, fr: Frame)
    ensures |TakenSlots(t, m, fr)| == |Closes(t, m)| == |PushTaken(t, Closes(t, m))|
  {
  }

  // The slots and the description of the method.
  lemma {:induction false} TakenPartRuns(j: Job, mm: Method, cs: seq<Constant>, pos: nat, loop: nat, at: nat, loopAt: nat,
                                         stack: seq<Value>, fr: Frame, s: State)
    requires Placed(j, Code(PushTaken(j.t, Closes(j.t, mm.id)) + [OpArg(PUSH_CONSTANT, |cs|)], cs + [MethodConst(mm)]), at, pos, loop, loopAt)
    requires Ends(j, at + |Closes(j.t, mm.id)| + 1, stack + TakenSlots(j.t, mm.id, fr) + [Flat(mm, [])], fr, s)
    ensures Ends(j, at, stack, fr, s)
  {
    hide Ends, PushTaken, TakenSlots, Size;
    var taken, slots := PushTaken(j.t, Closes(j.t, mm.id)), TakenSlots(j.t, mm.id, fr);
    var push := OpArg(PUSH_CONSTANT, |cs|);
    var cs1 := cs + [MethodConst(mm)];
    SlotsTaken(j.t, mm.id, fr);
    WithinParts(j.code, at, taken, [push], pos, cs1);
    InstrIn(j.code, at + |taken|, [push], pos + Size(taken), cs1, 0);
    assert j.code.constants[|cs|] == cs1[|cs|];
    assert stack + slots + [] == stack + slots;
    ArgRuns(j, at + |taken|, PUSH_CONSTANT, |cs|, stack + slots, [], [Flat(mm, [])], fr, fr, s, s);
    assert slots[..0] == [] && stack + [] == stack;
    TakenRuns(j, mm.id, 0, at, pos, cs1, stack, fr, s);
  }

  lemma {:induction false} MadeRuns(j: Job, mm: Method, slots: seq<Value>, types: Value, want: Want, cs: seq<Constant>, pos: nat, loop: nat, at: nat, loopAt: nat,
                                    stack: seq<Value>, fr: Frame, s: State)
    requires Placed(j, Code([Op(PUSH_NIL), Op(PUSH_TRUE), MakeMethod(|slots|)] + Canonicalize(want), cs), at, pos, loop, loopAt)
    requires |slots| == |Closes(j.t, mm.id)|
    requires Arrives(j, at + 3 + |Canonicalize(want)|, stack, want, [Flat(mm, slots)], fr, s)
    ensures Ends(j, at, stack + slots + [Flat(mm, [])] + [types], fr, s)
  {
    hide Ends, Canonicalize, Arrives, Within, Size;
    var make := [Op(PUSH_NIL), Op(PUSH_TRUE), MakeMethod(|slots|)];
    WithinParts(j.code, at, make, Canonicalize(want), pos, cs);
    CanonicalizeRuns(j, at + 3, want, stack, Flat(mm, slots), fr, s, pos + Size(make), cs);
    MakeRuns(j, at, mm, slots, types, stack, fr, s, pos, cs);
  }

  lemma {:induction false} BodyRuns(j: Job, b: Body, want: Want, cs: seq<Constant>, pos: nat, loop: nat, at: nat, loopAt: nat,
                                    stack: seq<Value>, fr: Frame, s: State, fuel: nat)
    requires Placed(j, GenBody(j.t, b, want, cs, pos, loop), at, pos, loop, loopAt)
    requires Target(j, at + |GenBody(j.t, b, want, cs, pos, loop).instrs|, stack, want, RunBody(j.m, j.t, b, fr, s, fuel), loopAt, fuel)
    requires Calm(j.r, want, CheckedEarlyLast(b))
    ensures Ends(j, at, stack, fr, s)
    decreases fuel, 1, b, 5
  {
    hide Ends, Placed, Size, Gen, Run, Callable, CheckedEarly;
    match b
    case Last(e) => ExprRuns(j, e, want, cs, pos, loop, at, loopAt, stack, fr, s, fuel);
    case Then(e, rest) =>
      var ec := Gen(j.t, e, NOTHING, cs, pos, loop);
      var rc := GenBody(j.t, rest, want, ec.constants, pos + Size(ec.instrs), loop);
      BodyGrows(j.t, rest, want, ec.constants, pos + Size(ec.instrs), loop);
      PlacedParts(j, ec, rc, at, pos, loop, loopAt);
      var r := Run(j.m, j.t, e, fr, s, fuel);
      if r.outcome.Done? {
        BodyRuns(j, rest, want, ec.constants, pos + Size(ec.instrs), loop, at + |ec.instrs|, loopAt, stack, r.frame, r.outcome.state, fuel);
        SingleDelivery(r.outcome.values);
        assert stack + [] == stack;
      }
      ExprRuns(j, e, NOTHING, cs, pos, loop, at, loopAt, stack, fr, s, fuel);
    case Let(_, _, _, _, _, _) => LetRuns(j, b, want, cs, pos, loop, at, loopAt, stack, fr, s, fuel);
    case Local(_, _, _, _) => LocalRuns(j, b, want, cs, pos, loop, at, loopAt, stack, fr, s, fuel);
  }

  lemma {:induction false} LetRuns(j: Job, b: Body, want: Want, cs: seq<Constant>, pos: nat, loop: nat, at: nat, loopAt: nat,
                                   stack: seq<Value>, fr: Frame, s: State, fuel: nat)
    requires b.Let? && Placed(j, GenBody(j.t, b, want, cs, pos, loop), at, pos, loop, loopAt)
    requires Target(j, at + |GenBody(j.t, b, want, cs, pos, loop).instrs|, stack, want, RunBody(j.m, j.t, b, fr, s, fuel), loopAt, fuel)
    requires Calm(j.r, want, CheckedEarlyLast(b))
    ensures Ends(j, at, stack, fr, s)
    decreases fuel, 1, b, 4
  {
    hide Ends, Placed, Size, Arrives, Gen, Run, GenPops, PopAll, Wanted, LetVars;
    var n, w := |LetVars(b.vars, b.restVar)|, Count(|b.vars|, b.restVar.Some?);
    var ic := Gen(j.t, b.init, w, cs, pos, loop);
    var pops := GenPops(j.t, b.first, n);
    var at2, pos2 := at + |ic.instrs| + |pops|, pos + Size(ic.instrs) + Size(pops);
    var bc := GenBody(j.t, b.body, want, ic.constants, pos2, loop);
    BodyGrows(j.t, b.body, want, ic.constants, pos2, loop);
    assert ic.instrs + pops + bc.instrs == ic.instrs + (pops + bc.instrs);
    PlacedParts(j, ic, Code(pops + bc.instrs, bc.constants), at, pos, loop, loopAt);
    PlacedParts(j, Code(pops, ic.constants), bc, at + |ic.instrs|, pos + Size(ic.instrs), loop, loopAt);
    var r := Run(j.m, j.t, b.init, fr, s, fuel);
    if r.outcome.Done? {
      var vs := Wanted(r.outcome.values, |b.vars|, b.restVar.Some?);
      LetSize(b.vars, b.restVar);
      var (fr2, s2) := PopAll(j.t, b.first, vs, n, r.frame, r.outcome.state);
      BodyRuns(j, b.body, want, ic.constants, pos2, loop, at2, loopAt, stack, fr2, s2, fuel);
      PlacedWithin(j, Code(pops, ic.constants), at + |ic.instrs|, pos + Size(ic.instrs), loop, loopAt);
      PopsRuns(j, b.first, vs, n, at + |ic.instrs|, pos + Size(ic.instrs), ic.constants, stack, r.frame, r.outcome.state);
      assert vs[..n] == vs;
    }
    LetValuesRun(j, b.init, w, cs, pos, loop, at, loopAt, stack, fr, s, fuel);
  }

  lemma {:induction false} LetSize(vars: seq<Id>, restVar: Option<Id>)
    ensures |LetVars(vars, restVar)| == |vars| + (if restVar.Some? then 1 else 0)
  {
  }

  lemma {:induction false} LetValuesRun(j: Job, e: Expr, want: Want, cs: seq<Constant>, pos: nat, loop: nat, at: nat, loopAt: nat,
                                        stack: seq<Value>, fr: Frame, s: State, fuel: nat)
    requires want.Count? && Placed(j, Gen(j.t, e, want, cs, pos, loop), at, pos, loop, loopAt)
    requires var r := Run(j.m, j.t, e, fr, s, fuel);
             if r.outcome.Done? then
               Ends(j, at + |Gen(j.t, e, want, cs, pos, loop).instrs|,
                    stack + Wanted(r.outcome.values, want.required, want.rest), r.frame, r.outcome.state)
             else Stopped(j.r, NoLoop(r.outcome), fuel)
    ensures Ends(j, at, stack, fr, s)
    decreases fuel, 1, e, 4
  {
    hide Ends, Placed, Gen, Run, Wanted;
    ExprRuns(j, e, want, cs, pos, loop, at, loopAt, stack, fr, s, fuel);
  }

  lemma {:induction false} LocalRuns(j: Job, b: Body, want: Want, cs: seq<Constant>, pos: nat, loop: nat, at: nat, loopAt: nat,
                                     stack: seq<Value>, fr: Frame, s: State, fuel: nat)
    requires b.Local? && Placed(j, GenBody(j.t, b, want, cs, pos, loop), at, pos, loop, loopAt)
    requires Target(j, at + |GenBody(j.t, b, want, cs, pos, loop).instrs|, stack, want, RunBody(j.m, j.t, b, fr, s, fuel), loopAt, fuel)
    requires Calm(j.r, want, CheckedEarlyLast(b))
    ensures Ends(j, at, stack, fr, s)
    decreases fuel, 1, b, 4
  {
    hide Ends, Placed, Size, Arrives, GenMethods, RunMethods, GenCells, MakeCells;
    var n := |Names(b.methods)|;
    var cells := GenCells(j.t, b.first, n);
    var at1, pos1 := at + |cells|, pos + Size(cells);
    var mc := GenMethods(j.t, b.methods, b.first, cs, pos1, loop);
    var at2, pos2 := at1 + |mc.instrs|, pos1 + Size(mc.instrs);
    var bc := GenBody(j.t, b.body, want, mc.constants, pos2, loop);
    MethodsGrow(j.t, b.methods, b.first, cs, pos1, loop);
    BodyGrows(j.t, b.body, want, mc.constants, pos2, loop);
    assert cells + mc.instrs + bc.instrs == cells + (mc.instrs + bc.instrs);
    PlacedParts(j, Code(cells, cs), Code(mc.instrs + bc.instrs, bc.constants), at, pos, loop, loopAt);
    PlacedParts(j, mc, bc, at1, pos1, loop, loopAt);
    var (fr1, s1) := MakeCells(j.t, b.first, n, fr, s);
    var r := RunMethods(j.m, j.t, b.methods, b.first, fr1, s1, fuel);
    MethodsNoLoop(j.m, j.t, b.methods, b.first, fr1, s1, fuel);
    if r.outcome.Done? {
      BodyRuns(j, b.body, want, mc.constants, pos2, loop, at2, loopAt, stack, r.frame, r.outcome.state, fuel);
    }
    MethodsRun(j, b.methods, b.first, cs, pos1, loop, at1, loopAt, stack, fr1, s1, fuel);
    PlacedWithin(j, Code(cells, cs), at, pos, loop, loopAt);
    CellsRuns(j, b.first, n, at, pos, cs, stack, fr, s);
  }

  lemma {:induction false} MethodsNoLoop(m: Meaning, t: Tables, ms: Methods, b: nat, fr: Frame, s: State, fuel: nat)
    ensures !RunMethods(m, t, ms, b, fr, s, fuel).outcome.Again?
    decreases ms
  {
    hide Run, TakenSlots, StoreMethod;
    if ms.AMethod? {
      var r := RunMethod(m, t, ms.method_, fr, s, fuel);
      if r.outcome.Done? {
        var (fr2, s2) := StoreMethod(t, b, First(r.outcome.values), r.frame, r.outcome.state);
        MethodsNoLoop(m, t, ms.rest, b + 1, fr2, s2, fuel);
      }
    }
  }

  lemma {:induction false} MethodsRun(j: Job, ms: Methods, b: nat, cs: seq<Constant>, pos: nat, loop: nat, at: nat, loopAt: nat,
                                      stack: seq<Value>, fr: Frame, s: State, fuel: nat)
    requires Placed(j, GenMethods(j.t, ms, b, cs, pos, loop), at, pos, loop, loopAt)
    requires var r := RunMethods(j.m, j.t, ms, b, fr, s, fuel);
             if r.outcome.Done? then Ends(j, at + |GenMethods(j.t, ms, b, cs, pos, loop).instrs|, stack, r.frame, r.outcome.state)
             else Stopped(j.r, r.outcome, fuel)
    ensures Ends(j, at, stack, fr, s)
    decreases fuel, 1, ms, 3
  {
    hide Ends, Placed, Size, GenMethodRef, RunMethod, StoreMethod, HomePlace, Noted;
    if ms.AMethod? {
      var p := HomePlace(j.t, b);
      var mc := GenMethodRef(j.t, ms.method_, SINGLE, cs, pos, loop);
      var store := if Noted(j.t, b).closedOver then [PushPlace(p), Op(VALUE_CELL_SET)] else [PopPlace(p)];
      var at1, pos1 := at + |mc.instrs|, pos + Size(mc.instrs);
      var at2, pos2 := at1 + |store|, pos1 + Size(store);
      var rc := GenMethods(j.t, ms.rest, b + 1, mc.constants, pos2, loop);
      MethodsGrow(j.t, ms.rest, b + 1, mc.constants, pos2, loop);
      assert mc.instrs + store + rc.instrs == mc.instrs + (store + rc.instrs);
      PlacedParts(j, mc, Code(store + rc.instrs, rc.constants), at, pos, loop, loopAt);
      PlacedParts(j, Code(store, mc.constants), rc, at1, pos1, loop, loopAt);
      var r := RunMethod(j.m, j.t, ms.method_, fr, s, fuel);
      if r.outcome.Done? {
        var v := First(r.outcome.values);
        var (fr2, s2) := StoreMethod(j.t, b, v, r.frame, r.outcome.state);
        MethodsRun(j, ms.rest, b + 1, mc.constants, pos2, loop, at2, loopAt, stack, fr2, s2, fuel);
        StoreMethodRuns(j, b, at1, pos1, loop, loopAt, mc.constants, stack, v, r.frame, r.outcome.state);
      }
      OneMethodRuns(j, ms.method_, cs, pos, loop, at, loopAt, stack, fr, s, fuel);
    }
  }

  lemma {:induction false} OneMethodRuns(j: Job, mm: Method, cs: seq<Constant>, pos: nat, loop: nat, at: nat, loopAt: nat,
                                         stack: seq<Value>, fr: Frame, s: State, fuel: nat)
    requires Placed(j, GenMethodRef(j.t, mm, SINGLE, cs, pos, loop), at, pos, loop, loopAt)
    requires var r := RunMethod(j.m, j.t, mm, fr, s, fuel);
             if r.outcome.Done? then
               Ends(j, at + |GenMethodRef(j.t, mm, SINGLE, cs, pos, loop).instrs|, stack + [First(r.outcome.values)], r.frame, r.outcome.state)
             else Stopped(j.r, r.outcome, fuel)
    ensures Ends(j, at, stack, fr, s)
    decreases fuel, 1, mm, 3
  {
    hide Ends, Placed, GenMethodRef, RunMethod;
    var o := RunMethod(j.m, j.t, mm, fr, s, fuel).outcome;
    if o.Done? { SingleDelivery(o.values); }
    MethodRefRuns(j, mm, SINGLE, cs, pos, loop, at, loopAt, stack, fr, s, fuel);
  }

  lemma {:induction false} StoreMethodRuns(j: Job, b: nat, at: nat, pos: nat, loop: nat, loopAt: nat, cs: seq<Constant>,
                                           stack: seq<Value>, v: Value, fr: Frame, s: State)
    requires var p := HomePlace(j.t, b);
             var store := if Noted(j.t, b).closedOver then [PushPlace(p), Op(VALUE_CELL_SET)] else [PopPlace(p)];
             var (fr', s') := StoreMethod(j.t, b, v, fr, s);
             && Placed(j, Code(store, cs), at, pos, loop, loopAt)
             && Ends(j, at + |store|, stack, fr', s')
    ensures Ends(j, at, stack + [v], fr, s)
  {
    hide Ends, HomePlace, Peek, Poke, CellSet, Within;
    var p := HomePlace(j.t, b);
    if Noted(j.t, b).closedOver {
      var store := [PushPlace(p), Op(VALUE_CELL_SET)];
      InstrIn(j.code, at, store, pos, cs, 0);
      InstrIn(j.code, at, store, pos, cs, 1);
      CellSetRuns(j, at + 1, stack, v, Peek(fr, p), fr, s);
      assert stack + [v] + [Peek(fr, p)] == stack + [v, Peek(fr, p)];
      PushRuns(j, at, p, stack + [v], fr, s);
    } else {
      InstrIn(j.code, at, [PopPlace(p)], pos, cs, 0);
      PopRuns(j, at, p, stack, v, fr, s);
    }
  }

  lemma {:induction false} ValuesRuns(j: Job, e: Expr, want: Want, cs: seq<Constant>, pos: nat, loop: nat, at: nat, loopAt: nat,
                                      stack: seq<Value>, fr: Frame, s: State, fuel: nat)
    requires e.Values? && Placed(j, GenValues(j.t, e, want, cs, pos, loop), at, pos, loop, loopAt)
    requires Target(j, at + |GenValues(j.t, e, want, cs, pos, loop).instrs|, stack, want, Run(j.m, j.t, e, fr, s, fuel), loopAt, fuel)
    requires Calm(j.r, want, CheckedEarly(e))
    ensures Ends(j, at, stack, fr, s)
    decreases fuel, 1, e, 2
  {
    hide Ends, Placed, Size, Arrives, GenArgs, Gen, GenFixed, CallCode, Callable, RunArgs;
    var args := e.args;
    StopsFinally(j.m, j.t, args, fr, s, fuel);
    var ra := RunArgs(j.m, j.t, args, fr, s, fuel);
    var end := at + |GenValues(j.t, e, want, cs, pos, loop).instrs|;
    if want.Tail? && args.Arg? && args.rest.NoArgs? {
      if ra.outcome.Args? { TailArrives(j, end, end, stack, ra.outcome.values, ra.frame, ra.outcome.state); }
      ReturnOneRuns(j, args, want, cs, pos, loop, at, loopAt, stack, fr, s, fuel);
    } else if want.Func? {
      FirstRuns(j, e, cs, pos, loop, at, loopAt, stack, fr, s, fuel);
    } else if want.Count? && !want.rest {
      if ra.outcome.Args? { CountArrives(j, end, stack, want, ra.outcome.values, ra.frame, ra.outcome.state); }
      FixedRuns(j, args, want.required, cs, pos, loop, at, loopAt, stack, fr, s, fuel);
    } else {
      ValuesCalled(j, e, want, cs, pos, loop, at, loopAt, stack, fr, s, fuel);
    }
  }

  lemma {:induction false} CountArrives(j: Job, end: nat, stack: seq<Value>, want: Want, vs: seq<Value>, fr: Frame, s: State)
    requires want.Count? && !want.rest && Arrives(j, end, stack, want, vs, fr, s)
    ensures Ends(j, end, stack + Wanted(vs, want.required, false), fr, s)
  {
  }

  lemma {:induction false} ReturnOneRuns(j: Job, args: Exprs, want: Want, cs: seq<Constant>, pos: nat, loop: nat, at: nat, loopAt: nat,
                                         stack: seq<Value>, fr: Frame, s: State, fuel: nat)
    requires args.Arg? && args.rest.NoArgs? && want.Tail?
    requires var ec := Gen(j.t, args.expr, SINGLE, cs, pos, loop);
             Placed(j, Code(ec.instrs + [Op(RETURN_SINGLE)], ec.constants), at, pos, loop, loopAt)
    requires match RunArgs(j.m, j.t, args, fr, s, fuel).outcome
             case Args(vs, s') => j.r == Gives(Returned(vs, s'))
             case Stop(o) => Stopped(j.r, o, fuel)
    ensures Ends(j, at, stack, fr, s)
    decreases fuel, 1, args, 3
  {
    hide Ends, Placed, Size, Gen, Run, RunArgs, Callable, CheckedEarly;
    var ec := Gen(j.t, args.expr, SINGLE, cs, pos, loop);
    PlacedParts(j, ec, Code([Op(RETURN_SINGLE)], ec.constants), at, pos, loop, loopAt);
    var r := Run(j.m, j.t, args.expr, fr, s, fuel);
    RunArgsParts(j.m, j.t, args, fr, s, fuel);
    if r.outcome.Done? {
      var v := First(r.outcome.values);
      RunArgsParts(j.m, j.t, args.rest, r.frame, r.outcome.state, fuel);
      assert [v] + [] == [v];
      var at1, pos1 := at + |ec.instrs|, pos + Size(ec.instrs);
      PlacedWithin(j, Code([Op(RETURN_SINGLE)], ec.constants), at1, pos1, loop, loopAt);
      InstrIn(j.code, at1, [Op(RETURN_SINGLE)], pos1, ec.constants, 0);
      ReturnRuns(j, at1, stack, v, r.frame, r.outcome.state);
    }
    OneRuns(j, args.expr, SINGLE, cs, pos, loop, at, loopAt, stack, fr, s, fuel);
  }

  // A function is wanted: the first argument, and the others for nothing.
  lemma {:induction false} FirstRuns(j: Job, e: Expr, cs: seq<Constant>, pos: nat, loop: nat, at: nat, loopAt: nat,
                                     stack: seq<Value>, fr: Frame, s: State, fuel: nat)
    requires e.Values? && Placed(j, GenValues(j.t, e, Func, cs, pos, loop), at, pos, loop, loopAt)
    requires var o := RunArgs(j.m, j.t, e.args, fr, s, fuel);
             match o.outcome
             case Args(vs, s') => Arrives(j, at + |GenValues(j.t, e, Func, cs, pos, loop).instrs|, stack, Func, vs, o.frame, s')
             case Stop(x) => Stopped(j.r, x, fuel)
    requires Calm(j.r, Func, CheckedEarly(e))
    ensures Ends(j, at, stack, fr, s)
    decreases fuel, 1, e, 1
  {
    hide Ends, Placed, Size, Gen, Run, GenArgs, Callable, RunArgs;
    var args := e.args;
    RunArgsParts(j.m, j.t, args, fr, s, fuel);
    if args.NoArgs? {
      var code := [Op(PUSH_FALSE), Op(CHECK_TYPE_FUNCTION)];
      PlacedWithin(j, Code(code, cs), at, pos, loop, loopAt);
      InstrIn(j.code, at, code, pos, cs, 0);
      InstrIn(j.code, at, code, pos, cs, 1);
      CheckRuns(j, at + 1, stack, FALSE, fr, s);
      PushConstRuns(j, at, PUSH_FALSE, FALSE, stack, fr, s);
    } else {
      var ec := Gen(j.t, args.expr, Func, cs, pos, loop);
      var at1, pos1 := at + |ec.instrs|, pos + Size(ec.instrs);
      var rc := GenArgs(j.t, args.rest, NOTHING, ec.constants, pos1, loop);
      ArgsGrow(j.t, args.rest, NOTHING, ec.constants, pos1, loop);
      PlacedParts(j, ec, rc, at, pos, loop, loopAt);
      var r := Run(j.m, j.t, args.expr, fr, s, fuel);
      if r.outcome.Done? {
        RunArgsParts(j.m, j.t, args.rest, r.frame, r.outcome.state, fuel);
        if Callable(j.m, First(r.outcome.values)) {
          ArgsRuns(j, args.rest, NOTHING, ec.constants, pos1, loop, at1, loopAt, stack + [First(r.outcome.values)],
                   r.frame, r.outcome.state, fuel);
        } else if args.rest.Arg? {
          assert false;
        }
      }
      OneRuns(j, args.expr, Func, cs, pos, loop, at, loopAt, stack, fr, s, fuel);
    }
  }

  lemma {:induction false} FixedRuns(j: Job, args: Exprs, n: nat, cs: seq<Constant>, pos: nat, loop: nat, at: nat, loopAt: nat,
                                     stack: seq<Value>, fr: Frame, s: State, fuel: nat)
    requires Placed(j, GenFixed(j.t, args, n, cs, pos, loop), at, pos, loop, loopAt)
    requires var o := RunArgs(j.m, j.t, args, fr, s, fuel);
             match o.outcome
             case Args(vs, s') => Ends(j, at + |GenFixed(j.t, args, n, cs, pos, loop).instrs|, stack + Wanted(vs, n, false), o.frame, s')
             case Stop(x) => Stopped(j.r, x, fuel)
    ensures Ends(j, at, stack, fr, s)
    decreases fuel, 1, args, 4
  {
    hide Ends, Placed, Size, Gen, Run, RunArgs, Callable, CheckedEarly;
    RunArgsParts(j.m, j.t, args, fr, s, fuel);
    if args.NoArgs? {
      PlacedWithin(j, GenFixed(j.t, args, n, cs, pos, loop), at, pos, loop, loopAt);
      assert stack + Wanted([], n, false) == stack + seq(n, _ => FALSE);
      FalsesRun(j, 0, n, at, pos, cs, stack, fr, s);
    } else {
      var w, k := if n > 0 then SINGLE else NOTHING, if n > 0 then n - 1 else 0;
      var ec := Gen(j.t, args.expr, w, cs, pos, loop);
      var at1, pos1 := at + |ec.instrs|, pos + Size(ec.instrs);
      var rc := GenFixed(j.t, args.rest, k, ec.constants, pos1, loop);
      FixedGrows(j.t, args.rest, k, ec.constants, pos1, loop);
      PlacedParts(j, ec, rc, at, pos, loop, loopAt);
      var r := Run(j.m, j.t, args.expr, fr, s, fuel);
      if r.outcome.Done? {
        var v := First(r.outcome.values);
        var stack1 := if n > 0 then stack + [v] else stack;
        var o := RunArgs(j.m, j.t, args.rest, r.frame, r.outcome.state, fuel).outcome;
        if o.Args? { WantedRest(stack, v, o.values, n); }
        FixedRuns(j, args.rest, k, ec.constants, pos1, loop, at1, loopAt, stack1, r.frame, r.outcome.state, fuel);
      }
      OneRuns(j, args.expr, w, cs, pos, loop, at, loopAt, stack, fr, s, fuel);
    }
  }

  lemma {:induction false} WantedRest(stack: seq<Value>, v: Value, vs: seq<Value>, n: nat)
    ensures n > 0 ==> stack + [v] + Wanted(vs, n - 1, false) == stack + Wanted([v] + vs, n, false)
    ensures n == 0 ==> stack + Wanted(vs, 0, false) == stack + Wanted([v] + vs, 0, false)
  {
  }

  lemma {:induction false} FalsesRun(j: Job, i: nat, n: nat, at: nat, pos: nat, cs: seq<Constant>, stack: seq<Value>, fr: Frame, s: State)
    requires i <= n && Within(j.code, at, seq(n, _ => Op(PUSH_FALSE)), pos, cs)
    requires Ends(j, at + n, stack + seq(n - i, _ => FALSE), fr, s)
    ensures Ends(j, at + i, stack, fr, s)
    decreases n - i
  {
    hide Ends, Within;
    if i == n {
      assert stack + seq(0, _ => FALSE) == stack;
    } else {
      assert stack + [FALSE] + seq(n - i - 1, _ => FALSE) == stack + seq(n - i, _ => FALSE);
      FalsesRun(j, i + 1, n, at, pos, cs, stack + [FALSE], fr, s);
      InstrIn(j.code, at, seq(n, _ => Op(PUSH_FALSE)), pos, cs, i);
      PushConstRuns(j, at + i, PUSH_FALSE, FALSE, stack, fr, s);
    }
  }

  // The function values is called after all.
  lemma {:induction false} ValuesCalled(j: Job, e: Expr, want: Want, cs: seq<Constant>, pos: nat, loop: nat, at: nat, loopAt: nat,
                                        stack: seq<Value>, fr: Frame, s: State, fuel: nat)
    requires e.Values?
    requires var fc := Gen(j.t, e.values, Func, cs, pos, loop);
             var ac := GenArgs(j.t, e.args, SINGLE, fc.constants, pos + Size(fc.instrs), loop);
             var code := Code(fc.instrs + ac.instrs + CallCode(ArgCount(e.args), want), ac.constants);
             && Placed(j, code, at, pos, loop, loopAt)
             && Target(j, at + |code.instrs|, stack, want, Run(j.m, j.t, e, fr, s, fuel), loopAt, fuel)
    ensures Ends(j, at, stack, fr, s)
    decreases fuel, 1, e, 1
  {
    hide Ends, Placed, Gen, Size, CallCode, GenArgs, RunArgs, Arrives, Invoke, Callable;
    assert j.m.Good() by {
      var fc := Gen(j.t, e.values, Func, cs, pos, loop);
      var ac := GenArgs(j.t, e.args, SINGLE, fc.constants, pos + Size(fc.instrs), loop);
      PlacedWithin(j, Code(fc.instrs + ac.instrs + CallCode(ArgCount(e.args), want), ac.constants), at, pos, loop, loopAt);
    }
    ValuesCallRan(j.m, j.t, e, fr, s, fuel);
    CallPartsRun(j, e.values, e.args, want, cs, pos, loop, at, loopAt, stack, fr, s, fuel, e);
  }

  lemma {:induction false} ValuesCallRan(m: Meaning, t: Tables, e: Expr, fr: Frame, s: State, fuel: nat)
    requires m.Good() && e.Values? && FindsValues(m, e.values, s)
    ensures CallRan(m, t, e.values, e.args, fr, s, fuel) == Run(m, t, e, fr, s, fuel) && !CheckedEarly(e.values)
  {
    hide Invoke, RunArgs, Callable;
    StopsFinally(m, t, e.args, fr, s, fuel);
    var o := RunArgs(m, t, e.args, fr, s, fuel).outcome;
    ValuesReturnsAll(m, t, if o.Args? then o.values else [], if o.Args? then o.state else s, fuel);
    assert Run(m, t, e.values, fr, s, fuel) == Ran(Done([Prim(m.values)], s), fr);
  }

  lemma {:induction false} ValuesReturnsAll(m: Meaning, t: Tables, vs: seq<Value>, s: State, fuel: nat)
    requires m.Good()
    ensures Invoke(m, t, Prim(m.values), vs, s, fuel) == Done(vs, s) && Callable(m, Prim(m.values))
  {
    var reply := m.builtin(m.values, Views(vs), s.world);
    assert reply == Reply(seq(|vs|, i requires 0 <= i < |vs| => Argument(i)), s.world);
    assert Picked(reply.picks, vs) == vs;
  }

  // What execution of a call comes to. It takes a step to get there.
  ghost predicate CallTarget(g: Goal, o: Outcome, fuel: nat) {
    match o
    case Done(vs, s) => g == Gives(Returned(vs, s))
    case Exit(s) => g == Gives(Failed(s))
    case Timeout => g.Lasts? && (g.fuel == 0 || g.fuel < fuel)
    case _ => false
  }

  /** What a call comes to in the compiled program, it comes to in the machine: it returns, fails,
      or goes on for as long. */
  lemma {:induction false} InvokeRuns(m: Meaning, t: Tables, f: Value, args: seq<Value>, s: State, fuel: nat, g: Goal)
    requires m.Good() && Trusts(m, t, g) && CallTarget(g, Invoke(m, t, f, args, s, fuel), fuel)
    ensures CallEndsIn(m, t, f, args, s, g)
    decreases fuel, 0, 0
  {
    hide RunBody, BoxParams, NewFrame, GenMethod, EndsIn, Exec, Trusts;
    if f.Flat? && ParamValues(f.method_, args).Some? {
      var mm := f.method_;
      var params := ParamValues(mm, args).value;
      var fr := NewFrame(m, t, f, params, f.slots, mm.id);
      if fuel > 0 {
        MethodRuns(m, t, mm, fr, s, fuel, g);
        EnterMethod(m, t, f, args, s, params, g);
      } else {
        NoFuel(m, t, f, args, s);
      }
    } else {
      assert g.Gives?;
      assert CallEndsBy(m, t, f, args, s, g.result, 0);
    }
  }

  lemma {:induction false} NoFuel(m: Meaning, t: Tables, f: Value, args: seq<Value>, s: State)
    requires f.Flat? && ParamValues(f.method_, args).Some?
    ensures CallEndsIn(m, t, f, args, s, Lasts(0))
  {
    hide GenMethod, NewFrame, ParamValues;
  }

  lemma {:induction false} EnterMethod(m: Meaning, t: Tables, f: Value, args: seq<Value>, s: State, params: seq<Value>, g: Goal)
    requires f.Flat? && ParamValues(f.method_, args) == Some(params)
    requires EndsIn(m, t, GenMethod(t, f.method_), Config(0, [], NewFrame(m, t, f, params, f.slots, f.method_.id), s), g)
    ensures CallEndsIn(m, t, f, args, s, g)
  {
    hide Exec, GenMethod, NewFrame, ParamValues;
    var c := Config(0, [], NewFrame(m, t, f, params, f.slots, f.method_.id), s);
    forall k: nat ensures Enter(m, t, f, args, s, k) == Exec(m, t, GenMethod(t, f.method_), c, k) {}
    if g.Gives? {
      var n: nat :| EndsBy(m, t, GenMethod(t, f.method_), c, g.result, n);
      assert CallEndsBy(m, t, f, args, s, g.result, n);
    }
  }

  lemma {:induction false} MethodRuns(m: Meaning, t: Tables, mm: Method, fr: Frame, s: State, fuel: nat, g: Goal)
    requires m.Good() && fuel > 0 && Trusts(m, t, g)
    requires var (fr1, s1) := BoxParams(t, FirstParam(t, mm.id), |mm.Bound()|, fr, s);
             var o := RunBody(m, t, mm.body, fr1, s1, fuel - 1).outcome;
             match o
             case Done(vs, s') => g == Gives(Returned(vs, s'))
             case x => Stopped(g, x, fuel - 1)
    ensures EndsIn(m, t, GenMethod(t, mm), Config(0, [], fr, s), g)
    decreases fuel - 1, 2
  {
    hide RunBody, BoxParams, EndsIn, Size, GenBody, GenBoxes, Trusts;
    var n, first := |mm.Bound()|, FirstParam(t, mm.id);
    var boxes := GenBoxes(t, first, n);
    var bc := GenBody(t, mm.body, Tail, [], Size(boxes), 0);
    var j := Job(m, t, GenMethod(t, mm), g);
    var (fr1, s1) := BoxParams(t, first, n, fr, s);
    WholePlaced(j);
    BodyGrows(t, mm.body, Tail, [], Size(boxes), 0);
    PlacedParts(j, Code(boxes, []), bc, 0, 0, 0, 0);
    BodyRuns(j, mm.body, Tail, [], Size(boxes), 0, |boxes|, 0, [], fr1, s1, fuel - 1);
    PlacedWithin(j, Code(boxes, []), 0, 0, 0, 0);
    BoxesRuns(j, first, n, 0, 0, [], [], fr, s);
  }

  lemma {:induction false} WholePlaced(j: Job)
    requires j.m.Good() && Trusts(j.m, j.t, j.r)
    ensures Placed(j, j.code, 0, 0, 0, 0)
  {
    assert j.code.instrs[..0] == [] && j.code.instrs[0..|j.code.instrs|] == j.code.instrs;
  }
}
