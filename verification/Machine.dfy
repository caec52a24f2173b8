/**
 The byte-code machine: it executes the instructions of a component on a stack.
 */
module Machine {
  import opened Wrappers
  import opened Bytecode
  import opened Programs
  import opened Semantics
  import opened Slots
  import opened Codegen
  import opened StackDepth

  // An activation: the next instruction, the values on the stack above the local variables, the
  // frame, and the state it shares with all others.
  datatype Config = Config(pc: nat, stack: seq<Value>, frame: Frame, state: State)

  // What an instruction does. A call leaves the stack without the function and the arguments,
  // and says how many values are wanted.
  datatype Effect =
    | Next(config: Config)
    | Return(values: seq<Value>)
    | TailCall(f: Value, args: seq<Value>)
    | CallFor(f: Value, args: seq<Value>, stack: seq<Value>, want: nat)
    | Fail(state: State)

  datatype Result = Returned(values: seq<Value>, state: State) | Failed(state: State) | OutOfFuel

  // What execution comes to: a result, or no result with so much fuel.
  datatype Goal = Gives(result: Result) | Lasts(fuel: nat)

  // What is left of it after a step.
  function Sooner(g: Goal): Goal {
    if g.Lasts? && g.fuel > 0 then Lasts(g.fuel - 1) else g
  }

  // The description of a method, until it is made, is a method that has taken no slots.
  function ConstantValue(c: Constant): Value {
    match c
    case LiteralConst(l) => Prim(l)
    case VarConst(_) => FALSE
    case MethodConst(mm) => Flat(mm, [])
  }

  // The instruction at a byte of the code.
  function AtByte(instrs: seq<Instr>, byte: int): nat {
    if instrs == [] || byte <= 0 then 0 else 1 + AtByte(instrs[1..], byte - InstrSize(instrs[0]))
  }

  // The values that a want code asks for.
  function Delivered(vs: seq<Value>, want: nat): seq<Value> {
    Wanted(vs, want / 2, want % 2 == 1)
  }

  // An instruction without operand, with what it pops.
  function OpEffect(m: Meaning, op: Byte, popped: seq<Value>, rest: seq<Value>, c: Config): Effect
    requires |popped| == Pops(Op(op))
  {
    var next := c.(pc := c.pc + 1, stack := rest);
    if op == RETURN_SINGLE then Return(popped)
    else if op == MAKE_VALUE_CELL then
      var (cell, s) := MakeCell(c.state, popped[0]);
      Next(next.(stack := rest + [cell], state := s))
    else if op == VALUE_CELL_REF then Next(next.(stack := rest + [CellRef(c.state, popped[0])]))
    else if op == VALUE_CELL_SET then Next(next.(state := CellSet(c.state, popped[1], popped[0])))
    else if op == CHECK_TYPE_FUNCTION then
      if Callable(m, popped[0]) then Next(next.(stack := rest + popped)) else Fail(c.state)
    else if op == PUSH_NIL then Next(next.(stack := rest + [Prim(NilLit)]))
    else if op == PUSH_UNBOUND then Next(next.(stack := rest + [Prim(UnboundLit)]))
    else if op == PUSH_TRUE then Next(next.(stack := rest + [Prim(TrueLit)]))
    else if op == PUSH_FALSE then Next(next.(stack := rest + [FALSE]))
    else if op == DUP then Next(next.(stack := rest + popped + popped))
    else if op == DOT_TAIL then TailCall(popped[1], [popped[0]])
    else if op == DOT_FOR_SINGLE then CallFor(popped[1], [popped[0]], rest, 2)
    else if op == CHECK_TYPE || PLUS <= op <= GT then
      match m.binary(if op == CHECK_TYPE then 9 else op - PLUS, Views(popped), c.state.world)
      case Reply(picks, w) => Next(next.(stack := rest + [First(Picked(picks, popped))], state := c.state.(world := w)))
      case Fails(w) => Fail(c.state.(world := w))
    else Fail(c.state)
  }

  function ArgEffect(m: Meaning, code: Code, op: Byte, arg: nat, popped: seq<Value>, rest: seq<Value>, c: Config): Effect
    requires |popped| == Pops(OpArg(op, arg))
  {
    var next := c.(pc := c.pc + 1, stack := rest);
    if op == PUSH_CONSTANT then
      if arg < |code.constants| then Next(next.(stack := rest + [ConstantValue(code.constants[arg])])) else Fail(c.state)
    else if op == PUSH_ARG then Next(next.(stack := rest + [Peek(c.frame, ArgPlace(arg))]))
    else if op == PUSH_LOCAL then Next(next.(stack := rest + [Peek(c.frame, LocalPlace(arg))]))
    else if op == POP_ARG then Next(next.(frame := Poke(c.frame, ArgPlace(arg), popped[0])))
    else if op == POP_LOCAL then Next(next.(frame := Poke(c.frame, LocalPlace(arg), popped[0])))
    else if op == CALL_TAIL then TailCall(popped[0], popped[1..])
    else if arg >= |code.constants| || !code.constants[arg].VarConst? then Fail(c.state)
    else
      var id := code.constants[arg].id;
      if op == POP_VALUE then Next(next.(state := c.state.(globals := c.state.globals[id := popped[0]])))
      else if id !in c.state.globals then Fail(c.state)
      else if op == PUSH_VALUE || (op == PUSH_FUNCTION && Callable(m, c.state.globals[id])) then
        Next(next.(stack := rest + [c.state.globals[id]]))
      else Fail(c.state)
  }

  /** One instruction. How many slots a method takes is part of its description. */
  function Step(m: Meaning, t: Tables, code: Code, c: Config): Effect {
    if c.pc >= |code.instrs| || |c.stack| < Pops(code.instrs[c.pc]) then Fail(c.state)
    else
      var i := code.instrs[c.pc];
      var n := |c.stack| - Pops(i);
      var rest, popped := c.stack[..n], c.stack[n..];
      var next := c.(pc := c.pc + 1, stack := rest);
      match i
      case Op(op) => OpEffect(m, op, popped, rest, c)
      case MakeMethod(taken) =>
        if popped[taken].Flat? && taken == |Closes(t, popped[taken].method_.id)| then
          Next(next.(stack := rest + [Flat(popped[taken].method_, popped[..taken])]))
        else Fail(c.state)
      case OpArg(op, arg) => ArgEffect(m, code, op, arg, popped, rest, c)
      case CallForSingle(_) => CallFor(popped[0], popped[1..], rest, 2)
      case CallForMany(_, want) => CallFor(popped[0], popped[1..], rest, want)
      case OpWants(op, want) =>
        if op == DOT_FOR_MANY then CallFor(popped[1], [popped[0]], rest, want)
        else Next(next.(stack := rest + Delivered(popped, want)))
      case PushByte(k) => Next(next.(stack := rest + [Prim(IntLit(k))]))
      case PushInt(k) => Next(next.(stack := rest + [Prim(IntLit(k))]))
      case Branch(op, disp) =>
        if op == CONDITIONAL_BRANCH && popped[0] != FALSE then Next(next)
        else Next(next.(pc := AtByte(code.instrs, Size(code.instrs[..c.pc + 1]) + disp)))
  }

  /** Execution up to the return. */
  function Exec(m: Meaning, t: Tables, code: Code, c: Config, fuel: nat): Result
    decreases fuel, 0
  {
    if fuel == 0 then OutOfFuel
    else
      match Step(m, t, code, c)
      case Next(c') => Exec(m, t, code, c', fuel - 1)
      case Return(vs) => Returned(vs, c.state)
      case TailCall(f, args) => Enter(m, t, f, args, c.state, fuel - 1)
      case CallFor(f, args, stack, want) =>
        (match Enter(m, t, f, args, c.state, fuel - 1)
         case Returned(vs, s) => Exec(m, t, code, Config(c.pc + 1, stack + Delivered(vs, want), c.frame, s), fuel - 1)
         case r => r)
      case Fail(s) => Failed(s)
  }

  // A call.
  function Enter(m: Meaning, t: Tables, f: Value, args: seq<Value>, s: State, fuel: nat): Result
    decreases fuel, 1
  {
    match f
    case Prim(l) =>
      (match Replied(m.builtin(l, Views(args), s.world), args, s)
       case Done(vs, s') => Returned(vs, s')
       case Exit(s') => Failed(s')
       case _ => Failed(s))
    case Flat(mm, slots) =>
      (match ParamValues(mm, args)
       case None => Failed(s)
       case Some(params) => Exec(m, t, GenMethod(t, mm), Config(0, [], NewFrame(m, t, f, params, slots, mm.id), s), fuel))
    case _ => Failed(s)
  }

  // With enough fuel, execution ends with that result.
  ghost predicate EndsBy(m: Meaning, t: Tables, code: Code, c: Config, r: Result, n: nat) {
    forall k: nat :: k >= n ==> Exec(m, t, code, c, k) == r
  }

  ghost predicate EndsIn(m: Meaning, t: Tables, code: Code, c: Config, g: Goal) {
    match g
    case Gives(r) => exists n: nat :: EndsBy(m, t, code, c, r, n)
    case Lasts(n) => forall k: nat :: k <= n ==> Exec(m, t, code, c, k) == OutOfFuel
  }

  ghost predicate CallEndsBy(m: Meaning, t: Tables, f: Value, args: seq<Value>, s: State, r: Result, n: nat) {
    forall k: nat :: k >= n ==> Enter(m, t, f, args, s, k) == r
  }

  ghost predicate CallEndsIn(m: Meaning, t: Tables, f: Value, args: seq<Value>, s: State, g: Goal) {
    match g
    case Gives(r) => exists n: nat :: CallEndsBy(m, t, f, args, s, r, n)
    case Lasts(n) => forall k: nat :: k <= n ==> Enter(m, t, f, args, s, k) == OutOfFuel
  }

  // More fuel does not change a result.
  lemma {:induction false} ExecMore(m: Meaning, t: Tables, code: Code, c: Config, j: nat, k: nat)
    requires j <= k && Exec(m, t, code, c, j) != OutOfFuel
    ensures Exec(m, t, code, c, k) == Exec(m, t, code, c, j)
    decreases j, 0
  {
    hide Step, Enter;
    match Step(m, t, code, c)
    case Next(c') => ExecMore(m, t, code, c', j - 1, k - 1);
    case Return(_) =>
    case TailCall(f, args) => EnterMore(m, t, f, args, c.state, j - 1, k - 1);
    case CallFor(f, args, stack, want) =>
      EnterMore(m, t, f, args, c.state, j - 1, k - 1);
      match Enter(m, t, f, args, c.state, j - 1) {
        case Returned(vs, s) =>
          ExecMore(m, t, code, Config(c.pc + 1, stack + Delivered(vs, want), c.frame, s), j - 1, k - 1);
        case _ =>
      }
    case Fail(_) =>
  }

  lemma {:induction false} EnterMore(m: Meaning, t: Tables, f: Value, args: seq<Value>, s: State, j: nat, k: nat)
    requires j <= k && Enter(m, t, f, args, s, j) != OutOfFuel
    ensures Enter(m, t, f, args, s, k) == Enter(m, t, f, args, s, j)
    decreases j, 1
  {
    hide Exec, GenMethod, NewFrame, ParamValues;
    if f.Flat? && ParamValues(f.method_, args).Some? {
      var mm := f.method_;
      ExecMore(m, t, GenMethod(t, mm), Config(0, [], NewFrame(m, t, f, ParamValues(mm, args).value, f.slots, mm.id), s), j, k);
    }
  }

  // What takes a step less is reached a step earlier.
  lemma {:induction false} EndsSooner(m: Meaning, t: Tables, code: Code, c: Config, g: Goal)
    requires EndsIn(m, t, code, c, g)
    ensures EndsIn(m, t, code, c, Sooner(g))
  {
    hide Exec;
  }

  lemma {:induction false} StepEndsSooner(m: Meaning, t: Tables, code: Code, c: Config, c': Config, g: Goal)
    requires Step(m, t, code, c) == Next(c') && EndsIn(m, t, code, c', Sooner(g))
    ensures EndsIn(m, t, code, c, g)
  {
    hide Step;
    if g.Gives? {
      var n: nat :| EndsBy(m, t, code, c', g.result, n);
      forall k: nat | k >= n + 1 ensures Exec(m, t, code, c, k) == g.result {
        assert Exec(m, t, code, c', k - 1) == g.result;
      }
      assert EndsBy(m, t, code, c, g.result, n + 1);
    } else {
      forall k: nat | k <= g.fuel ensures Exec(m, t, code, c, k) == OutOfFuel {
        if k > 0 { assert Exec(m, t, code, c', k - 1) == OutOfFuel; }
      }
    }
  }

  lemma {:induction false} StepEnds(m: Meaning, t: Tables, code: Code, c: Config, c': Config, g: Goal)
    requires Step(m, t, code, c) == Next(c') && EndsIn(m, t, code, c', g)
    ensures EndsIn(m, t, code, c, g)
  {
    hide Step, EndsIn;
    EndsSooner(m, t, code, c', g);
    StepEndsSooner(m, t, code, c, c', g);
  }

  lemma {:induction false} ReturnEnds(m: Meaning, t: Tables, code: Code, c: Config, vs: seq<Value>)
    requires Step(m, t, code, c) == Return(vs)
    ensures EndsIn(m, t, code, c, Gives(Returned(vs, c.state)))
  {
    hide Step;
    assert EndsBy(m, t, code, c, Returned(vs, c.state), 1);
  }

  lemma {:induction false} FailEnds(m: Meaning, t: Tables, code: Code, c: Config, s: State)
    requires Step(m, t, code, c) == Fail(s)
    ensures EndsIn(m, t, code, c, Gives(Failed(s)))
  {
    hide Step;
    assert EndsBy(m, t, code, c, Failed(s), 1);
  }

  lemma {:induction false} TailCallEnds(m: Meaning, t: Tables, code: Code, c: Config, f: Value, args: seq<Value>, g: Goal)
    requires Step(m, t, code, c) == TailCall(f, args) && CallEndsIn(m, t, f, args, c.state, Sooner(g))
    ensures EndsIn(m, t, code, c, g)
  {
    hide Step, Enter;
    if g.Gives? {
      var n: nat :| CallEndsBy(m, t, f, args, c.state, g.result, n);
      forall k: nat | k >= n + 1 ensures Exec(m, t, code, c, k) == g.result {
        assert Enter(m, t, f, args, c.state, k - 1) == g.result;
      }
      assert EndsBy(m, t, code, c, g.result, n + 1);
    } else {
      forall k: nat | k <= g.fuel ensures Exec(m, t, code, c, k) == OutOfFuel {
        if k > 0 { assert Enter(m, t, f, args, c.state, k - 1) == OutOfFuel; }
      }
    }
  }

  // A call that does not return.
  lemma {:induction false} CallStops(m: Meaning, t: Tables, code: Code, c: Config, f: Value, args: seq<Value>, stack: seq<Value>, want: nat, g: Goal)
    requires Step(m, t, code, c) == CallFor(f, args, stack, want)
    requires CallEndsIn(m, t, f, args, c.state, Sooner(g)) && (g.Gives? ==> !g.result.Returned?)
    ensures EndsIn(m, t, code, c, g)
  {
    hide Step, Enter, Delivered;
    if g.Gives? {
      var n: nat :| CallEndsBy(m, t, f, args, c.state, g.result, n);
      forall k: nat | k >= n + 1 ensures Exec(m, t, code, c, k) == g.result {
        assert Enter(m, t, f, args, c.state, k - 1) == g.result;
      }
      assert EndsBy(m, t, code, c, g.result, n + 1);
    } else {
      forall k: nat | k <= g.fuel ensures Exec(m, t, code, c, k) == OutOfFuel {
        if k > 0 { assert Enter(m, t, f, args, c.state, k - 1) == OutOfFuel; }
      }
    }
  }

  /** A call that returns. */
  lemma {:induction false} CallEnds(m: Meaning, t: Tables, code: Code, c: Config, f: Value, args: seq<Value>, stack: seq<Value>, want: nat,
                 vs: seq<Value>, s: State, g: Goal)
    requires Step(m, t, code, c) == CallFor(f, args, stack, want)
    requires CallEndsIn(m, t, f, args, c.state, Gives(Returned(vs, s)))
    requires EndsIn(m, t, code, Config(c.pc + 1, stack + Delivered(vs, want), c.frame, s), g)
    ensures EndsIn(m, t, code, c, g)
  {
    hide Step, Enter, Delivered;
    var n: nat :| CallEndsBy(m, t, f, args, c.state, Returned(vs, s), n);
    var c' := Config(c.pc + 1, stack + Delivered(vs, want), c.frame, s);
    if g.Gives? {
      var n': nat :| EndsBy(m, t, code, c', g.result, n');
      var most := if n > n' then n else n';
      forall k: nat | k >= most + 1 ensures Exec(m, t, code, c, k) == g.result {
        assert Enter(m, t, f, args, c.state, k - 1) == Returned(vs, s);
        assert Exec(m, t, code, c', k - 1) == g.result;
      }
      assert EndsBy(m, t, code, c, g.result, most + 1);
    } else {
      forall k: nat | k <= g.fuel ensures Exec(m, t, code, c, k) == OutOfFuel {
        if k > 0 {
          ReturnsOrNot(m, t, f, args, c.state, k - 1, n, vs, s);
          assert Exec(m, t, code, c', k - 1) == OutOfFuel;
        }
      }
    }
  }

  lemma {:induction false} ReturnsOrNot(m: Meaning, t: Tables, f: Value, args: seq<Value>, s: State, k: nat, n: nat, vs: seq<Value>, s': State)
    requires CallEndsBy(m, t, f, args, s, Returned(vs, s'), n)
    ensures Enter(m, t, f, args, s, k) in {OutOfFuel, Returned(vs, s')}
  {
    hide Enter;
    if Enter(m, t, f, args, s, k) != OutOfFuel {
      EnterMore(m, t, f, args, s, k, k + n);
      assert Enter(m, t, f, args, s, k + n) == Returned(vs, s');
    }
  }

  // The machine knows nothing of assumptions.

  lemma {:induction false} StepSame(m: Meaning, m': Meaning, t: Tables, code: Code, c: Config)
    requires m' == m.(assumed := m'.assumed)
    ensures Step(m', t, code, c) == Step(m, t, code, c)
  {
    hide Views, Picked, Pops, AtByte, Delivered;
    if c.pc < |code.instrs| && |c.stack| >= Pops(code.instrs[c.pc]) {
      var i := code.instrs[c.pc];
      var n := |c.stack| - Pops(i);
      if i.Op? { OpSame(m, m', i.op, c.stack[n..], c.stack[..n], c); }
      if i.OpArg? { ArgSame(m, m', code, i.op, i.arg, c.stack[n..], c.stack[..n], c); }
    }
  }

  lemma {:induction false} OpSame(m: Meaning, m': Meaning, op: Byte, popped: seq<Value>, rest: seq<Value>, c: Config)
    requires m' == m.(assumed := m'.assumed) && |popped| == Pops(Op(op))
    ensures OpEffect(m', op, popped, rest, c) == OpEffect(m, op, popped, rest, c)
  {
    hide Views, Picked;
  }

  lemma {:induction false} ArgSame(m: Meaning, m': Meaning, code: Code, op: Byte, arg: nat, popped: seq<Value>, rest: seq<Value>, c: Config)
    requires m' == m.(assumed := m'.assumed) && |popped| == Pops(OpArg(op, arg))
    ensures ArgEffect(m', code, op, arg, popped, rest, c) == ArgEffect(m, code, op, arg, popped, rest, c)
  {
  }

  lemma {:induction false} FrameSame(m: Meaning, m': Meaning, t: Tables, f: Value, params: seq<Value>, slots: seq<Value>, id: nat)
    requires m' == m.(assumed := m'.assumed)
    ensures NewFrame(m', t, f, params, slots, id) == NewFrame(m, t, f, params, slots, id)
  {
    var fr, fr' := NewFrame(m, t, f, params, slots, id), NewFrame(m', t, f, params, slots, id);
    assert fr'.below == fr.below && fr'.locals == fr.locals;
  }

  lemma {:induction false} ExecSame(m: Meaning, m': Meaning, t: Tables, code: Code, c: Config, fuel: nat)
    requires m' == m.(assumed := m'.assumed)
    ensures Exec(m', t, code, c, fuel) == Exec(m, t, code, c, fuel)
    decreases fuel, 0
  {
    hide Step, Enter, Delivered;
    if fuel > 0 {
      StepSame(m, m', t, code, c);
      match Step(m, t, code, c)
      case Next(c') => ExecSame(m, m', t, code, c', fuel - 1);
      case Return(_) =>
      case TailCall(f, args) => EnterSame(m, m', t, f, args, c.state, fuel - 1);
      case CallFor(f, args, stack, want) =>
        EnterSame(m, m', t, f, args, c.state, fuel - 1);
        match Enter(m, t, f, args, c.state, fuel - 1) {
          case Returned(vs, s) => ExecSame(m, m', t, code, Config(c.pc + 1, stack + Delivered(vs, want), c.frame, s), fuel - 1);
          case _ =>
        }
      case Fail(_) =>
    }
  }

  lemma {:induction false} EnterSame(m: Meaning, m': Meaning, t: Tables, f: Value, args: seq<Value>, s: State, fuel: nat)
    requires m' == m.(assumed := m'.assumed)
    ensures Enter(m', t, f, args, s, fuel) == Enter(m, t, f, args, s, fuel)
    decreases fuel, 1
  {
    hide Exec, GenMethod, NewFrame, ParamValues, Views, Picked;
    if f.Flat? && ParamValues(f.method_, args).Some? {
      var mm, params := f.method_, ParamValues(f.method_, args).value;
      FrameSame(m, m', t, f, params, f.slots, mm.id);
      ExecSame(m, m', t, GenMethod(t, mm), Config(0, [], NewFrame(m, t, f, params, f.slots, mm.id), s), fuel);
    }
  }

  lemma {:induction false} CallEndsSame(m: Meaning, m': Meaning, t: Tables, f: Value, args: seq<Value>, s: State, g: Goal)
    requires m' == m.(assumed := m'.assumed) && CallEndsIn(m', t, f, args, s, g)
    ensures CallEndsIn(m, t, f, args, s, g)
  {
    hide Enter;
    forall k: nat ensures Enter(m', t, f, args, s, k) == Enter(m, t, f, args, s, k) { EnterSame(m, m', t, f, args, s, k); }
    if g.Gives? {
      var n: nat :| CallEndsBy(m', t, f, args, s, g.result, n);
      assert CallEndsBy(m, t, f, args, s, g.result, n);
    }
  }
}
