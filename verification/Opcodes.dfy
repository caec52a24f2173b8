/**
 What the interpreter does for each opcode, told by its number: the table that the compiler and
 the machine have to agree with.
 */
module Opcodes {
  import opened Wrappers
  import opened Bytecode
  import opened Programs
  import opened Semantics
  import opened Slots
  import opened Codegen
  import StackDepth
  import opened Machine
  import MagicNames

  /** The functions that have opcodes of their own, by name. */
  lemma OperatorNumbers()
    ensures MagicNames.MagicOf("+").Some? && BinaryOp(MagicNames.MagicOf("+").value) == 0xf0
    ensures MagicNames.MagicOf("-").Some? && BinaryOp(MagicNames.MagicOf("-").value) == 0xf1
    ensures MagicNames.MagicOf("<").Some? && BinaryOp(MagicNames.MagicOf("<").value) == 0xf2
    ensures MagicNames.MagicOf("<=").Some? && BinaryOp(MagicNames.MagicOf("<=").value) == 0xf3
    ensures MagicNames.MagicOf("=").Some? && BinaryOp(MagicNames.MagicOf("=").value) == 0xf4
    ensures MagicNames.MagicOf("==").Some? && BinaryOp(MagicNames.MagicOf("==").value) == 0xf5
    ensures MagicNames.MagicOf("~=").Some? && BinaryOp(MagicNames.MagicOf("~=").value) == 0xf6
    ensures MagicNames.MagicOf(">=").Some? && BinaryOp(MagicNames.MagicOf(">=").value) == 0xf7
    ensures MagicNames.MagicOf(">").Some? && BinaryOp(MagicNames.MagicOf(">").value) == 0xf8
    ensures MagicNames.MagicOf("check-type").Some? && BinaryOp(MagicNames.MagicOf("check-type").value) == 7
    ensures forall name :: MagicNames.MagicOf(name).Some? ==>
              name in ["+", "-", "<", "<=", "=", "==", "~=", ">=", ">", "check-type"]
  {
  }

  // The value so far below the top of the stack, the top being 1.
  function Top(stack: seq<Value>, k: nat): Value
    requires 0 < k <= |stack|
  {
    stack[|stack| - k]
  }

  // The stack without so many values.
  function Less(stack: seq<Value>, k: nat): seq<Value>
    requires k <= |stack|
  {
    stack[..|stack| - k]
  }

  function Pushed(c: Config, k: nat, v: Value): Effect
    requires k <= |c.stack|
  {
    Next(c.(pc := c.pc + 1, stack := Less(c.stack, k) + [v]))
  }

  function Answered(r: Reply, a: Value, b: Value, c: Config): Effect
    requires 2 <= |c.stack|
  {
    match r
    case Reply(picks, w) => Next(c.(pc := c.pc + 1, stack := Less(c.stack, 2) + [First(Picked(picks, [a, b]))], state := c.state.(world := w)))
    case Fails(w) => Fail(c.state.(world := w))
  }

  /** Opcodes without operand. */
  function ByNumber(m: Meaning, op: int, c: Config): Effect {
    var s, n := c.stack, |c.stack|;
    if op == 14 then Pushed(c, 0, Prim(NilLit))
    else if op == 15 then Pushed(c, 0, Prim(UnboundLit))
    else if op == 16 then Pushed(c, 0, Prim(TrueLit))
    else if op == 17 then Pushed(c, 0, Prim(FalseLit))
    else if n < 1 then Fail(c.state)
    else if op == 2 then Return([Top(s, 1)])
    else if op == 3 then
      Next(Config(c.pc + 1, Less(s, 1) + [Cell(|c.state.mem|)], c.frame, c.state.(mem := c.state.mem + [Top(s, 1)])))
    else if op == 4 then Pushed(c, 1, CellRef(c.state, Top(s, 1)))
    else if op == 8 then if Callable(m, Top(s, 1)) then Next(c.(pc := c.pc + 1)) else Fail(c.state)
    else if op == 18 then Pushed(c, 0, Top(s, 1))
    else if n < 2 then Fail(c.state)
    else if op == 5 then Next(c.(pc := c.pc + 1, stack := Less(s, 2), state := CellSet(c.state, Top(s, 1), Top(s, 2))))
    else if op == 19 then TailCall(Top(s, 1), [Top(s, 2)])
    else if op == 21 then CallFor(Top(s, 1), [Top(s, 2)], Less(s, 2), 2)
    else if op == 7 then Answered(m.binary(9, [Look(Top(s, 2)), Look(Top(s, 1))], c.state.world), Top(s, 2), Top(s, 1), c)
    else if 0xf0 <= op <= 0xf8 then
      Answered(m.binary(op - 0xf0, [Look(Top(s, 2)), Look(Top(s, 1))], c.state.world), Top(s, 2), Top(s, 1), c)
    else Fail(c.state)
  }

  lemma OpByNumber(m: Meaning, t: Tables, code: Code, op: Byte, c: Config)
    requires c.pc < |code.instrs| && code.instrs[c.pc] == Op(op) && Op(op).Valid()
    ensures Step(m, t, code, c) == ByNumber(m, op, c)
  {
    hide Look, Picked, OpEffect, ByNumber;
    var s, n, k := c.stack, |c.stack|, StackDepth.Pops(Op(op));
    if n >= k {
      var popped, rest := s[n - k..], s[..n - k];
      assert Step(m, t, code, c) == OpEffect(m, op, popped, rest, c);
      if k == 0 {
        assert rest == s;
        NothingByNumber(m, op, c);
      } else if k == 1 {
        assert popped == [Top(s, 1)] && rest == Less(s, 1);
        OneByNumber(m, op, c);
      } else {
        assert popped == [Top(s, 2), Top(s, 1)] && rest == Less(s, 2);
        TwoByNumber(m, op, c);
      }
    } else {
      TooFew(m, op, c);
    }
  }

  lemma NothingByNumber(m: Meaning, op: Byte, c: Config)
    requires Op(op).Valid() && StackDepth.Pops(Op(op)) == 0
    ensures OpEffect(m, op, [], c.stack, c) == ByNumber(m, op, c)
  {
    assert Less(c.stack, 0) == c.stack;
  }

  lemma OneByNumber(m: Meaning, op: Byte, c: Config)
    requires Op(op).Valid() && StackDepth.Pops(Op(op)) == 1 && |c.stack| >= 1
    ensures OpEffect(m, op, [Top(c.stack, 1)], Less(c.stack, 1), c) == ByNumber(m, op, c)
  {
    hide Look, Picked;
    var s, v := c.stack, Top(c.stack, 1);
    assert Less(s, 1) + [v] == s && Less(s, 0) == s;
    assert Less(s, 1) + [v] + [v] == s + [v];
  }

  lemma TwoByNumber(m: Meaning, op: Byte, c: Config)
    requires Op(op).Valid() && StackDepth.Pops(Op(op)) == 2 && |c.stack| >= 2
    ensures OpEffect(m, op, [Top(c.stack, 2), Top(c.stack, 1)], Less(c.stack, 2), c) == ByNumber(m, op, c)
  {
    hide Look, Picked, CellSet;
    var popped := [Top(c.stack, 2), Top(c.stack, 1)];
    assert Views(popped) == [Look(Top(c.stack, 2)), Look(Top(c.stack, 1))];
  }

  lemma TooFew(m: Meaning, op: Byte, c: Config)
    requires Op(op).Valid() && |c.stack| < StackDepth.Pops(Op(op))
    ensures ByNumber(m, op, c) == Fail(c.state)
  {
    hide Look, Picked;
  }

  // The variable of an operand: the slots of a frame are counted down from six below its start,
  // and up from it.
  function ArgSlot(fr: Frame, k: int): Value {
    if 0 <= |fr.below| - 6 - k < |fr.below| then fr.below[|fr.below| - 6 - k] else Prim(FalseLit)
  }

  function LocalSlot(fr: Frame, k: int): Value {
    if 0 <= k < |fr.locals| then fr.locals[k] else Prim(FalseLit)
  }

  function SetArgSlot(fr: Frame, k: int, v: Value): Frame {
    if 0 <= |fr.below| - 6 - k < |fr.below| then fr.(below := fr.below[|fr.below| - 6 - k := v]) else fr
  }

  function SetLocalSlot(fr: Frame, k: int, v: Value): Frame {
    if 0 <= k < |fr.locals| then fr.(locals := fr.locals[k := v]) else fr
  }

  /** Opcodes with an operand in them. */
  function ByNumberAndArg(m: Meaning, code: Code, op: int, k: nat, c: Config): Effect {
    var s, n := c.stack, |c.stack|;
    var vars := c.state.globals;
    var id := if k < |code.constants| && code.constants[k].VarConst? then Some(code.constants[k].id) else None;
    if op == 0x20 then if k < |code.constants| then Pushed(c, 0, ConstantValue(code.constants[k])) else Fail(c.state)
    else if op == 0x30 then Pushed(c, 0, ArgSlot(c.frame, k))
    else if op == 0x50 then Pushed(c, 0, LocalSlot(c.frame, k))
    else if op == 0xa0 then if id.Some? && id.value in vars then Pushed(c, 0, vars[id.value]) else Fail(c.state)
    else if op == 0xb0 then
      if id.Some? && id.value in vars && Callable(m, vars[id.value]) then Pushed(c, 0, vars[id.value]) else Fail(c.state)
    else if op == 0x70 then if n < k + 1 then Fail(c.state) else TailCall(Top(s, k + 1), s[n - k..])
    else if n < 1 then Fail(c.state)
    else if op == 0x40 then Next(Config(c.pc + 1, Less(s, 1), SetArgSlot(c.frame, k, Top(s, 1)), c.state))
    else if op == 0x60 then Next(Config(c.pc + 1, Less(s, 1), SetLocalSlot(c.frame, k, Top(s, 1)), c.state))
    else if op == 0xc0 then
      if id.Some? then Next(Config(c.pc + 1, Less(s, 1), c.frame, c.state.(globals := vars[id.value := Top(s, 1)]))) else Fail(c.state)
    else Fail(c.state)
  }

  lemma ArgByNumber(m: Meaning, t: Tables, code: Code, op: Byte, k: nat, c: Config)
    requires c.pc < |code.instrs| && code.instrs[c.pc] == OpArg(op, k) && OpArg(op, k).Valid()
    ensures Step(m, t, code, c) == ByNumberAndArg(m, code, op, k, c)
  {
    hide ArgEffect, ByNumberAndArg;
    var s, n, p := c.stack, |c.stack|, StackDepth.Pops(OpArg(op, k));
    if n >= p {
      var popped, rest := s[n - p..], s[..n - p];
      assert Step(m, t, code, c) == ArgEffect(m, code, op, k, popped, rest, c);
      if op == 0x70 {
        TailByNumber(m, code, k, c);
      } else if p == 0 {
        assert rest == s && popped == [];
        PushByNumber(m, code, op, k, c);
      } else {
        assert popped == [Top(s, 1)] && rest == Less(s, 1);
        PopByNumber(m, code, op, k, c);
      }
    } else {
      TooFewForArg(m, code, op, k, c);
    }
  }

  lemma PushByNumber(m: Meaning, code: Code, op: Byte, k: nat, c: Config)
    requires op in {0x20, 0x30, 0x50, 0xa0, 0xb0}
    ensures ArgEffect(m, code, op, k, [], c.stack, c) == ByNumberAndArg(m, code, op, k, c)
  {
    assert Less(c.stack, 0) == c.stack;
  }

  lemma PopByNumber(m: Meaning, code: Code, op: Byte, k: nat, c: Config)
    requires op in {0x40, 0x60, 0xc0} && |c.stack| >= 1
    ensures ArgEffect(m, code, op, k, [Top(c.stack, 1)], Less(c.stack, 1), c) == ByNumberAndArg(m, code, op, k, c)
  {
  }

  lemma TailByNumber(m: Meaning, code: Code, k: nat, c: Config)
    requires |c.stack| >= k + 1
    ensures var n := |c.stack|;
            ArgEffect(m, code, 0x70, k, c.stack[n - (k + 1)..], c.stack[..n - (k + 1)], c) == ByNumberAndArg(m, code, 0x70, k, c)
  {
    var n := |c.stack|;
    assert c.stack[n - (k + 1)..][1..] == c.stack[n - k..];
  }

  lemma TooFewForArg(m: Meaning, code: Code, op: Byte, k: nat, c: Config)
    requires OpArg(op, k).Valid() && |c.stack| < StackDepth.Pops(OpArg(op, k))
    ensures ByNumberAndArg(m, code, op, k, c) == Fail(c.state)
  {
  }

  // So many values of those given, and a vector of the others if one more is wanted: the low bit
  // of the operand tells.
  function TakeWanted(vs: seq<Value>, want: nat): seq<Value> {
    var n := want / 2;
    seq(n, i requires 0 <= i < n => if i < |vs| then vs[i] else Prim(FalseLit))
    + (if want % 2 == 0 then [] else [Vector(if n <= |vs| then vs[n..] else [])])
  }

  lemma WantedByNumber(vs: seq<Value>, want: nat)
    ensures Delivered(vs, want) == TakeWanted(vs, want)
  {
  }

  /** All other opcodes: calls, branches, small and large integers, and making a method. */
  function Obeyed(m: Meaning, t: Tables, code: Code, line: Line, c: Config): Effect {
    var s, n := c.stack, |c.stack|;
    var op, arg := line.op, if line.operands != [] then line.operands[0] else 0;
    var want := if |line.operands| == 2 && line.operands[1] >= 0 then line.operands[1] else 0;
    if op == 10 || op == 11 then Pushed(c, 0, Prim(IntLit(arg)))
    else if op == 12 then
      if n < 1 then Fail(c.state)
      else Next(c.(pc := if Top(s, 1) == Prim(FalseLit) then AtByte(code.instrs, arg) else c.pc + 1, stack := Less(s, 1)))
    else if op == 13 then Next(c.(pc := AtByte(code.instrs, arg)))
    else if arg < 0 then Fail(c.state)
    else if op == 9 then
      if n < 1 then Fail(c.state) else Next(c.(pc := c.pc + 1, stack := Less(s, 1) + TakeWanted([Top(s, 1)], arg)))
    else if op == 20 then if n < 2 then Fail(c.state) else CallFor(Top(s, 1), [Top(s, 2)], Less(s, 2), arg)
    else if op == 0x90 then if n < arg + 1 then Fail(c.state) else CallFor(Top(s, arg + 1), s[n - arg..], Less(s, arg + 1), 2)
    else if op == 0x80 then if n < arg + 1 then Fail(c.state) else CallFor(Top(s, arg + 1), s[n - arg..], Less(s, arg + 1), want)
    else if op == 6 then
      if n < 4 || !Top(s, 4).Flat? then Fail(c.state)
      else
        var k := |Closes(t, Top(s, 4).method_.id)|;
        if n < k + 4 then Fail(c.state) else Pushed(c, k + 4, Flat(Top(s, 4).method_, s[n - k - 4..n - 4]))
    else if 0x20 <= op < 0xd0 then ByNumberAndArg(m, code, op, arg, c)
    else ByNumber(m, op, c)
  }

  // The description under the top says how many slots a method takes.
  ghost predicate Described(t: Tables, i: Instr, c: Config) {
    i.MakeMethod? ==>
      var n := |c.stack|;
      && n >= i.taken + 4 && c.stack[n - 4].Flat? && i.taken == |Closes(t, c.stack[n - 4].method_.id)|
  }

  /** The machine obeys what the interpreter reads from the bytes, by number: for every instruction,
      whatever is on the stack. */
  lemma StepByNumber(m: Meaning, t: Tables, code: Code, c: Config)
    requires c.pc < |code.instrs| && code.instrs[c.pc].Valid() && Described(t, code.instrs[c.pc], c)
    ensures Step(m, t, code, c) == Obeyed(m, t, code, Shown(code.instrs[c.pc], Size(code.instrs[..c.pc])), c)
  {
    hide ByNumber, ByNumberAndArg, Step, AtByte, Size;
    var i := code.instrs[c.pc];
    match i
    case Op(op) => OpByNumber(m, t, code, op, c);
    case OpArg(op, k) => ArgByNumber(m, t, code, op, k, c);
    case MakeMethod(taken) => MakeByNumber(m, t, code, c);
    case CallForSingle(_) => CallByNumber(m, t, code, c);
    case CallForMany(_, _) => CallByNumber(m, t, code, c);
    case OpWants(_, _) => WantsByNumber(m, t, code, c);
    case PushByte(_) => IntByNumber(m, t, code, c);
    case PushInt(_) => IntByNumber(m, t, code, c);
    case Branch(_, _) => BranchByNumber(m, t, code, c);
  }

  lemma MakeByNumber(m: Meaning, t: Tables, code: Code, c: Config)
    requires c.pc < |code.instrs| && code.instrs[c.pc].MakeMethod? && Described(t, code.instrs[c.pc], c)
    ensures Step(m, t, code, c) == Obeyed(m, t, code, Line(6, []), c)
  {
    hide ByNumber, ByNumberAndArg, TakeWanted, AtByte, OpEffect, ArgEffect;
    var s, n, k := c.stack, |c.stack|, code.instrs[c.pc].taken;
    var popped := s[n - k - 4..];
    assert popped[k] == Top(s, 4) && popped[..k] == s[n - k - 4..n - 4] && s[..n - (k + 4)] == Less(s, k + 4);
  }

  lemma CallByNumber(m: Meaning, t: Tables, code: Code, c: Config)
    requires c.pc < |code.instrs| && var i := code.instrs[c.pc]; i.Valid() && (i.CallForSingle? || i.CallForMany?)
    ensures Step(m, t, code, c) == Obeyed(m, t, code, Shown(code.instrs[c.pc], Size(code.instrs[..c.pc])), c)
  {
    hide Size;
    var s, n, k := c.stack, |c.stack|, code.instrs[c.pc].nargs;
    if n >= k + 1 {
      var popped := s[n - (k + 1)..];
      assert popped[0] == Top(s, k + 1) && popped[1..] == s[n - k..] && s[..n - (k + 1)] == Less(s, k + 1);
    }
  }

  lemma WantsByNumber(m: Meaning, t: Tables, code: Code, c: Config)
    requires c.pc < |code.instrs| && code.instrs[c.pc].Valid() && code.instrs[c.pc].OpWants?
    ensures Step(m, t, code, c) == Obeyed(m, t, code, Shown(code.instrs[c.pc], Size(code.instrs[..c.pc])), c)
  {
    hide Size, TakeWanted, Delivered;
    var s, n, i := c.stack, |c.stack|, code.instrs[c.pc];
    if n >= 1 {
      WantedByNumber([Top(s, 1)], i.want);
      assert s[n - 1..] == [Top(s, 1)];
    }
    if n >= 2 { assert s[n - 2..] == [Top(s, 2), Top(s, 1)]; }
  }

  lemma IntByNumber(m: Meaning, t: Tables, code: Code, c: Config)
    requires c.pc < |code.instrs| && var i := code.instrs[c.pc]; i.Valid() && (i.PushByte? || i.PushInt?)
    ensures Step(m, t, code, c) == Obeyed(m, t, code, Shown(code.instrs[c.pc], Size(code.instrs[..c.pc])), c)
  {
    hide Size;
    assert c.stack[..|c.stack|] == c.stack;
  }

  lemma BranchByNumber(m: Meaning, t: Tables, code: Code, c: Config)
    requires c.pc < |code.instrs| && code.instrs[c.pc].Valid() && code.instrs[c.pc].Branch?
    ensures Step(m, t, code, c) == Obeyed(m, t, code, Shown(code.instrs[c.pc], Size(code.instrs[..c.pc])), c)
  {
    hide Size, AtByte;
    assert c.stack[..|c.stack|] == c.stack;
    BranchEnd(code.instrs, c.pc);
  }

  // A displacement counts from the end of the branch.
  lemma BranchEnd(instrs: seq<Instr>, pc: nat)
    requires pc < |instrs| && instrs[pc].Branch?
    ensures Size(instrs[..pc + 1]) == Size(instrs[..pc]) + 5
  {
    assert instrs[..pc + 1] == instrs[..pc] + [instrs[pc]];
    SizeOfParts(instrs[..pc], [instrs[pc]]);
    assert [instrs[pc]][1..] == [];
  }

  /** Operands are in the opcode up to 14, in a byte after it up to 254, and otherwise in four
      bytes, the lowest first; ... */
  lemma EncodingExamples()
    ensures Encode(OpArg(0x20, 14)) == [0x2e] && Encode(OpArg(0x20, 15)) == [0x2f, 15]
    ensures Encode(OpArg(0x20, 254)) == [0x2f, 254] && Encode(OpArg(0x20, 0x1234)) == [0x2f, 0xff, 0x34, 0x12, 0, 0]
  {
  }

  /** ... a call repeats its opcode if the operand is not in it; ... */
  lemma CallExamples()
    ensures Encode(CallForSingle(14)) == [0x9e] && Encode(CallForSingle(15)) == [0x9f, 15, 0x90]
    ensures Encode(CallForMany(2, 3)) == [0x82, 3] && Encode(CallForMany(15, 3)) == [0x8f, 15, 0x80, 3]
  {
  }

  /** ... and negative numbers are in two's complement. */
  lemma NumberExamples()
    ensures Encode(PushByte(-1)) == [10, 0xff] && Encode(PushInt(0x1020304)) == [11, 4, 3, 2, 1]
    ensures Encode(PushInt(-2)) == [11, 0xfe, 0xff, 0xff, 0xff] && Encode(Branch(13, -5)) == [13, 0xfb, 0xff, 0xff, 0xff]
  {
  }
}
