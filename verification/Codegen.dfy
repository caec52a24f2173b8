/**
 The code of an analyzed program, for the number of values wanted of each expression.
 */
module Codegen {
  import opened Wrappers
  import opened Bytecode
  import opened Programs
  import opened Slots

  // Tail returns what the expression returns; Func wants one value that is a function.
  datatype Want = Tail | Func | Count(required: nat, rest: bool)

  const SINGLE := Count(1, false)
  const NOTHING := Count(0, false)

  function WantCode(w: Want): nat
    requires w.Count?
  {
    2 * w.required + (if w.rest then 1 else 0)
  }

  datatype Constant = LiteralConst(literal: Literal) | VarConst(id: Id) | MethodConst(method_: Method)

  // Code, and the constants after it.
  datatype Code = Code(instrs: seq<Instr>, constants: seq<Constant>)

  function InstrSize(i: Instr): nat {
    match i
    case Op(_) => 1
    case MakeMethod(_) => 1
    case OpArg(_, arg) => ArgSize(arg)
    case CallForSingle(n) => ArgSize(n) + (if n < 0xf then 0 else 1)
    case CallForMany(n, w) => ArgSize(n) + (if n < 0xf then 0 else 1) + WideSize(w)
    case OpWants(_, w) => 1 + WideSize(w)
    case PushByte(_) => 2
    case PushInt(_) => 5
    case Branch(_, _) => 5
  }

  function WideSize(arg: nat): nat {
    if arg < 0xff then 1 else 5
  }

  function ArgSize(arg: nat): nat {
    if arg < 0xf then 1 else 1 + WideSize(arg)
  }

  lemma SizeOfEncoding(i: Instr)
    requires i.Valid()
    ensures |Encode(i)| == InstrSize(i)
  {
  }

  // The bytes of code.
  function Size(code: seq<Instr>): nat {
    if code == [] then 0 else InstrSize(code[0]) + Size(code[1..])
  }

  lemma {:induction false} SizeOfParts(a: seq<Instr>, b: seq<Instr>)
    ensures Size(a + b) == Size(a) + Size(b)
    decreases |a|
  {
    if a == [] {
      assert a + b == b;
    } else {
      assert (a + b)[1..] == a[1..] + b;
      SizeOfParts(a[1..], b);
    }
  }

  function Canonicalize(want: Want): seq<Instr> {
    if want.Tail? then [Op(RETURN_SINGLE)]
    else if want.Func? then [Op(CHECK_TYPE_FUNCTION)]
    else if want == SINGLE then []
    else [OpWants(CANONICALIZE_VALUE, WantCode(want))]
  }

  // The constant of a global variable, found or added.
  function FindVariable(cs: seq<Constant>, id: Id): (r: (nat, seq<Constant>))
    ensures r.0 < |r.1| && r.1[r.0] == VarConst(id) && |cs| <= |r.1| && r.1[..|cs|] == cs
  {
    if VarConst(id) in cs then (IndexOf(cs, VarConst(id)), cs) else (|cs|, cs + [VarConst(id)])
  }

  function IndexOf(cs: seq<Constant>, c: Constant): (i: nat)
    requires c in cs
    ensures i < |cs| && cs[i] == c && forall j :: 0 <= j < i ==> cs[j] != c
  {
    if cs[0] == c then 0 else 1 + IndexOf(cs[1..], c)
  }

  function PushPlace(p: Place): Instr {
    match p
    case ArgPlace(k) => OpArg(PUSH_ARG, k)
    case LocalPlace(k) => OpArg(PUSH_LOCAL, k)
  }

  function PopPlace(p: Place): Instr {
    match p
    case ArgPlace(k) => OpArg(POP_ARG, k)
    case LocalPlace(k) => OpArg(POP_LOCAL, k)
  }

  function GenVar(t: Tables, id: Id, ref: Ref, want: Want, cs: seq<Constant>): Code {
    if ref.binding.Some? then
      var b := Noted(t, ref.binding.value);
      if want == NOTHING then Code([], cs)
      else
        Code([PushPlace(RefPlace(t, ref.binding.value, ref))]
             + (if b.Boxed() then [Op(VALUE_CELL_REF)] else [])
             + (if want.Func? && b.function_ then [] else Canonicalize(want)), cs)
    else
      var (i, cs') := FindVariable(cs, id);
      if want.Func? then Code([OpArg(PUSH_FUNCTION, i)], cs')
      else Code([OpArg(PUSH_VALUE, i)] + Canonicalize(want), cs')
  }

  function GenLit(l: Literal, want: Want, cs: seq<Constant>): Code {
    if want == NOTHING then Code([], cs)
    else
      match l
      case TrueLit => Code([Op(PUSH_TRUE)] + Canonicalize(want), cs)
      case FalseLit => Code([Op(PUSH_FALSE)] + Canonicalize(want), cs)
      case UnboundLit => Code([Op(PUSH_UNBOUND)] + Canonicalize(want), cs)
      case NilLit => Code([Op(PUSH_NIL)] + Canonicalize(want), cs)
      case IntLit(n) => Code([if -128 < n < 128 then PushByte(n) else PushInt(n)] + Canonicalize(want), cs)
      case OtherLit(_) => Code([OpArg(PUSH_CONSTANT, |cs|)] + Canonicalize(want), cs + [LiteralConst(l)])
  }

  // The call itself, after the function and the arguments.
  function CallCode(n: nat, want: Want): seq<Instr> {
    match want
    case Tail => [OpArg(CALL_TAIL, n)]
    case Func => [CallForSingle(n), Op(CHECK_TYPE_FUNCTION)]
    case Count(_, _) => if want == SINGLE then [CallForSingle(n)] else [CallForMany(n, WantCode(want))]
  }

  function DotCode(want: Want): seq<Instr> {
    match want
    case Tail => [Op(DOT_TAIL)]
    case Func => [Op(DOT_FOR_SINGLE), Op(CHECK_TYPE_FUNCTION)]
    case Count(_, _) => if want == SINGLE then [Op(DOT_FOR_SINGLE)] else [OpWants(DOT_FOR_MANY, WantCode(want))]
  }

  function ArgCount(args: Exprs): nat {
    if args.NoArgs? then 0 else 1 + ArgCount(args.rest)
  }

  // The code of e at byte `pos`; the innermost loop starts at byte `loop`.
  function Gen(t: Tables, e: Expr, want: Want, cs: seq<Constant>, pos: nat, loop: nat): Code
    decreases e, 1
  {
    match e
    case Var(id, ref) => GenVar(t, id, ref, want, cs)
    case Lit(l) => GenLit(l, want, cs)
    case Call(f, args) =>
      var fc := Gen(t, f, Func, cs, pos, loop);
      var ac := GenArgs(t, args, SINGLE, fc.constants, pos + Size(fc.instrs), loop);
      Code(fc.instrs + ac.instrs + CallCode(ArgCount(args), want), ac.constants)
    case Binary(op, l, r) =>
      var lc := Gen(t, l, SINGLE, cs, pos, loop);
      var rc := Gen(t, r, SINGLE, lc.constants, pos + Size(lc.instrs), loop);
      Code(lc.instrs + rc.instrs + [Op(BinaryOp(op))] + Canonicalize(want), rc.constants)
    case Values(_, _) => GenValues(t, e, want, cs, pos, loop)
    case Dot(a, f) =>
      var ac := Gen(t, a, SINGLE, cs, pos, loop);
      var fc := Gen(t, f, Func, ac.constants, pos + Size(ac.instrs), loop);
      Code(ac.instrs + fc.instrs + DotCode(want), fc.constants)
    case MethodRef(mm) => GenMethodRef(t, mm, want, cs, pos, loop)
    case BodyExpr(b) => GenBody(t, b, want, cs, pos, loop)
    case If(_, _, _) => GenIf(t, e, want, cs, pos, loop)
    case Set(id, ref, v) =>
      var vc := Gen(t, v, if want.Func? then Func else SINGLE, cs, pos, loop);
      var sc := GenStore(t, id, ref, want, vc.constants);
      Code(vc.instrs + sc.instrs, sc.constants)
    case Loop(b) => GenBody(t, b, want, cs, pos, pos)
    case Repeat => Code([Branch(BRANCH, loop - (pos + 5))], cs)
  }

  function GenIf(t: Tables, e: Expr, want: Want, cs: seq<Constant>, pos: nat, loop: nat): Code
    requires e.If?
    decreases e, 0
  {
    var cc := Gen(t, e.cond, SINGLE, cs, pos, loop);
    var ac := GenBody(t, e.consequent, want, cc.constants, pos + Size(cc.instrs) + 5, loop);
    var skip := if want.Tail? then 0 else 5;
    var bc := GenBody(t, e.alternate, want, ac.constants, pos + Size(cc.instrs) + 5 + Size(ac.instrs) + skip, loop);
    Code(cc.instrs + [Branch(CONDITIONAL_BRANCH, Size(ac.instrs) + skip)] + ac.instrs
         + (if want.Tail? then [] else [Branch(BRANCH, Size(bc.instrs))]) + bc.instrs, bc.constants)
  }

  function BinaryOp(op: Magic): Byte {
    if op <= 8 then PLUS + op else CHECK_TYPE
  }

  // The assignment itself, after the value.
  function GenStore(t: Tables, id: Id, ref: Ref, want: Want, cs: seq<Constant>): Code {
    var dup := if want == NOTHING then [] else [Op(DUP)];
    var rest := if want.Func? || want == NOTHING then [] else Canonicalize(want);
    if ref.binding.Some? then
      var b := Noted(t, ref.binding.value);
      var p := RefPlace(t, ref.binding.value, ref);
      Code(dup + (if b.home != ref.home || b.closedOver then [PushPlace(p), Op(VALUE_CELL_SET)] else [PopPlace(p)]) + rest, cs)
    else
      var (i, cs') := FindVariable(cs, id);
      Code(dup + [OpArg(POP_VALUE, i)] + rest, cs')
  }

  function GenArgs(t: Tables, args: Exprs, want: Want, cs: seq<Constant>, pos: nat, loop: nat): Code
    decreases args, 1
  {
    match args
    case NoArgs => Code([], cs)
    case Arg(e, rest) =>
      var ec := Gen(t, e, want, cs, pos, loop);
      var rc := GenArgs(t, rest, want, ec.constants, pos + Size(ec.instrs), loop);
      Code(ec.instrs + rc.instrs, rc.constants)
  }

  // A call of values, which makes no call where the number of wanted values is fixed.
  function GenValues(t: Tables, e: Expr, want: Want, cs: seq<Constant>, pos: nat, loop: nat): Code
    requires e.Values?
    decreases e, 0
  {
    var args := e.args;
    if want.Tail? && args.Arg? && args.rest.NoArgs? then
      var ec := Gen(t, args.expr, SINGLE, cs, pos, loop);
      Code(ec.instrs + [Op(RETURN_SINGLE)], ec.constants)
    else if want.Func? then
      if args.NoArgs? then Code([Op(PUSH_FALSE), Op(CHECK_TYPE_FUNCTION)], cs)
      else
        var ec := Gen(t, args.expr, Func, cs, pos, loop);
        var rc := GenArgs(t, args.rest, NOTHING, ec.constants, pos + Size(ec.instrs), loop);
        Code(ec.instrs + rc.instrs, rc.constants)
    else if want.Count? && !want.rest then GenFixed(t, args, want.required, cs, pos, loop)
    else
      var fc := Gen(t, e.values, Func, cs, pos, loop);
      var ac := GenArgs(t, args, SINGLE, fc.constants, pos + Size(fc.instrs), loop);
      Code(fc.instrs + ac.instrs + CallCode(ArgCount(args), want), ac.constants)
  }

  // The first n arguments for their values, the others for nothing; #f for missing ones.
  function GenFixed(t: Tables, args: Exprs, n: nat, cs: seq<Constant>, pos: nat, loop: nat): Code
    decreases args, 1
  {
    match args
    case NoArgs => Code(seq(n, _ => Op(PUSH_FALSE)), cs)
    case Arg(e, rest) =>
      var ec := Gen(t, e, if n > 0 then SINGLE else NOTHING, cs, pos, loop);
      var rc := GenFixed(t, rest, if n > 0 then n - 1 else 0, ec.constants, pos + Size(ec.instrs), loop);
      Code(ec.instrs + rc.instrs, rc.constants)
  }

  // Pushes the slots that a method takes with it; the variable closed over last comes first.
  function PushTaken(t: Tables, closes: seq<Over>): seq<Instr> {
    seq(|closes|, i requires 0 <= i < |closes| =>
      PushPlace(OverPlace(t, closes[|closes| - 1 - i])))
  }

  function GenMethodRef(t: Tables, mm: Method, want: Want, cs: seq<Constant>, pos: nat, loop: nat): Code
    decreases mm, 1
  {
    var taken := PushTaken(t, Closes(t, mm.id));
    var before := taken + [OpArg(PUSH_CONSTANT, |cs|)];
    var sc := Gen(t, mm.specializers, SINGLE, cs + [MethodConst(mm)], pos + Size(before), loop);
    Code(before + sc.instrs + [Op(PUSH_NIL), Op(PUSH_TRUE), MakeMethod(|Closes(t, mm.id)|)] + Canonicalize(want), sc.constants)
  }

  function GenBody(t: Tables, b: Body, want: Want, cs: seq<Constant>, pos: nat, loop: nat): Code
    decreases b, 1
  {
    match b
    case Last(e) => Gen(t, e, want, cs, pos, loop)
    case Then(e, rest) =>
      var ec := Gen(t, e, NOTHING, cs, pos, loop);
      var rc := GenBody(t, rest, want, ec.constants, pos + Size(ec.instrs), loop);
      Code(ec.instrs + rc.instrs, rc.constants)
    case Let(vars, restVar, init, first, _, body) =>
      var ic := Gen(t, init, Count(|vars|, restVar.Some?), cs, pos, loop);
      var pops := GenPops(t, first, |LetVars(vars, restVar)|);
      var bc := GenBody(t, body, want, ic.constants, pos + Size(ic.instrs) + Size(pops), loop);
      Code(ic.instrs + pops + bc.instrs, bc.constants)
    case Local(ms, first, _, body) =>
      var cells := GenCells(t, first, |Names(ms)|);
      var mc := GenMethods(t, ms, first, cs, pos + Size(cells), loop);
      var bc := GenBody(t, body, want, mc.constants, pos + Size(cells) + Size(mc.instrs), loop);
      Code(cells + mc.instrs + bc.instrs, bc.constants)
  }

  // Pops n values into the slots of new variables, the last one first.
  function GenPops(t: Tables, first: nat, n: nat): seq<Instr> {
    if n == 0 then []
    else
      var b := first + n - 1;
      (if Noted(t, b).Boxed() then [Op(MAKE_VALUE_CELL)] else []) + [PopPlace(HomePlace(t, b))]
      + GenPops(t, first, n - 1)
  }

  // Makes the value cells of local methods that are closed over.
  function GenCells(t: Tables, first: nat, n: nat): seq<Instr> {
    if n == 0 then []
    else
      var b := first + n - 1;
      GenCells(t, first, n - 1)
      + (if Noted(t, b).closedOver then [Op(PUSH_FALSE), Op(MAKE_VALUE_CELL), PopPlace(HomePlace(t, b))] else [])
  }

  function GenMethods(t: Tables, ms: Methods, b: nat, cs: seq<Constant>, pos: nat, loop: nat): Code
    decreases ms, 1
  {
    match ms
    case NoMethods => Code([], cs)
    case AMethod(mm, rest) =>
      var mc := GenMethodRef(t, mm, SINGLE, cs, pos, loop);
      var p := HomePlace(t, b);
      var store := if Noted(t, b).closedOver then [PushPlace(p), Op(VALUE_CELL_SET)] else [PopPlace(p)];
      var rc := GenMethods(t, rest, b + 1, mc.constants, pos + Size(mc.instrs) + Size(store), loop);
      Code(mc.instrs + store + rc.instrs, rc.constants)
  }

  // Puts the parameters that need it in value cells, the last one first.
  function GenBoxes(t: Tables, first: nat, n: nat): seq<Instr> {
    if n == 0 then []
    else
      var b := first + n - 1;
      var p := HomePlace(t, b);
      (if Noted(t, b).Boxed() then [PushPlace(p), Op(MAKE_VALUE_CELL), PopPlace(p)] else []) + GenBoxes(t, first, n - 1)
  }

  /** The component of a method. */
  function GenMethod(t: Tables, mm: Method): Code {
    var boxes := GenBoxes(t, FirstParam(t, mm.id), |mm.Bound()|);
    var bc := GenBody(t, mm.body, Tail, [], Size(boxes), 0);
    Code(boxes + bc.instrs, bc.constants)
  }
}
