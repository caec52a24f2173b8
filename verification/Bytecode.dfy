/**
 The instruction encoding, and the two decoders: the one of the disassembler and the one of
 the interpreter.
 */
module Bytecode {

  type Byte = x: int | 0 <= x < 0x100

  // A C int.
  type Int32 = x: int | -0x8000_0000 <= x < 0x8000_0000

  // A count or an index that fits a C int.
  type Operand = x: int | 0 <= x < 0x8000_0000

  const RETURN_SINGLE: Byte := 2
  const MAKE_VALUE_CELL: Byte := 3
  const VALUE_CELL_REF: Byte := 4
  const VALUE_CELL_SET: Byte := 5
  const MAKE_METHOD: Byte := 6
  const CHECK_TYPE: Byte := 7
  const CHECK_TYPE_FUNCTION: Byte := 8
  const CANONICALIZE_VALUE: Byte := 9
  const PUSH_BYTE: Byte := 10
  const PUSH_INT: Byte := 11
  const CONDITIONAL_BRANCH: Byte := 12
  const BRANCH: Byte := 13
  const PUSH_NIL: Byte := 14
  const PUSH_UNBOUND: Byte := 15
  const PUSH_TRUE: Byte := 16
  const PUSH_FALSE: Byte := 17
  const DUP: Byte := 18
  const DOT_TAIL: Byte := 19
  const DOT_FOR_MANY: Byte := 20
  const DOT_FOR_SINGLE: Byte := 21
  const PUSH_CONSTANT: Byte := 0x20
  const PUSH_ARG: Byte := 0x30
  const POP_ARG: Byte := 0x40
  const PUSH_LOCAL: Byte := 0x50
  const POP_LOCAL: Byte := 0x60
  const CALL_TAIL: Byte := 0x70
  const CALL_FOR_MANY: Byte := 0x80
  const CALL_FOR_SINGLE: Byte := 0x90
  const PUSH_VALUE: Byte := 0xa0
  const PUSH_FUNCTION: Byte := 0xb0
  const POP_VALUE: Byte := 0xc0
  const PLUS: Byte := 0xf0
  const GT: Byte := 0xf8

  predicate IsOperand(n: int) {
    0 <= n < 0x8000_0000
  }

  predicate IsInt32(n: int) {
    -0x8000_0000 <= n < 0x8000_0000
  }

  datatype Instr =
    | Op(op: Byte)                              // no operand
    | MakeMethod(taken: nat)                    // the number of slots it takes is not in the code
    | OpArg(op: Byte, arg: nat)                 // an operand, in the opcode if it is small
    | CallForSingle(nargs: nat)
    | CallForMany(nargs: nat, want: nat)
    | OpWants(op: Byte, want: nat)              // how many values are wanted
    | PushByte(value: int)
    | PushInt(number: int)
    | Branch(op: Byte, disp: int)
  {
    // The opcodes of each kind; operands are C ints.
    predicate Valid() {
      match this
      case Op(op) =>
        || op in {RETURN_SINGLE, MAKE_VALUE_CELL, VALUE_CELL_REF, VALUE_CELL_SET, CHECK_TYPE,
                  CHECK_TYPE_FUNCTION, PUSH_NIL, PUSH_UNBOUND, PUSH_TRUE, PUSH_FALSE, DUP, DOT_TAIL, DOT_FOR_SINGLE}
        || PLUS <= op <= GT
      case MakeMethod(_) => true
      case OpArg(op, arg) =>
        && op in {PUSH_CONSTANT, PUSH_ARG, POP_ARG, PUSH_LOCAL, POP_LOCAL, CALL_TAIL, PUSH_VALUE, PUSH_FUNCTION, POP_VALUE}
        && IsOperand(arg)
      case CallForSingle(nargs) => IsOperand(nargs)
      case CallForMany(nargs, want) => IsOperand(nargs) && IsOperand(want)
      case OpWants(op, want) => op in {CANONICALIZE_VALUE, DOT_FOR_MANY} && IsOperand(want)
      case PushByte(n) => -128 < n < 128
      case PushInt(n) => IsInt32(n)
      case Branch(op, disp) => op in {BRANCH, CONDITIONAL_BRANCH} && IsInt32(disp)
    }
  }

  // The bits of an int as an unsigned number.
  function Unsigned(n: Int32): (u: nat)
    ensures u < 0x1_0000_0000
  {
    if n < 0 then n + 0x1_0000_0000 else n
  }

  function FourBytes(u: nat): (r: seq<Byte>)
    requires u < 0x1_0000_0000
    ensures |r| == 4
  {
    [u % 0x100, (u / 0x100) % 0x100, (u / 0x1_0000) % 0x100, u / 0x100_0000]
  }

  function Wide(arg: Operand): seq<Byte> {
    if arg < 0xff then [arg] else [0xff] + FourBytes(arg)
  }

  function OpAndArg(op: Byte, arg: Operand): seq<Byte>
    requires op % 16 == 0
  {
    if arg < 0xf then [op + arg] else [op + 0xf] + Wide(arg)
  }

  // A call with a long operand repeats its opcode, where the return looks for it.
  function CallOpAndArg(op: Byte, arg: Operand): seq<Byte>
    requires op % 16 == 0
  {
    OpAndArg(op, arg) + (if arg < 0xf then [] else [op])
  }

  /** The bytes of an instruction. */
  function Encode(i: Instr): (r: seq<Byte>)
    requires i.Valid()
    ensures |r| > 0
  {
    match i
    case Op(op) => [op]
    case MakeMethod(_) => [MAKE_METHOD]
    case OpArg(op, arg) => OpAndArg(op, arg)
    case CallForSingle(nargs) => CallOpAndArg(CALL_FOR_SINGLE, nargs)
    case CallForMany(nargs, want) => CallOpAndArg(CALL_FOR_MANY, nargs) + Wide(want)
    case OpWants(op, want) => [op] + Wide(want)
    case PushByte(n) => [PUSH_BYTE, n % 0x100]
    case PushInt(n) => [PUSH_INT] + FourBytes(Unsigned(n))
    case Branch(op, disp) => [op] + FourBytes(Unsigned(disp))
  }

  function At(code: seq<Byte>, i: int): Byte {
    if 0 <= i < |code| then code[i] else 0
  }

  // disassem_int4 and decode_int4
  function Int4(code: seq<Byte>, i: int): Int32 {
    var u := At(code, i) + At(code, i + 1) * 0x100 + At(code, i + 2) * 0x1_0000 + At(code, i + 3) * 0x100_0000;
    if u < 0x8000_0000 then u else u - 0x1_0000_0000
  }

  // The bytes at a place of the code.
  ghost predicate Holds(code: seq<Byte>, at: nat, bytes: seq<Byte>) {
    at + |bytes| <= |code| && code[at..at + |bytes|] == bytes
  }

  lemma {:induction false} HoldsParts(code: seq<Byte>, at: nat, a: seq<Byte>, b: seq<Byte>)
    ensures Holds(code, at, a + b) <==> Holds(code, at, a) && Holds(code, at + |a|, b)
  {
    if Holds(code, at, a + b) {
      assert code[at..at + |a|] == (a + b)[..|a|];
      assert code[at + |a|..at + |a| + |b|] == (a + b)[|a|..];
    }
    if Holds(code, at, a) && Holds(code, at + |a|, b) {
      assert code[at..at + |a + b|] == code[at..at + |a|] + code[at + |a|..at + |a| + |b|];
    }
  }

  lemma HoldsAt(code: seq<Byte>, at: nat, bytes: seq<Byte>)
    requires Holds(code, at, bytes)
    ensures forall j :: 0 <= j < |bytes| ==> At(code, at + j) == bytes[j]
  {
    forall j | 0 <= j < |bytes| ensures At(code, at + j) == bytes[j] {
      assert code[at..at + |bytes|][j] == code[at + j];
    }
  }

  /** The four bytes of a number read back as the number. */
  lemma FourBytesRead(code: seq<Byte>, at: nat, n: Int32)
    requires Holds(code, at, FourBytes(Unsigned(n)))
    ensures Int4(code, at) == n
  {
    var u := Unsigned(n);
    HoldsAt(code, at, FourBytes(u));
    var b := FourBytes(u);
    assert At(code, at) == b[0] && At(code, at + 1) == b[1] && At(code, at + 2) == b[2] && At(code, at + 3) == b[3];
    FourDigits(u);
  }

  lemma FourDigits(u: nat)
    requires u < 0x1_0000_0000
    ensures u == u % 0x100 + (u / 0x100) % 0x100 * 0x100 + (u / 0x1_0000) % 0x100 * 0x1_0000 + u / 0x100_0000 * 0x100_0000
  {
  }

  // A byte, or a long operand after 0xff.
  function ReadWide(code: seq<Byte>, i: int): (r: (int, int)) {
    if At(code, i) == 0xff then (Int4(code, i + 1), i + 5) else (At(code, i), i + 1)
  }

  lemma WideRead(code: seq<Byte>, at: nat, arg: Operand)
    requires Holds(code, at, Wide(arg))
    ensures ReadWide(code, at) == (arg, at + |Wide(arg)|)
  {
    HoldsAt(code, at, Wide(arg));
    assert At(code, at + 0) == Wide(arg)[0];
    if arg >= 0xff {
      HoldsParts(code, at, [0xff], FourBytes(arg));
      FourBytesRead(code, at + 1, arg);
    }
  }

  // The operand in the opcode, or after it.
  function ReadArg(code: seq<Byte>, op: Byte, i: int): (r: (int, int)) {
    if op % 16 == 0xf then ReadWide(code, i) else (op % 16, i)
  }

  lemma ArgRead(code: seq<Byte>, at: nat, op: Byte, arg: Operand)
    requires op % 16 == 0 && Holds(code, at, OpAndArg(op, arg))
    ensures At(code, at) == op + (if arg < 0xf then arg else 0xf)
    ensures ReadArg(code, At(code, at), at + 1) == (arg, at + |OpAndArg(op, arg)|)
  {
    HoldsAt(code, at, OpAndArg(op, arg));
    assert At(code, at + 0) == OpAndArg(op, arg)[0];
    if arg >= 0xf {
      HoldsParts(code, at, [op + 0xf], Wide(arg));
      WideRead(code, at + 1, arg);
    }
  }

  // What the format of an instruction shows.
  datatype Field = ArgField | ByteField | IntField | NargsField | WantsField | TargetField

  datatype OpInfo = OpInfo(op: Byte, wide: bool, fields: seq<Field>)

  // The table of the disassembler; wide entries match sixteen opcodes.
  const OP_INFOS: seq<OpInfo> := [
    OpInfo(0, false, []), OpInfo(1, false, []),
    OpInfo(RETURN_SINGLE, false, []), OpInfo(MAKE_VALUE_CELL, false, []),
    OpInfo(VALUE_CELL_REF, false, []), OpInfo(VALUE_CELL_SET, false, []),
    OpInfo(MAKE_METHOD, false, []), OpInfo(CHECK_TYPE, false, []), OpInfo(CHECK_TYPE_FUNCTION, false, []),
    OpInfo(CANONICALIZE_VALUE, false, [WantsField]),
    OpInfo(PUSH_BYTE, false, [ByteField]), OpInfo(PUSH_INT, false, [IntField]),
    OpInfo(CONDITIONAL_BRANCH, false, [TargetField]), OpInfo(BRANCH, false, [TargetField]),
    OpInfo(PUSH_NIL, false, []), OpInfo(PUSH_UNBOUND, false, []),
    OpInfo(PUSH_TRUE, false, []), OpInfo(PUSH_FALSE, false, []), OpInfo(DUP, false, []),
    OpInfo(DOT_TAIL, false, []), OpInfo(DOT_FOR_MANY, false, [WantsField]), OpInfo(DOT_FOR_SINGLE, false, []),
    OpInfo(PUSH_CONSTANT, true, [ArgField]), OpInfo(PUSH_ARG, true, [ArgField]),
    OpInfo(POP_ARG, true, [ArgField]), OpInfo(PUSH_LOCAL, true, [ArgField]),
    OpInfo(POP_LOCAL, true, [ArgField]), OpInfo(CALL_TAIL, true, [ArgField]),
    OpInfo(CALL_FOR_MANY, true, [NargsField, WantsField]), OpInfo(CALL_FOR_SINGLE, true, [NargsField]),
    OpInfo(PUSH_VALUE, true, [ArgField]), OpInfo(PUSH_FUNCTION, true, [ArgField]),
    OpInfo(POP_VALUE, true, [ArgField]),
    OpInfo(0xf0, false, []), OpInfo(0xf1, false, []), OpInfo(0xf2, false, []), OpInfo(0xf3, false, []),
    OpInfo(0xf4, false, []), OpInfo(0xf5, false, []), OpInfo(0xf6, false, []), OpInfo(0xf7, false, []),
    OpInfo(0xf8, false, [])]

  predicate Matches(info: OpInfo, byte: Byte) {
    if info.wide then byte - byte % 16 == info.op else byte == info.op
  }

  // The first entry that matches; an unknown opcode has none.
  function FindInfo(infos: seq<OpInfo>, byte: Byte): OpInfo {
    if infos == [] then OpInfo(byte, false, [])
    else if Matches(infos[0], byte) then infos[0]
    else FindInfo(infos[1..], byte)
  }

  // One line of the disassembly: the opcode, and the operands.
  datatype Line = Line(op: Byte, operands: seq<int>)

  // Reading one field at p: the operand, the place after it, and whether the opcode follows again.
  function ReadField(code: seq<Byte>, byte: Byte, f: Field, p: int): (int, int) {
    match f
    case ArgField => ReadArg(code, byte, p)
    case NargsField => ReadArg(code, byte, p)
    case ByteField => (if At(code, p) < 0x80 then At(code, p) else At(code, p) - 0x100, p + 1)
    case IntField => (Int4(code, p), p + 4)
    case WantsField => ReadWide(code, p)
    case TargetField => (p + 4 + Int4(code, p), p + 4)
  }

  function ReadFields(code: seq<Byte>, byte: Byte, fields: seq<Field>, p: int): (seq<int>, int) {
    if fields == [] then ([], p)
    else
      var (operand, q) := ReadField(code, byte, fields[0], p);
      var (rest, r) := ReadFields(code, byte, fields[1..], q);
      ([operand] + rest, r)
  }

  // A call with a long operand has one more byte.
  predicate Extra(byte: Byte, fields: seq<Field>) {
    NargsField in fields && byte % 16 == 0xf
  }

  /** The disassembler at a place: the line it prints, and the place it goes on from. */
  function Disassembled(code: seq<Byte>, start: nat): (Line, int) {
    var byte := At(code, start);
    var info := FindInfo(OP_INFOS, byte);
    var (operands, p) := ReadFields(code, byte, info.fields, start + 1);
    (Line(info.op, operands), if Extra(byte, info.fields) then p + 1 else p)
  }

  method DisassembleOp(code: seq<Byte>, start: nat) returns (line: Line, next: int)
    ensures (line, next) == Disassembled(code, start)
  {
    hide ReadField, FindInfo, At, OP_INFOS;
    var p: int := start;
    var byte := At(code, p);
    p := p + 1;
    var info := LookUp(byte);
    var extra := false;
    var operands := [];
    var k := 0;
    while k < |info.fields|
      invariant k <= |info.fields|
      invariant extra <==> Extra(byte, info.fields[..k])
      invariant ReadFields(code, byte, info.fields, start + 1).0 == operands + ReadFields(code, byte, info.fields[k..], p).0
      invariant ReadFields(code, byte, info.fields, start + 1).1 == ReadFields(code, byte, info.fields[k..], p).1
    {
      assert info.fields[k..][1..] == info.fields[k + 1..];
      assert info.fields[..k + 1] == info.fields[..k] + [info.fields[k]];
      if info.fields[k] == NargsField && byte % 16 == 0xf {
        extra := true;
      }
      var (operand, q) := ReadField(code, byte, info.fields[k], p);
      operands := operands + [operand];
      p := q;
      k := k + 1;
    }
    assert info.fields[..k] == info.fields && info.fields[k..] == [];
    assert operands + [] == operands;
    if extra {
      p := p + 1;
    }
    return Line(info.op, operands), p;
  }

  method LookUp(byte: Byte) returns (info: OpInfo)
    ensures info == FindInfo(OP_INFOS, byte)
  {
    var i := 0;
    while i < |OP_INFOS|
      invariant i <= |OP_INFOS| && FindInfo(OP_INFOS, byte) == FindInfo(OP_INFOS[i..], byte)
    {
      if Matches(OP_INFOS[i], byte) {
        return OP_INFOS[i];
      }
      assert OP_INFOS[i..][1..] == OP_INFOS[i + 1..];
      i := i + 1;
    }
    return OpInfo(byte, false, []);
  }

  /** The line that an instruction at a place should give. */
  function Shown(i: Instr, at: nat): Line
    requires i.Valid()
  {
    match i
    case Op(op) => Line(op, [])
    case MakeMethod(_) => Line(MAKE_METHOD, [])
    case OpArg(op, arg) => Line(op, [arg])
    case CallForSingle(nargs) => Line(CALL_FOR_SINGLE, [nargs])
    case CallForMany(nargs, want) => Line(CALL_FOR_MANY, [nargs, want])
    case OpWants(op, want) => Line(op, [want])
    case PushByte(n) => Line(PUSH_BYTE, [n])
    case PushInt(n) => Line(PUSH_INT, [n])
    case Branch(op, disp) => Line(op, [at + 5 + disp])
  }

  // Where in the table the entry of an opcode is.
  function TableIndex(byte: Byte): int {
    if byte < 22 then byte else if byte < 0xd0 then 20 + byte / 16 else 33 + byte - 0xf0
  }

  predicate Known(byte: Byte) {
    byte < 22 || 0x20 <= byte < 0xd0 || PLUS <= byte <= GT
  }

  lemma TableEntry(byte: Byte, k: nat)
    requires Known(byte) && k < |OP_INFOS|
    ensures Matches(OP_INFOS[k], byte) <==> k == TableIndex(byte)
  {
    if k < 22 {
      assert OP_INFOS[k].op == k && !OP_INFOS[k].wide;
    } else if k < 33 {
      assert OP_INFOS[k].op == 16 * (k - 20) && OP_INFOS[k].wide;
    } else {
      assert OP_INFOS[k].op == 0xf0 + k - 33 && !OP_INFOS[k].wide;
    }
  }

  lemma {:induction false} FindFirst(infos: seq<OpInfo>, byte: Byte, k: nat)
    requires k < |infos| && Matches(infos[k], byte) && forall j :: 0 <= j < k ==> !Matches(infos[j], byte)
    ensures FindInfo(infos, byte) == infos[k]
  {
    if k > 0 {
      assert !Matches(infos[0], byte);
      forall j | 0 <= j < k - 1 ensures !Matches(infos[1..][j], byte) {
        assert infos[1..][j] == infos[j + 1];
      }
      FindFirst(infos[1..], byte, k - 1);
    }
  }

  lemma FindEntry(byte: Byte)
    requires Known(byte)
    ensures 0 <= TableIndex(byte) < |OP_INFOS| && FindInfo(OP_INFOS, byte) == OP_INFOS[TableIndex(byte)]
  {
    hide Matches, TableIndex;
    var k := TableIndex(byte);
    IndexInTable(byte);
    TableEntry(byte, k);
    forall j | 0 <= j < k ensures !Matches(OP_INFOS[j], byte) {
      TableEntry(byte, j);
    }
    FindFirst(OP_INFOS, byte, k);
  }

  lemma IndexInTable(byte: Byte)
    requires Known(byte)
    ensures 0 <= TableIndex(byte) < |OP_INFOS|
  {
    assert |OP_INFOS| == 42;
  }

  lemma OpEntry(op: Byte)
    requires Op(op).Valid() || op == MAKE_METHOD
    ensures FindInfo(OP_INFOS, op) == OpInfo(op, false, [])
  {
    hide FindInfo, OP_INFOS;
    FindEntry(op);
    if op < 22 { SmallEntry(op); } else { LargeEntry(op); }
  }

  lemma SmallEntry(op: Byte)
    requires op < 22 && (Op(op).Valid() || op == MAKE_METHOD)
    ensures op < |OP_INFOS| && OP_INFOS[op] == OpInfo(op, false, [])
  {
  }

  lemma LargeEntry(op: Byte)
    requires PLUS <= op <= GT
    ensures 33 + op - 0xf0 < |OP_INFOS| && OP_INFOS[33 + op - 0xf0] == OpInfo(op, false, [])
  {
  }

  lemma OperandEntries(op: Byte)
    requires op in {CANONICALIZE_VALUE, DOT_FOR_MANY, BRANCH, CONDITIONAL_BRANCH, PUSH_BYTE, PUSH_INT}
    ensures FindInfo(OP_INFOS, op) ==
              OpInfo(op, false, [if op in {CANONICALIZE_VALUE, DOT_FOR_MANY} then WantsField
                                 else if op in {BRANCH, CONDITIONAL_BRANCH} then TargetField
                                 else if op == PUSH_BYTE then ByteField else IntField])
  {
    hide FindInfo;
    FindEntry(op);
  }

  lemma WideEntries(op: Byte, low: nat)
    requires low < 16 && 0x20 <= op < 0xd0 && op % 16 == 0
    ensures FindInfo(OP_INFOS, op + low) ==
              OpInfo(op, true, if op == CALL_FOR_MANY then [NargsField, WantsField]
                               else if op == CALL_FOR_SINGLE then [NargsField] else [ArgField])
  {
    hide FindInfo;
    FindEntry(op + low);
    assert TableIndex(op + low) == 20 + op / 16;
  }

  lemma ReadOne(code: seq<Byte>, byte: Byte, f: Field, p: int)
    ensures ReadFields(code, byte, [f], p) == ([ReadField(code, byte, f, p).0], ReadField(code, byte, f, p).1)
  {
    var (operand, q) := ReadField(code, byte, f, p);
    assert [f][1..] == [] && ReadFields(code, byte, [], q) == ([], q);
    assert [operand] + [] == [operand];
  }

  // The instructions that the disassembler shows wrongly: it looks for the number of wanted
  // values in the byte that repeats the opcode. It is right only if that number is the opcode.
  predicate Misread(i: Instr) {
    i.CallForMany? && i.nargs >= 0xf && i.want != CALL_FOR_MANY
  }

  /** The disassembler shows an instruction as it was emitted exactly if it is not a long call
      for many values. */
  lemma DisassemblesExactly(code: seq<Byte>, at: nat, i: Instr)
    requires i.Valid() && Holds(code, at, Encode(i))
    ensures Disassembled(code, at) == (Shown(i, at), at + |Encode(i)|) <==> !Misread(i)
  {
    hide FindInfo, ReadWide, Matches, Holds, Int4, Disassembled, Wide, OpAndArg, FourBytes;
    match i
    case Op(op) => OpDecoded(code, at, op);
    case MakeMethod(_) => OpDecoded(code, at, MAKE_METHOD);
    case OpArg(op, arg) => ArgDecoded(code, at, op, arg);
    case CallForSingle(nargs) => CallForSingleDecoded(code, at, nargs);
    case CallForMany(nargs, want) => CallForManyDecoded(code, at, nargs, want);
    case OpWants(op, want) => WantsDecoded(code, at, op, want);
    case PushByte(n) => NumberDecoded(code, at, i);
    case PushInt(n) => NumberDecoded(code, at, i);
    case Branch(op, disp) => BranchDecoded(code, at, op, disp);
  }

  // For example, a call with fifteen arguments for one value and the rest of them.
  lemma LongCallMisread()
    ensures var code := Encode(CallForMany(15, 3));
            Disassembled(code, 0) != (Shown(CallForMany(15, 3), 0), |code|)
  {
    var code := Encode(CallForMany(15, 3));
    assert code[0..0 + |code|] == code;
    DisassemblesExactly(code, 0, CallForMany(15, 3));
  }

  lemma OpDecoded(code: seq<Byte>, at: nat, op: Byte)
    requires (Op(op).Valid() || op == MAKE_METHOD) && Holds(code, at, [op])
    ensures Disassembled(code, at) == (Line(op, []), at + 1)
  {
    HoldsAt(code, at, [op]);
    assert At(code, at + 0) == op;
    OpEntry(op);
  }

  lemma ArgDecoded(code: seq<Byte>, at: nat, op: Byte, arg: Operand)
    requires OpArg(op, arg).Valid() && Holds(code, at, OpAndArg(op, arg))
    ensures Disassembled(code, at) == (Line(op, [arg]), at + |OpAndArg(op, arg)|)
  {
    hide FindInfo, ReadArg, Holds;
    ArgRead(code, at, op, arg);
    WideEntries(op, if arg < 0xf then arg else 0xf);
    ReadOne(code, At(code, at), ArgField, at + 1);
  }

  lemma CallForSingleDecoded(code: seq<Byte>, at: nat, nargs: Operand)
    requires Holds(code, at, CallOpAndArg(CALL_FOR_SINGLE, nargs))
    ensures Disassembled(code, at) == (Line(CALL_FOR_SINGLE, [nargs]), at + |CallOpAndArg(CALL_FOR_SINGLE, nargs)|)
  {
    hide FindInfo, ReadArg, Holds;
    var op := CALL_FOR_SINGLE;
    HoldsParts(code, at, OpAndArg(op, nargs), if nargs < 0xf then [] else [op]);
    ArgRead(code, at, op, nargs);
    WideEntries(op, if nargs < 0xf then nargs else 0xf);
    ReadOne(code, At(code, at), NargsField, at + 1);
  }

  lemma CallForManyDecoded(code: seq<Byte>, at: nat, nargs: Operand, want: Operand)
    requires Holds(code, at, Encode(CallForMany(nargs, want)))
    ensures Disassembled(code, at) == (Line(CALL_FOR_MANY, [nargs, want]), at + |Encode(CallForMany(nargs, want))|)
       <==> !(nargs >= 0xf && want != CALL_FOR_MANY)
  {
    hide FindInfo, ReadArg, Holds, ReadWide, Wide, OpAndArg;
    var op := CALL_FOR_MANY;
    var repeated: seq<Byte> := if nargs < 0xf then [] else [op];
    var p := at + |OpAndArg(op, nargs)|;
    assert Encode(CallForMany(nargs, want)) == OpAndArg(op, nargs) + (repeated + Wide(want));
    HoldsParts(code, at, OpAndArg(op, nargs), repeated + Wide(want));
    HoldsParts(code, p, repeated, Wide(want));
    ArgRead(code, at, op, nargs);
    var byte := At(code, at);
    WideEntries(op, if nargs < 0xf then nargs else 0xf);
    assert [NargsField, WantsField][1..] == [WantsField];
    ReadOne(code, byte, WantsField, p);
    if nargs < 0xf {
      WideRead(code, p, want);
      assert [nargs] + [want] == [nargs, want];
    } else {
      WideRead(code, p + 1, want);
      RepeatedRead(code, p);
      assert Disassembled(code, at) == (Line(op, [nargs] + [CALL_FOR_MANY]), p + 2);
      assert ([nargs] + [CALL_FOR_MANY])[1] == CALL_FOR_MANY && [nargs, want][1] == want;
      if want == CALL_FOR_MANY {
        WideOfOpcode();
        assert [nargs] + [CALL_FOR_MANY] == [nargs, want];
      }
    }
  }

  lemma RepeatedRead(code: seq<Byte>, p: nat)
    requires Holds(code, p, [CALL_FOR_MANY])
    ensures ReadWide(code, p) == (CALL_FOR_MANY, p + 1)
  {
    HoldsAt(code, p, [CALL_FOR_MANY]);
    assert At(code, p + 0) == CALL_FOR_MANY;
  }

  lemma WideOfOpcode()
    ensures |Wide(CALL_FOR_MANY)| == 1
  {
  }

  lemma WantsDecoded(code: seq<Byte>, at: nat, op: Byte, want: Operand)
    requires OpWants(op, want).Valid() && Holds(code, at, [op] + Wide(want))
    ensures Disassembled(code, at) == (Line(op, [want]), at + 1 + |Wide(want)|)
  {
    hide FindInfo, ReadWide;
    HoldsParts(code, at, [op], Wide(want));
    HoldsAt(code, at, [op]);
    assert At(code, at + 0) == op;
    WideRead(code, at + 1, want);
    OperandEntries(op);
    ReadOne(code, op, WantsField, at + 1);
  }

  lemma NumberDecoded(code: seq<Byte>, at: nat, i: Instr)
    requires (i.PushByte? || i.PushInt?) && i.Valid() && Holds(code, at, Encode(i))
    ensures Disassembled(code, at) == (Shown(i, at), at + |Encode(i)|)
  {
    hide FindInfo, Int4;
    var bytes := Encode(i);
    HoldsAt(code, at, bytes);
    assert At(code, at + 0) == bytes[0];
    OperandEntries(bytes[0]);
    if i.PushByte? {
      assert At(code, at + 1) == bytes[1];
      ReadOne(code, PUSH_BYTE, ByteField, at + 1);
    } else {
      HoldsParts(code, at, [PUSH_INT], FourBytes(Unsigned(i.number)));
      FourBytesRead(code, at + 1, i.number);
      ReadOne(code, PUSH_INT, IntField, at + 1);
    }
  }

  lemma BranchDecoded(code: seq<Byte>, at: nat, op: Byte, disp: Int32)
    requires Branch(op, disp).Valid() && Holds(code, at, [op] + FourBytes(Unsigned(disp)))
    ensures Disassembled(code, at) == (Line(op, [at + 5 + disp]), at + 5)
  {
    hide FindInfo, Int4;
    HoldsParts(code, at, [op], FourBytes(Unsigned(disp)));
    HoldsAt(code, at, [op]);
    assert At(code, at + 0) == op;
    FourBytesRead(code, at + 1, disp);
    OperandEntries(op);
    ReadOne(code, op, TargetField, at + 1);
  }

  /** The interpreter at a place. A call for many values reads the number of wanted values when
      it returns, after the repeated opcode. */
  function Executed(code: seq<Byte>, pc: nat): (Line, int) {
    var byte := At(code, pc);
    if 0x20 <= byte < 0xd0 then
      var op := byte - byte % 16;
      var (arg, p) := ReadArg(code, byte, pc + 1);
      if op != CALL_FOR_MANY && op != CALL_FOR_SINGLE then (Line(op, [arg]), p)
      else
        var return_ := if byte % 16 == 0xf then p + 1 else p;
        if op == CALL_FOR_SINGLE then (Line(op, [arg]), return_)
        else
          var (want, q) := ReadWide(code, return_);
          (Line(op, [arg, want]), q)
    else if byte == CANONICALIZE_VALUE || byte == DOT_FOR_MANY then
      var (want, q) := ReadWide(code, pc + 1);
      (Line(byte, [want]), q)
    else if byte == PUSH_BYTE then
      (Line(byte, [if At(code, pc + 1) < 0x80 then At(code, pc + 1) else At(code, pc + 1) - 0x100]), pc + 2)
    else if byte == PUSH_INT then (Line(byte, [Int4(code, pc + 1)]), pc + 5)
    else if byte == BRANCH || byte == CONDITIONAL_BRANCH then (Line(byte, [pc + 5 + Int4(code, pc + 1)]), pc + 5)
    else (Line(byte, []), pc + 1)
  }

  /** The interpreter reads every instruction as it was emitted. */
  lemma ExecutesAsEmitted(code: seq<Byte>, at: nat, i: Instr)
    requires i.Valid() && Holds(code, at, Encode(i))
    ensures Executed(code, at) == (Shown(i, at), at + |Encode(i)|)
  {
    hide Holds, ReadWide, Wide, Int4;
    var bytes := Encode(i);
    HoldsAt(code, at, bytes);
    assert At(code, at + 0) == bytes[0];
    match i
    case Op(op) =>
    case MakeMethod(_) =>
    case OpArg(op, arg) => ArgRead(code, at, op, arg);
    case CallForSingle(nargs) =>
      assert bytes + [] == bytes;
      CallExecuted(code, at, CALL_FOR_SINGLE, nargs, 0);
    case CallForMany(nargs, want) => CallExecuted(code, at, CALL_FOR_MANY, nargs, want);
    case OpWants(op, want) =>
      HoldsParts(code, at, [op], Wide(want));
      WideRead(code, at + 1, want);
    case PushByte(n) => assert At(code, at + 1) == bytes[1];
    case PushInt(n) =>
      HoldsParts(code, at, [PUSH_INT], FourBytes(Unsigned(n)));
      FourBytesRead(code, at + 1, n);
    case Branch(op, disp) =>
      HoldsParts(code, at, [op], FourBytes(Unsigned(disp)));
      FourBytesRead(code, at + 1, disp);
  }

  lemma CallExecuted(code: seq<Byte>, at: nat, op: Byte, nargs: Operand, want: Operand)
    requires op in {CALL_FOR_SINGLE, CALL_FOR_MANY}
    requires Holds(code, at, CallOpAndArg(op, nargs) + (if op == CALL_FOR_MANY then Wide(want) else []))
    ensures Executed(code, at) ==
      (Line(op, if op == CALL_FOR_MANY then [nargs, want] else [nargs]),
       at + |CallOpAndArg(op, nargs)| + (if op == CALL_FOR_MANY then |Wide(want)| else 0))
  {
    hide Holds, ReadWide, Wide, OpAndArg;
    var wants := if op == CALL_FOR_MANY then Wide(want) else [];
    HoldsParts(code, at, CallOpAndArg(op, nargs), wants);
    HoldsParts(code, at, OpAndArg(op, nargs), if nargs < 0xf then [] else [op]);
    ArgRead(code, at, op, nargs);
    if op == CALL_FOR_MANY { WideRead(code, at + |CallOpAndArg(op, nargs)|, want); }
  }

  /** When a call returns, the byte before the place it returns to tells what kind of call it was. */
  lemma ReturnFindsCall(code: seq<Byte>, at: nat, op: Byte, nargs: Operand)
    requires op in {CALL_FOR_SINGLE, CALL_FOR_MANY} && Holds(code, at, CallOpAndArg(op, nargs))
    ensures var pc := at + |CallOpAndArg(op, nargs)|;
            At(code, pc - 1) - At(code, pc - 1) % 16 == op
  {
    var bytes := CallOpAndArg(op, nargs);
    HoldsAt(code, at, bytes);
    assert At(code, at + (|bytes| - 1)) == bytes[|bytes| - 1];
  }

  function EncodeAll(l: seq<Instr>): (r: seq<Byte>)
    requires forall i :: i in l ==> i.Valid()
  {
    if l == [] then [] else Encode(l[0]) + EncodeAll(l[1..])
  }

  // The disassembly from a place up to the end.
  function Listing(code: seq<Byte>, start: nat): seq<Line>
    decreases |code| - start
  {
    if start >= |code| then []
    else
      var (line, next) := Disassembled(code, start);
      if next <= start then [line] else [line] + Listing(code, next)
  }

  // The lines that a list of instructions from a place on should give.
  function ShownAll(l: seq<Instr>, at: nat): seq<Line>
    requires forall i :: i in l ==> i.Valid()
  {
    if l == [] then [] else [Shown(l[0], at)] + ShownAll(l[1..], at + |Encode(l[0])|)
  }

  /** Disassembling code gives back the instructions, operands and branch targets it was emitted
      from. */
  lemma {:induction false} DisassemblyRoundTrip(code: seq<Byte>, at: nat, l: seq<Instr>)
    requires forall i :: i in l ==> i.Valid() && !Misread(i)
    requires Holds(code, at, EncodeAll(l)) && at + |EncodeAll(l)| == |code|
    ensures Listing(code, at) == ShownAll(l, at)
    decreases |l|
  {
    hide Disassembled, Shown, Encode, Holds, Misread;
    if l != [] {
      assert l[0] in l;
      HoldsParts(code, at, Encode(l[0]), EncodeAll(l[1..]));
      DisassemblesExactly(code, at, l[0]);
      DisassemblyRoundTrip(code, at + |Encode(l[0])|, l[1..]);
    }
  }
}
