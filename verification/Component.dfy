/**
 The code of a component: a chain of blocks of bytes, to which instructions are appended and in
 which branches are patched.
 */
module Components {
  import opened Bytecode

  // The bytes of a block, without its header.
  const CAPACITY: nat := 4080

  // A place in a block.
  datatype Location = Location(block: nat, offset: nat)

  function Joined(contents: seq<seq<Byte>>): seq<Byte> {
    if contents == [] then [] else Joined(contents[..|contents| - 1]) + contents[|contents| - 1]
  }

  // Where a block starts.
  function StartOf(ends: seq<nat>, block: nat): nat
    requires block <= |ends|
  {
    if block == 0 then 0 else StartOf(ends, block - 1) + ends[block - 1]
  }

  lemma {:induction false} StartOfSame(ends: seq<nat>, ends': seq<nat>, block: nat)
    requires block <= |ends| && block <= |ends'| && forall i :: 0 <= i < block ==> ends[i] == ends'[i]
    ensures StartOf(ends, block) == StartOf(ends', block)
  {
    if block > 0 { StartOfSame(ends, ends', block - 1); }
  }

  lemma {:induction false} JoinedLength(contents: seq<seq<Byte>>, ends: seq<nat>)
    requires |contents| == |ends| && forall i :: 0 <= i < |ends| ==> |contents[i]| == ends[i]
    ensures |Joined(contents)| == StartOf(ends, |ends|)
  {
    var n := |ends|;
    if n > 0 {
      JoinedLength(contents[..n - 1], ends[..n - 1]);
      StartOfSame(ends, ends[..n - 1], n - 1);
    }
  }

  lemma JoinedMore(contents: seq<seq<Byte>>, more: seq<Byte>)
    requires contents != []
    ensures var n := |contents| - 1;
            Joined(contents[n := contents[n] + more]) == Joined(contents) + more
  {
    var n := |contents| - 1;
    var r := contents[n := contents[n] + more];
    assert r[..n] == contents[..n];
    assert Joined(contents[..n]) + (contents[n] + more) == (Joined(contents[..n]) + contents[n]) + more;
  }

  // Overwriting bytes in a block overwrites them in the whole.
  function Overwritten(s: seq<Byte>, at: nat, bytes: seq<Byte>): seq<Byte>
    requires at + |bytes| <= |s|
  {
    s[..at] + bytes + s[at + |bytes|..]
  }

  lemma {:induction false} JoinedOverwritten(contents: seq<seq<Byte>>, ends: seq<nat>, i: nat, at: nat, bytes: seq<Byte>)
    requires |contents| == |ends| && forall i :: 0 <= i < |ends| ==> |contents[i]| == ends[i]
    requires i < |contents| && at + |bytes| <= |contents[i]|
    ensures StartOf(ends, i) + at + |bytes| <= |Joined(contents)|
    ensures Joined(contents[i := Overwritten(contents[i], at, bytes)])
         == Overwritten(Joined(contents), StartOf(ends, i) + at, bytes)
    decreases |contents|
  {
    var n := |contents| - 1;
    var r := contents[i := Overwritten(contents[i], at, bytes)];
    JoinedLength(contents[..n], ends[..n]);
    StartOfSame(ends, ends[..n], i);
    if i < n {
      JoinedOverwritten(contents[..n], ends[..n], i, at, bytes);
      assert r[..n] == contents[..n][i := Overwritten(contents[i], at, bytes)];
      OverwrittenBefore(Joined(contents[..n]), contents[n], StartOf(ends, i) + at, bytes);
    } else {
      assert r[..n] == contents[..n];
      OverwrittenAfter(Joined(contents[..n]), contents[n], at, bytes);
    }
  }

  lemma OverwrittenBefore(a: seq<Byte>, b: seq<Byte>, at: nat, bytes: seq<Byte>)
    requires at + |bytes| <= |a|
    ensures Overwritten(a, at, bytes) + b == Overwritten(a + b, at, bytes)
  {
    assert (a + b)[..at] == a[..at];
    assert (a + b)[at + |bytes|..] == a[at + |bytes|..] + b;
  }

  lemma OverwrittenAfter(a: seq<Byte>, b: seq<Byte>, at: nat, bytes: seq<Byte>)
    requires at + |bytes| <= |b|
    ensures a + Overwritten(b, at, bytes) == Overwritten(a + b, |a| + at, bytes)
  {
    assert (a + b)[..|a| + at] == a + b[..at];
    assert (a + b)[|a| + at + |bytes|..] == b[at + |bytes|..];
  }

  // The later blocks and fills extend the earlier ones.
  ghost predicate Extends(blocks: seq<array<Byte>>, ends: seq<nat>, blocks': seq<array<Byte>>, ends': seq<nat>) {
    && |blocks| == |ends| <= |blocks'| == |ends'|
    && blocks'[..|blocks|] == blocks
    && (forall i :: 0 <= i < |ends| - 1 ==> ends'[i] == ends[i])
    && (ends != [] ==> ends'[|ends| - 1] >= ends[|ends| - 1])
  }

  lemma ExtendsTransitive(b: seq<array<Byte>>, e: seq<nat>, b': seq<array<Byte>>, e': seq<nat>,
                          b'': seq<array<Byte>>, e'': seq<nat>)
    requires Extends(b, e, b', e') && Extends(b', e', b'', e'')
    ensures Extends(b, e, b'', e'')
  {
    assert b == b'[..|b|] == b''[..|b'|][..|b|] == b''[..|b|];
  }

  ghost predicate Placed(ends: seq<nat>, where: Location, position: nat, count: nat) {
    && where.block < |ends|
    && where.offset + count <= ends[where.block]
    && StartOf(ends, where.block) + where.offset == position
  }

  class Component {
    var blocks: seq<array<Byte>>     // the last one is being filled
    var ends: seq<nat>               // how far each block is filled
    var bytes: nat                   // the bytes of the blocks before the last one
    ghost var repr: set<array<Byte>>

    ghost predicate Valid()
      reads this
    {
      && |blocks| == |ends|
      && (forall i :: 0 <= i < |blocks| ==> blocks[i] in repr && blocks[i].Length == CAPACITY && ends[i] <= CAPACITY)
      && (forall i, j :: 0 <= i < j < |blocks| ==> blocks[i] != blocks[j])
      && bytes == if |ends| == 0 then 0 else StartOf(ends, |ends| - 1)
    }

    ghost function Contents(): seq<seq<Byte>>
      requires Valid()
      reads this, repr
    {
      seq(|blocks|, i requires 0 <= i < |blocks| && Valid() reads this, repr => blocks[i][..ends[i]])
    }

    /** The code so far. */
    ghost function Bytes(): seq<Byte>
      requires Valid()
      reads this, repr
    {
      Joined(Contents())
    }

    constructor ()
      ensures Valid() && Bytes() == [] && fresh(repr)
    {
      blocks, ends, bytes, repr := [], [], 0, {};
    }

    // What appending does not disturb: the blocks and what is in them.
    twostate predicate Grows()
      reads this
    {
      && Valid()
      && Extends(old(blocks), old(ends), blocks, ends)
      && fresh(repr - old(repr))
    }

    method CurrentPosition() returns (p: nat)
      requires Valid()
      ensures p == |Bytes()|
    {
      JoinedLength(Contents(), ends);
      if |blocks| > 0 {
        p := bytes + ends[|ends| - 1];
      } else {
        p := 0;
      }
    }

    method GrowComponent()
      requires Valid()
      modifies this
      ensures Grows() && Bytes() == old(Bytes()) && |blocks| == old(|blocks|) + 1 && ends == old(ends) + [0]
    {
      ghost var contents := Contents();
      var block := new Byte[CAPACITY];
      if |blocks| > 0 {
        bytes := bytes + ends[|ends| - 1];
      }
      blocks, ends, repr := blocks + [block], ends + [0], repr + {block};
      StartOfSame(old(ends), ends, |old(ends)|);
      if |old(ends)| > 0 { StartOfSame(old(ends), ends, |old(ends)| - 1); }
      assert Contents() == contents + [[]];
      assert Contents()[..|contents|] == contents;
    }

    method EmitByte(op: Byte)
      requires Valid()
      modifies this, repr
      ensures Grows() && Bytes() == old(Bytes()) + [op]
    {
      if |blocks| == 0 || ends[|ends| - 1] == CAPACITY {
        GrowComponent();
      }
      StoreByte(op);
    }

    // Stores a byte in the current block, which has room for it.
    method StoreByte(op: Byte)
      requires Valid() && |blocks| > 0 && ends[|ends| - 1] < CAPACITY
      modifies this, blocks[|blocks| - 1]
      ensures Grows() && blocks == old(blocks) && Bytes() == old(Bytes()) + [op]
    {
      hide Joined, StartOf;
      ghost var contents := Contents();
      var n := |blocks| - 1;
      var block := blocks[n];
      block[ends[n]] := op;
      ends := ends[n := ends[n] + 1];
      StartOfSame(old(ends), ends, n);
      JoinedMore(contents, [op]);
      ghost var contents' := Contents();
      forall i | 0 <= i < |contents| ensures contents'[i] == if i == n then contents[n] + [op] else contents[i] {
        assert blocks[i] == blocks[n] <==> i == n;
      }
      assert contents' == contents[n := contents[n] + [op]];
    }

    // Leaves room for bytes that are written later, in one block.
    method ReserveSpace(count: nat) returns (where: Location)
      requires Valid() && count <= CAPACITY
      modifies this
      ensures Grows() && |Bytes()| == |old(Bytes())| + count && Bytes()[..|old(Bytes())|] == old(Bytes())
      ensures At(where, |old(Bytes())|, count)
    {
      if |blocks| == 0 || ends[|ends| - 1] + count > CAPACITY {
        GrowComponent();
      }
      where := Skip(count);
    }

    method Skip(count: nat) returns (where: Location)
      requires Valid() && |blocks| > 0 && ends[|ends| - 1] + count <= CAPACITY
      modifies this
      ensures Grows() && blocks == old(blocks)
      ensures |Bytes()| == |old(Bytes())| + count && Bytes()[..|old(Bytes())|] == old(Bytes())
      ensures At(where, |old(Bytes())|, count)
    {
      ghost var contents := Contents();
      var n := |blocks| - 1;
      where := Location(n, ends[n]);
      ends := ends[n := ends[n] + count];
      StartOfSame(old(ends), ends, n);
      ghost var room := blocks[n][old(ends)[n]..ends[n]];
      JoinedMore(contents, room);
      ghost var contents' := Contents();
      assert contents'[n] == contents[n] + room;
      assert contents' == contents[n := contents[n] + room];
      JoinedLength(contents, old(ends));
    }

    // The location is that of the bytes from a position on.
    ghost predicate At(where: Location, position: nat, count: nat)
      reads this
    {
      |blocks| == |ends| && Placed(ends, where, position, count)
    }

    // Fills the room left for a branch.
    method WriteBranchDisplacement(where: Location, here: nat, there: nat, ghost position: nat)
      requires Valid() && At(where, position, 4)
      requires -0x8000_0000 <= there - here < 0x8000_0000
      modifies repr
      ensures Valid() && blocks == old(blocks) && ends == old(ends) && repr == old(repr)
      ensures position + 4 <= |old(Bytes())|
      ensures Bytes() == Overwritten(old(Bytes()), position, FourBytes(Unsigned(there - here)))
    {
      hide Joined, StartOf, FourBytes;
      ghost var contents := Contents();
      var disp: Int32 := there - here;
      var bytes4 := FourBytes(Unsigned(disp));
      var block := blocks[where.block];
      block[where.offset] := bytes4[0];
      block[where.offset + 1] := bytes4[1];
      block[where.offset + 2] := bytes4[2];
      block[where.offset + 3] := bytes4[3];
      JoinedOverwritten(contents, ends, where.block, where.offset, bytes4);
      ghost var contents' := Contents();
      forall i | 0 <= i < |contents|
        ensures contents'[i] == if i == where.block then Overwritten(contents[i], where.offset, bytes4) else contents[i]
      {
        assert i < where.block || i > where.block || i == where.block;
      }
      assert contents' == contents[where.block := Overwritten(contents[where.block], where.offset, bytes4)];
    }

    method Emit4Bytes(value: nat)
      requires Valid() && value < 0x1_0000_0000
      modifies this, repr
      ensures Grows() && Bytes() == old(Bytes()) + FourBytes(value)
    {
      hide Extends, Valid, Bytes, Contents;
      EmitByte(value % 0x100);
      ghost var b, e := blocks, ends;
      EmitByte((value / 0x100) % 0x100);
      ExtendsTransitive(old(blocks), old(ends), b, e, blocks, ends);
      b, e := blocks, ends;
      EmitByte((value / 0x1_0000) % 0x100);
      ExtendsTransitive(old(blocks), old(ends), b, e, blocks, ends);
      b, e := blocks, ends;
      EmitByte((value / 0x100_0000) % 0x100);
      ExtendsTransitive(old(blocks), old(ends), b, e, blocks, ends);
    }

    // A byte, or 0xff and a long operand.
    method EmitWide(arg: Operand)
      requires Valid()
      modifies this, repr
      ensures Grows() && Bytes() == old(Bytes()) + Wide(arg)
    {
      hide Extends, Valid, Bytes, Contents, FourBytes;
      if arg < 0xff {
        EmitByte(arg);
      } else {
        EmitByte(0xff);
        ghost var b, e := blocks, ends;
        Emit4Bytes(arg);
        ExtendsTransitive(old(blocks), old(ends), b, e, blocks, ends);
      }
    }

    method EmitOpAndArg(op: Byte, arg: Operand)
      requires Valid() && op % 16 == 0
      modifies this, repr
      ensures Grows() && Bytes() == old(Bytes()) + OpAndArg(op, arg)
    {
      hide Extends, Valid, Bytes, Contents, Wide;
      if arg < 0xf {
        EmitByte(op + arg);
      } else {
        EmitByte(op + 0xf);
        ghost var b, e := blocks, ends;
        EmitWide(arg);
        ExtendsTransitive(old(blocks), old(ends), b, e, blocks, ends);
      }
    }

    method EmitCallOpAndArg(op: Byte, arg: Operand)
      requires Valid() && op % 16 == 0
      modifies this, repr
      ensures Grows() && Bytes() == old(Bytes()) + CallOpAndArg(op, arg)
    {
      hide Extends, Valid, Bytes, Contents, OpAndArg;
      EmitOpAndArg(op, arg);
      if arg >= 0xf {
        ghost var b, e := blocks, ends;
        EmitByte(op);
        ExtendsTransitive(old(blocks), old(ends), b, e, blocks, ends);
      }
    }

    // Appends an instruction other than a branch.
    method Emit(i: Instr)
      requires Valid() && i.Valid() && !i.Branch?
      modifies this, repr
      ensures Grows() && Bytes() == old(Bytes()) + Encode(i)
    {
      hide Extends, Valid, Bytes, Contents, OpAndArg, CallOpAndArg, Wide, FourBytes, Unsigned;
      match i {
        case Op(op) => EmitByte(op);
        case MakeMethod(_) => EmitByte(MAKE_METHOD);
        case OpArg(op, arg) => EmitOpAndArg(op, arg);
        case CallForSingle(nargs) => EmitCallOpAndArg(CALL_FOR_SINGLE, nargs);
        case CallForMany(nargs, want) =>
          EmitCallOpAndArg(CALL_FOR_MANY, nargs);
          ghost var b, e := blocks, ends;
          EmitWide(want);
          ExtendsTransitive(old(blocks), old(ends), b, e, blocks, ends);
        case OpWants(op, want) =>
          EmitByte(op);
          ghost var b, e := blocks, ends;
          EmitWide(want);
          ExtendsTransitive(old(blocks), old(ends), b, e, blocks, ends);
        case PushByte(n) =>
          EmitByte(PUSH_BYTE);
          ghost var b, e := blocks, ends;
          EmitByte(n % 0x100);
          ExtendsTransitive(old(blocks), old(ends), b, e, blocks, ends);
        case PushInt(n) =>
          EmitByte(PUSH_INT);
          ghost var b, e := blocks, ends;
          Emit4Bytes(Unsigned(n));
          ExtendsTransitive(old(blocks), old(ends), b, e, blocks, ends);
      }
    }
  }

  // A location stays valid while the component grows.
  lemma LocationStays(blocks: seq<array<Byte>>, ends: seq<nat>, blocks': seq<array<Byte>>, ends': seq<nat>,
                      where: Location, position: nat, count: nat)
    requires Extends(blocks, ends, blocks', ends') && Placed(ends, where, position, count)
    ensures Placed(ends', where, position, count)
  {
    StartOfSame(ends, ends', where.block);
  }
}
