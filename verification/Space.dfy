/**
 A space: a chain of blocks that objects are carved from one after another.
 */
module Spaces {
  import opened Memory

  // A block of the chain. `fill` is the end of its contents, set when the next block is
  // added; the last block of a space is filled up to the space's own fill pointer instead.
  datatype Block = Block(id: nat, fill: nat)

  // An object's place: which block of the chain, where in it, and its rounded size.
  datatype Chunk = Chunk(index: nat, off: nat, words: nat) {
    predicate Starts(i: nat) { index == i && off == HEADER_WORDS }
    function End(): nat { off + words }
  }

  // A chain of blocks, where its last block is filled up to, and the objects in the order
  // they were allocated.
  datatype Chain = Chain(blocks: seq<Block>, curFill: nat, contents: seq<Chunk>) {
    // Where the contents of block i end.
    function Limit(i: nat): nat
      requires i < |blocks|
    {
      if i + 1 < |blocks| then blocks[i].fill else curFill
    }

    ghost predicate Good() {
      && DistinctIds()
      && (blocks == [] ==> contents == [] && curFill == 0)
      && (blocks != [] ==> HEADER_WORDS <= curFill <= BLOCK_WORDS)
      && (forall i :: 0 <= i < |contents| ==> Fits(contents[i]))
      && (forall i, j :: 0 <= i < j < |contents| ==> Before(contents[i], contents[j]))
      && Tiled()
    }

    ghost predicate DistinctIds() {
      forall i, j :: 0 <= i < j < |blocks| ==> blocks[i].id != blocks[j].id
    }

    predicate Fits(c: Chunk) {
      c.index < |blocks| && HEADER_WORDS <= c.off && 2 <= c.words && c.End() <= Limit(c.index)
    }

    static predicate Before(c: Chunk, d: Chunk) {
      c.index <= d.index && (c.index == d.index ==> c.End() <= d.off)
    }

    // The objects follow each other without gaps: the first starts the first block, each
    // next one starts where the previous ends or at the start of the next block, and the
    // last ends where the space does.
    ghost predicate Tiled() {
      && (contents == [] && blocks != [] ==> |blocks| == 1 && curFill == HEADER_WORDS)
      && (contents != [] ==> contents[0].Starts(0) && Ends(contents[|contents| - 1]))
      && forall i :: 0 < i < |contents| ==> Follows(contents[i - 1], contents[i])
    }

    predicate Follows(c: Chunk, d: Chunk) {
      || (d.index == c.index && d.off == c.End())
      || (d.Starts(c.index + 1) && d.index < |blocks| && blocks[c.index].fill == c.End())
    }

    predicate Ends(c: Chunk) {
      || (c.index + 1 == |blocks| && c.End() == curFill)
      || (c.index + 2 == |blocks| && curFill == HEADER_WORDS && blocks[c.index].fill == c.End())
    }

    // The last block holds an object, if there is a block.
    ghost predicate Settled() {
      && (contents == [] ==> blocks == [])
      && (contents != [] ==> contents[|contents| - 1].index + 1 == |blocks|)
    }

    function Close(): seq<Block> {
      if blocks == [] then [] else blocks[|blocks| - 1 := blocks[|blocks| - 1].(fill := curFill)]
    }

    function Grow(id: nat): Chain {
      Chain(Close() + [Block(id, 0)], HEADER_WORDS, contents)
    }

    function Carve(size: nat): Chain
      requires blocks != []
    {
      Chain(blocks, curFill + size, contents + [Chunk(|blocks| - 1, curFill, size)])
    }

    function Ids(): set<nat> {
      set i | 0 <= i < |blocks| :: blocks[i].id
    }

    function Place(c: Chunk): Addr
      requires c.index < |blocks|
    {
      Addr(blocks[c.index].id, c.off)
    }
  }

  lemma EmptyChain(s: Chain)
    requires s.Good() && s.blocks == []
    ensures s.contents == [] && s.Ids() == {}
  {
  }

  lemma GrowGood(s: Chain, id: nat)
    requires s.Good() && s.Settled() && id !in s.Ids()
    ensures s.Grow(id).Good()
  {
    var t, n := s.Grow(id), |s.contents|;
    forall i, j | 0 <= i < j < |t.blocks| ensures t.blocks[i].id != t.blocks[j].id {
      assert s.blocks[i].id in s.Ids();
    }
    forall i | 0 <= i < n ensures t.Fits(t.contents[i]) {
      assert s.Fits(s.contents[i]);
    }
    forall i | 0 < i < n ensures t.Follows(t.contents[i - 1], t.contents[i]) {
      assert s.Follows(s.contents[i - 1], s.contents[i]);
      assert s.Fits(s.contents[i - 1]) && s.Fits(s.contents[i]);
    }
  }

  lemma GrowIds(s: Chain, id: nat)
    ensures s.Grow(id).Ids() == s.Ids() + {id}
  {
    var t := s.Grow(id);
    assert t.blocks[|s.blocks|].id == id;
    forall b | b in s.Ids() ensures b in t.Ids() {
      var i :| 0 <= i < |s.blocks| && s.blocks[i].id == b;
      assert t.blocks[i].id == b;
    }
  }

  lemma CarveGood(s: Chain, size: nat)
    requires s.Good() && s.blocks != [] && 2 <= size && s.curFill + size <= BLOCK_WORDS
    ensures s.Carve(size).Good() && s.Carve(size).Settled()
  {
    var t, n := s.Carve(size), |s.contents|;
    forall i | 0 <= i <= n ensures t.Fits(t.contents[i]) {
      if i < n { assert s.Fits(s.contents[i]); }
    }
    forall i, j | 0 <= i < j <= n ensures Chain.Before(t.contents[i], t.contents[j]) {
      if j < n {
        assert Chain.Before(s.contents[i], s.contents[j]);
      } else {
        assert s.Fits(s.contents[i]);
      }
    }
    forall i | 0 < i <= n ensures t.Follows(t.contents[i - 1], t.contents[i]) {
      if i < n {
        assert s.Follows(s.contents[i - 1], s.contents[i]);
      } else {
        assert s.Ends(s.contents[n - 1]);
      }
    }
  }

  // Chain t is s after further objects have been allocated: the objects and blocks of s are
  // still there, and no block has shrunk.
  ghost predicate Grew(s: Chain, t: Chain) {
    && |s.contents| <= |t.contents| && t.contents[..|s.contents|] == s.contents
    && |s.blocks| <= |t.blocks|
    && forall i :: 0 <= i < |s.blocks| ==> t.blocks[i].id == s.blocks[i].id && s.Limit(i) <= t.Limit(i)
  }

  // ... and exactly one object of the given size.
  ghost predicate Extends(s: Chain, t: Chain, size: nat) {
    && Grew(s, t)
    && |t.contents| == |s.contents| + 1
    && t.contents[|s.contents|].words == size
  }

  lemma ExtendsIsGrew(s: Chain, t: Chain, size: nat)
    requires Extends(s, t, size)
    ensures Grew(s, t) && |t.contents| == |s.contents| + 1
  {
  }

  lemma CarveExtends(s: Chain, size: nat)
    requires s.blocks != []
    ensures Extends(s, s.Carve(size), size)
  {
  }

  lemma GrowCarveExtends(s: Chain, id: nat, size: nat)
    ensures Extends(s, s.Grow(id).Carve(size), size)
  {
  }

  lemma GrewReflexive(s: Chain)
    ensures Grew(s, s)
  {
  }

  lemma GrewTransitive(s: Chain, t: Chain, u: Chain)
    requires Grew(s, t) && Grew(t, u)
    ensures Grew(s, u)
  {
    assert u.contents[..|s.contents|] == u.contents[..|t.contents|][..|s.contents|];
  }

  // A scan that has dealt with the first k objects is at offset ptr of block b.
  ghost predicate ScanAt(s: Chain, k: nat, b: nat, ptr: nat) {
    && b < |s.blocks| && k <= |s.contents|
    && if k < |s.contents| then
         OnObject(s, k, b, ptr) || (s.contents[k].Starts(b + 1) && b + 1 < |s.blocks| && s.blocks[b].fill == ptr)
       else
         b + 1 == |s.blocks| && ptr == s.curFill
  }

  ghost predicate OnObject(s: Chain, k: nat, b: nat, ptr: nat) {
    k < |s.contents| && s.contents[k].index == b && s.contents[k].off == ptr
  }

  // Short of the end of the block, a scan is at the start of an object, ...
  lemma ScanOnObject(s: Chain, k: nat, b: nat, ptr: nat)
    requires s.Good() && ScanAt(s, k, b, ptr)
    ensures ptr < s.Limit(b) <==> OnObject(s, k, b, ptr)
    ensures ptr >= s.Limit(b) ==> if b + 1 < |s.blocks| then OnObject(s, k, b + 1, HEADER_WORDS) else k == |s.contents|
  {
    if k < |s.contents| {
      assert s.Fits(s.contents[k]);
    }
  }

  lemma StillOnObject(s: Chain, k: nat, b: nat, ptr: nat)
    requires s.Good() && b < |s.blocks| && OnObject(s, k, b, ptr)
    ensures ScanAt(s, k, b, ptr) && ptr < s.Limit(b)
  {
    assert s.Fits(s.contents[k]);
  }

  lemma ScanBegins(s: Chain)
    requires s.Good() && s.Settled() && s.blocks != []
    ensures OnObject(s, 0, 0, HEADER_WORDS) && HEADER_WORDS < s.Limit(0)
  {
    assert s.Fits(s.contents[0]);
  }

  lemma ScanKeeps(s: Chain, t: Chain, k: nat, b: nat, ptr: nat)
    requires Grew(s, t) && OnObject(s, k, b, ptr) && b < |s.blocks|
    ensures OnObject(t, k, b, ptr) && t.contents[k] == s.contents[k]
    ensures b < |t.blocks| && s.Limit(b) <= t.Limit(b)
  {
    assert t.contents[k] == t.contents[..|s.contents|][k];
  }

  // ... and passing the object leads to the next one.
  lemma ScanPasses(s: Chain, k: nat, b: nat, ptr: nat)
    requires s.Good() && s.Settled() && OnObject(s, k, b, ptr)
    ensures ScanAt(s, k + 1, b, s.contents[k].End())
  {
    assert s.Fits(s.contents[k]);
    if k + 1 < |s.contents| {
      assert s.Follows(s.contents[k], s.contents[k + 1]);
      assert s.Fits(s.contents[k + 1]);
    } else {
      assert s.Ends(s.contents[k]);
    }
  }

  function Total(chunks: seq<Chunk>): nat {
    if chunks == [] then 0 else Total(chunks[..|chunks| - 1]) + chunks[|chunks| - 1].words
  }

  lemma TotalSnoc(chunks: seq<Chunk>, c: Chunk)
    ensures Total(chunks + [c]) == Total(chunks) + c.words
  {
    assert (chunks + [c])[..|chunks|] == chunks;
  }

  class Space {
    var blocks: seq<Block>
    var curFill: nat
    var curEnd: nat
    var bytesInUse: nat      // words in the closed blocks
    var gcTrigger: nat
    var scanBlock: nat       // index in the chain
    var scanPtr: nat
    ghost var contents: seq<Chunk>   // the objects, in the order they were allocated

    constructor (trigger: nat)
      ensures Valid() && contents == [] && blocks == [] && gcTrigger == trigger && bytesInUse == 0
    {
      blocks := [];
      curFill, curEnd := 0, 0;
      bytesInUse := 0;
      gcTrigger := trigger;
      scanBlock, scanPtr := 0, 0;
      contents := [];
    }

    ghost function View(): Chain
      reads this
    {
      Chain(blocks, curFill, contents)
    }

    function Limit(i: nat): nat
      requires i < |blocks|
      reads this
    {
      if i + 1 < |blocks| then blocks[i].fill else curFill
    }

    // The state between operations.
    ghost predicate Valid()
      reads this
    {
      Ready() && View().Settled()
    }

    // As Valid, except that the last block may still be empty.
    ghost predicate Ready()
      reads this
    {
      && View().Good()
      && curEnd == (if blocks == [] then 0 else BLOCK_WORDS)
      && (blocks == [] ==> bytesInUse == 0)
      && UsedWords() == Total(contents)
    }

    // The number of words in use: those of the closed blocks and those of the current one.
    function UsedWords(): int
      reads this
    {
      if blocks != [] then bytesInUse + curFill - HEADER_WORDS else bytesInUse
    }

    // Closes the current block, if there is one, and adds an empty one.
    method Grow(id: nat) returns (overTrigger: bool)
      requires Valid() && id !in View().Ids()
      modifies this`blocks, this`curFill, this`curEnd, this`bytesInUse
      ensures Ready()
      ensures View() == old(View()).Grow(id)
      ensures bytesInUse == old(UsedWords())
      ensures overTrigger == (old(blocks) != [] && gcTrigger != 0 && bytesInUse > gcTrigger)
    {
      hide Chain.Good, Chain.Settled, Total;
      GrowGood(View(), id);
      overTrigger := false;
      if blocks != [] {
        bytesInUse := bytesInUse + curFill - HEADER_WORDS;
        var last := |blocks| - 1;
        blocks := blocks[last := blocks[last].(fill := curFill)];
        overTrigger := gcTrigger != 0 && bytesInUse > gcTrigger;
      }
      blocks := blocks + [Block(id, 0)];
      curFill := HEADER_WORDS;
      curEnd := BLOCK_WORDS;
    }

    // Takes the next `size` words of the current block.
    method Carve(size: nat) returns (result: Addr)
      requires Ready() && blocks != [] && 2 <= size && curFill + size <= curEnd
      modifies this`curFill, this`contents
      ensures Valid()
      ensures View() == old(View()).Carve(size)
      ensures result == View().Place(contents[|old(contents)|])
    {
      ghost var c := Chunk(|blocks| - 1, curFill, size);
      CarveGood(View(), size);
      TotalSnoc(contents, c);
      result := Addr(blocks[|blocks| - 1].id, curFill);
      curFill := curFill + size;
      contents := contents + [c];
    }

    method Reset()
      modifies this
      ensures Valid() && contents == [] && blocks == [] && gcTrigger == 0 && bytesInUse == 0
    {
      blocks := [];
      curFill, curEnd := 0, 0;
      bytesInUse := 0;
      gcTrigger := 0;
      scanBlock, scanPtr := 0, 0;
      contents := [];
    }
  }

  lemma UsedCoversClosed(s: Space)
    requires s.Valid()
    ensures s.bytesInUse <= s.UsedWords() <= s.bytesInUse + CAPACITY
  {
  }
}
