/**
 The allocator: two spaces that share a pool of free blocks.
 */
module Heaps {
  import opened Wrappers
  import opened Memory
  import opened Spaces
  import opened Copying
  import opened Collection

  // 2 MiB between collections, in words.
  const WORDS_CONSED_BETWEEN_GCS: nat := 262144

  class Heap {
    const sh: Shape
    const dynamic0: Space
    const dynamic1: Space

    var mem: Mem
    var current: Space?
    var newSpace: Space?
    var oldSpace: Space?
    var freeBlocks: seq<nat>
    var nextBlock: nat         // blocks are obtained from malloc in this order; 0 is static data
    var timeToGC: bool

    ghost var world: World     // what the collection under way started from ...
    ghost var state: State     // ... and how far it has got

    constructor (sh: Shape, mem: Mem)
      ensures Valid() && Idle() && current.contents == [] && !timeToGC && fresh(dynamic0) && fresh(dynamic1)
      ensures this.sh == sh && this.mem == mem && current.gcTrigger == 262144
    {
      this.sh := sh;
      this.mem := mem;
      var d0 := new Space(WORDS_CONSED_BETWEEN_GCS);
      var d1 := new Space(0);
      dynamic0, dynamic1 := d0, d1;
      current := d0;
      newSpace, oldSpace := null, null;
      freeBlocks := [];
      nextBlock := 1;
      timeToGC := false;
    }

    // Every block ever obtained is in exactly one of three places: one of the two spaces or
    // the pool of free blocks.
    ghost predicate ValidBlocks()
      reads this, dynamic0, dynamic1
    {
      Partition(dynamic0.View().Ids(), dynamic1.View().Ids(), freeBlocks, nextBlock)
    }

    ghost predicate Valid()
      reads this, dynamic0, dynamic1
    {
      && dynamic0 != dynamic1
      && ValidBlocks()
      && dynamic0.Valid() && dynamic1.Valid()
    }

    // Outside a collection one space is current, the other one is empty, and as long as no
    // collection is due the closed blocks of the current space stay within its trigger.
    ghost predicate Idle()
      reads this, dynamic0, dynamic1
    {
      && newSpace == null && oldSpace == null
      && current != null
      && (current == dynamic0 || current == dynamic1)
      && (current == dynamic0 ==> dynamic1.blocks == [] && dynamic1.gcTrigger == 0)
      && (current == dynamic1 ==> dynamic0.blocks == [] && dynamic0.gcTrigger == 0)
      && current.gcTrigger > 0
      && (!timeToGC ==> current.bytesInUse <= current.gcTrigger)
    }

    // Adds a block to the space: a free one if there is any, else one from malloc.
    method GrowSpace(space: Space)
      requires Valid() && (space == dynamic0 || space == dynamic1)
      modifies this`freeBlocks, this`nextBlock, this`timeToGC
      modifies space`blocks, space`curFill, space`curEnd, space`bytesInUse
      ensures ValidBlocks() && space.Ready()
      ensures exists id :: id !in old(space.View().Ids()) && space.View() == old(space.View()).Grow(id)
      ensures space.bytesInUse == old(space.UsedWords())
      ensures timeToGC == (old(timeToGC) ||
                (old(space.blocks) != [] && space.gcTrigger != 0 && space.bytesInUse > space.gcTrigger))
    {
      ghost var ids0, ids1 := dynamic0.View().Ids(), dynamic1.View().Ids();
      var id;
      if freeBlocks != [] {
        TakeFree(ids0, ids1, freeBlocks, nextBlock);
        id := freeBlocks[0];
        freeBlocks := freeBlocks[1..];
      } else {
        TakeNew(ids0, ids1, nextBlock);
        id := nextBlock;
        nextBlock := nextBlock + 1;
      }
      GrowIds(space.View(), id);
      var over := space.Grow(id);
      if over {
        timeToGC := true;
      }
    }

    // Makes sure the current block has room for `size` words, if a block can have.
    method EnsureRoom(size: nat, space: Space) returns (fits: bool)
      requires Valid() && (space == dynamic0 || space == dynamic1) && 2 <= size
      modifies this`freeBlocks, this`nextBlock, this`timeToGC
      modifies space`blocks, space`curFill, space`curEnd, space`bytesInUse
      ensures ValidBlocks() && space.Ready()
      ensures fits <==> size <= CAPACITY
      ensures !fits ==> space.View() == old(space.View()) && space.Valid()
                        && space.bytesInUse == old(space.bytesInUse) && timeToGC == old(timeToGC)
      ensures fits ==> space.blocks != [] && space.curFill + size <= space.curEnd
                       && Extends(old(space.View()), space.View().Carve(size), size)
      ensures !timeToGC ==>
                && !old(timeToGC)
                && (space.bytesInUse == old(space.bytesInUse) || space.gcTrigger == 0
                    || space.bytesInUse <= space.gcTrigger)
    {
      if space.curFill + size <= space.curEnd {
        CarveExtends(space.View(), size);
        return true;
      }
      if size > CAPACITY {
        return false;
      }
      GrowSpace(space);
      ghost var id :| id !in old(space.View().Ids()) && space.View() == old(space.View()).Grow(id);
      GrowCarveExtends(old(space.View()), id, size);
      return true;
    }

    method RawAlloc(words: nat, space: Space) returns (result: Option<Addr>)
      requires Valid() && (space == dynamic0 || space == dynamic1) && 1 <= words
      modifies this`freeBlocks, this`nextBlock, this`timeToGC
      modifies space`blocks, space`curFill, space`curEnd, space`bytesInUse, space`contents
      ensures Valid()
      ensures result.None? <==> Align(words) > CAPACITY
      ensures result.None? ==> space.View() == old(space.View())
                               && space.bytesInUse == old(space.bytesInUse) && timeToGC == old(timeToGC)
      ensures result.Some? ==>
                && Extends(old(space.View()), space.View(), Align(words))
                && result.value == space.View().Place(space.contents[|old(space.contents)|])
      ensures !timeToGC ==>
                && !old(timeToGC)
                && (space.bytesInUse == old(space.bytesInUse) || space.gcTrigger == 0
                    || space.bytesInUse <= space.gcTrigger)
    {
      hide Chain.Good, Chain.Settled, Extends, Partition;
      var fits := EnsureRoom(Align(words), space);
      if !fits {
        return None;
      }
      label Room:
      var a := space.Carve(Align(words));
      assert space.View().Ids() == old@Room(space.View().Ids());
      result := Some(a);
    }

    // A collection is under way.
    ghost predicate Collecting()
      reads this, dynamic0, dynamic1
    {
      && Valid()
      && current == null
      && newSpace != null && oldSpace != null
      && ((newSpace == dynamic0 && oldSpace == dynamic1) || (newSpace == dynamic1 && oldSpace == dynamic0))
      && newSpace.gcTrigger == 0
      && state.m == mem
      && Describes(sh, world)
      && Inv(world, state)
      && Linked(world, state, newSpace.View())
      && forall o :: o in world.objs ==> o.block in oldSpace.View().Ids()
    }

    // The next state of the collection, once the copy has been made.
    ghost predicate RoomMade(next: State, now: State)
      reads this, dynamic0, dynamic1
    {
      && newSpace != null && (newSpace == dynamic0 || newSpace == dynamic1)
      && Inv(world, next) && Advances(now, next) && Linked(world, next, newSpace.View())
    }

    // Finds room for a copy of the object at o.
    method RoomFor(o: Addr, words: nat) returns (p: Addr)
      requires Collecting()
      requires o in world.objs && o !in state.f && world.live(o) && words == world.words(o)
      modifies this`freeBlocks, this`nextBlock, this`timeToGC
      modifies newSpace`blocks, newSpace`curFill, newSpace`curEnd, newSpace`bytesInUse, newSpace`contents
      ensures Valid() && RoomMade(Transported(world, state, o, p), state)
      ensures Grew(old(newSpace.View()), newSpace.View())
    {
      hide Describes, Inv, Linked, Chain.Good, Chain.Settled, Store, Copy, Partition, Extends, Grew, Advances, Transported;
      HasWords(sh, world, o);
      var r := RawAlloc(words, newSpace);
      p := r.value;
      Shared(dynamic0.View().Ids(), dynamic1.View().Ids(), freeBlocks, nextBlock);
      ExtendsIsGrew(old(newSpace.View()), newSpace.View(), Align(words));
      TransportStep(sh, world, state, old(newSpace.View()), newSpace.View(), o, oldSpace.View().Ids());
    }

    // Copies the object at o, of the given size, to the new space and leaves a forwarding
    // pointer behind.
    method Transport(o: Addr, words: nat) returns (p: Addr)
      requires Collecting()
      requires o in world.objs && o !in state.f && world.live(o) && words == world.words(o)
      modifies this`mem, this`state, this`freeBlocks, this`nextBlock, this`timeToGC
      modifies newSpace`blocks, newSpace`curFill, newSpace`curEnd, newSpace`bytesInUse, newSpace`contents
      ensures Collecting()
      ensures state == Transported(world, old(state), o, p) && Advances(old(state), state)
      ensures Grew(old(newSpace.View()), newSpace.View())
    {
      hide Describes, Inv, Linked, Chain.Good, Chain.Settled, Store, Copy, Partition, Grew, Advances;
      p := RoomFor(o, words);
      mem := Copy(mem, o, p, words);
      mem := Store(mem, o, Marker);
      mem := Store(mem, At(o, 1), Ptr(p));
      state := Transported(world, state, o, p);
    }

    // Makes the slot at x point to the copy of the object it points to, copying the object
    // if that has not happened yet.
    method Scavenge(x: Addr)
      requires Collecting() && Pending(world, state, x)
      modifies this`mem, this`state, this`freeBlocks, this`nextBlock, this`timeToGC
      modifies newSpace`blocks, newSpace`curFill, newSpace`curEnd, newSpace`bytesInUse, newSpace`contents
      ensures Collecting()
      ensures Grew(old(newSpace.View()), newSpace.View()) && Advances(old(state), state)
      ensures state.done == old(state.done) + [x]
    {
      hide Describes, Inv, Linked, Chain.Good, Chain.Settled, Partition, Grew, Advances;
      PendingWord(sh, world, state, x);
      GrewReflexive(newSpace.View());
      match mem(x)
      case Raw(_) =>
        ForwardStep(world, state, newSpace.View(), x);
        state := Forwarded(state, x);
      case Ptr(o) =>
        if mem(o) == Marker {
          ForwardStep(world, state, newSpace.View(), x);
          mem := Store(mem, x, mem(At(o, 1)));
          state := Forwarded(state, x);
        } else {
          ScavengeUncopied(x, o);
        }
    }

    // The object has not been copied yet.
    method ScavengeUncopied(x: Addr, o: Addr)
      requires Collecting() && Pending(world, state, x) && mem(x) == Ptr(o) && mem(o) != Marker
      modifies this`mem, this`state, this`freeBlocks, this`nextBlock, this`timeToGC
      modifies newSpace`blocks, newSpace`curFill, newSpace`curEnd, newSpace`bytesInUse, newSpace`contents
      ensures Collecting()
      ensures Grew(old(newSpace.View()), newSpace.View()) && Advances(old(state), state)
      ensures state.done == old(state.done) + [x]
    {
      hide Describes, Inv, Linked, Chain.Good, Chain.Settled, Partition, Grew, Advances, Transported, Forwarded, LayoutOf, Store;
      ghost var start := state;
      PendingWord(sh, world, state, x);
      var layout := LayoutOf(sh, mem, o);
      var p := Transport(o, layout.words);
      FollowStep(world, start, state, newSpace.View(), o, p, x);
      mem := Store(mem, x, Ptr(p));
      state := Forwarded(state, x);
    }

    // Scavenges each of the given slots. This is what a list of roots asks for, and what a
    // class's own scavenger does with the slots of an instance.
    method ScavengeRefList(refs: seq<Addr>)
      requires Collecting()
      requires NoDup(refs) && forall x :: x in refs ==> Pending(world, state, x)
      modifies this`mem, this`state, this`freeBlocks, this`nextBlock, this`timeToGC
      modifies newSpace`blocks, newSpace`curFill, newSpace`curEnd, newSpace`bytesInUse, newSpace`contents
      ensures Collecting()
      ensures Grew(old(newSpace.View()), newSpace.View()) && Advances(old(state), state)
      ensures state.done == old(state.done) + refs
    {
      hide Valid, Describes, Inv, Linked, Grew, Advances, Pending;
      GrewReflexive(newSpace.View());
      AdvancesReflexive(state);
      ghost var start, begin := state, newSpace.View();
      var i := 0;
      while i < |refs|
        invariant i <= |refs| && Collecting()
        invariant Grew(begin, newSpace.View()) && Advances(start, state)
        invariant state.done == start.done + refs[..i]
      {
        NotYetDone(world, start, refs, i);
        ghost var before, space := state, newSpace.View();
        PendingStays(world, start, state, refs[i..]);
        assert refs[i] in refs[i..];
        Scavenge(refs[i]);
        AdvancesTransitive(start, before, state);
        GrewTransitive(begin, space, newSpace.View());
        i := i + 1;
      }
      assert refs[..i] == refs;
    }

    // Scavenges the class word of the copy at n and then, as its class says, its slots.
    method ScavengeObject(n: Addr, ghost k: nat) returns (words: nat)
      requires Collecting() && Scanned(world, state, k)
      requires k < |state.queue| && n == state.f[state.queue[k]]
      modifies this`mem, this`state, this`freeBlocks, this`nextBlock, this`timeToGC
      modifies newSpace`blocks, newSpace`curFill, newSpace`curEnd, newSpace`bytesInUse, newSpace`contents
      ensures Collecting() && Scanned(world, state, k + 1)
      ensures Grew(old(newSpace.View()), newSpace.View()) && Advances(old(state), state)
      ensures words == world.words(old(state.queue[k]))
    {
      hide Valid, Describes, Inv, Linked, Grew, Advances, Pending, Scanned, LayoutOf, SlotsAt, NoDup;
      ghost var start, begin, o := state, newSpace.View(), state.queue[k];
      ghost var refs := SlotAddrs(n, LayoutOf(sh, world.m, o).slots);
      ObjectSlots(sh, world, state, k);
      Scavenge(n);
      ghost var middle, space := state, newSpace.View();
      AdvancedObject(start, state, k);
      NewLayoutOf(sh, world, state, o);
      var layout := LayoutOf(sh, mem, n);
      PendingStays(world, start, state, refs);
      ScavengeRefList(SlotAddrs(n, layout.slots));
      words := layout.words;
      AdvancesTransitive(start, middle, state);
      GrewTransitive(begin, space, newSpace.View());
      ObjectScanned(world, start, state, k, n, refs);
    }

    // Scavenges the object that the scan has reached, and returns where it ends.
    method ScanOne(block: nat, ptr: nat, ghost k: nat) returns (next: nat)
      requires Collecting() && Scanned(world, state, k)
      requires block < |newSpace.blocks| && OnObject(newSpace.View(), k, block, ptr)
      modifies this`mem, this`state, this`freeBlocks, this`nextBlock, this`timeToGC
      modifies newSpace`blocks, newSpace`curFill, newSpace`curEnd, newSpace`bytesInUse, newSpace`contents
      ensures Collecting() && Scanned(world, state, k + 1) && k < |world.objs|
      ensures block < |newSpace.blocks| && ScanAt(newSpace.View(), k + 1, block, next)
      ensures old(newSpace.View().Limit(block)) <= newSpace.View().Limit(block)
    {
      hide Describes, Inv, Linked, Grew, Advances, Scanned, ScanAt, Chain.Good, Partition;
      LinkedAt(world, state, newSpace.View(), k);
      ghost var o, before := state.queue[k], newSpace.View();
      QueueBound(world, state);
      var words := ScavengeObject(Addr(newSpace.blocks[block].id, ptr), k);
      next := ptr + Align(words);
      ScanKeeps(before, newSpace.View(), k, block, ptr);
      ScanPasses(newSpace.View(), k, block, ptr);
    }

    // Scavenges the objects from offset ptr of the block up to a point that was its end.
    method ScanTo(block: nat, start: nat, end: nat, ghost k0: nat) returns (ptr: nat, ghost k: nat)
      requires Collecting() && Scanned(world, state, k0) && k0 <= |world.objs|
      requires block < |newSpace.blocks| && ScanAt(newSpace.View(), k0, block, start)
      requires start < end <= newSpace.View().Limit(block)
      modifies this`mem, this`state, this`freeBlocks, this`nextBlock, this`timeToGC
      modifies newSpace`blocks, newSpace`curFill, newSpace`curEnd, newSpace`bytesInUse, newSpace`contents
      ensures Collecting() && Scanned(world, state, k) && k0 < k <= |world.objs|
      ensures block < |newSpace.blocks| && ScanAt(newSpace.View(), k, block, ptr)
    {
      hide Describes, Inv, Linked, Scanned, ScanAt, OnObject, Chain.Good, Chain.Settled, Partition;
      ptr, k := start, k0;
      while ptr < end
        invariant Collecting() && Scanned(world, state, k) && k <= |world.objs|
        invariant block < |newSpace.blocks| && ScanAt(newSpace.View(), k, block, ptr)
        invariant end <= newSpace.View().Limit(block)
        invariant k0 <= k && (k0 == k ==> ptr < end)
        decreases |world.objs| - k
      {
        ScanOnObject(newSpace.View(), k, block, ptr);
        ptr := ScanOne(block, ptr, k);
        k := k + 1;
      }
    }

    // Scavenges the objects of a block, up to where its end is by then. The end of the block
    // is read again whenever the scan gets there, because objects may have been added to the
    // block in the meantime.
    method ScanBlock(block: nat, start: nat, ghost k0: nat) returns (ptr: nat, ghost k: nat)
      requires Collecting() && Scanned(world, state, k0) && k0 <= |world.objs|
      requires block < |newSpace.blocks| && OnObject(newSpace.View(), k0, block, start)
      modifies this`mem, this`state, this`freeBlocks, this`nextBlock, this`timeToGC
      modifies newSpace`blocks, newSpace`curFill, newSpace`curEnd, newSpace`bytesInUse, newSpace`contents
      ensures Collecting() && Scanned(world, state, k) && k0 < k <= |world.objs|
      ensures block < |newSpace.blocks| && ScanAt(newSpace.View(), k, block, ptr)
      ensures ptr >= newSpace.View().Limit(block)
    {
      hide Describes, Inv, Linked, Scanned, ScanAt, OnObject, Chain.Good, Chain.Settled, Partition;
      ptr, k := start, k0;
      var end := newSpace.Limit(block);
      StillOnObject(newSpace.View(), k, block, ptr);
      while ptr < end
        invariant Collecting() && Scanned(world, state, k) && k <= |world.objs|
        invariant block < |newSpace.blocks| && ScanAt(newSpace.View(), k, block, ptr)
        invariant end == newSpace.View().Limit(block)
        invariant k0 < k || (k0 == k && ptr < end)
        decreases |world.objs| - k
      {
        ptr, k := ScanTo(block, ptr, end, k);
        end := newSpace.Limit(block);
      }
    }

    // Goes through the objects of the new space, including those that this brings there.
    method ScavengeSpace() returns (scanned: bool)
      requires Collecting() && Scanned(world, state, 0) && newSpace.blocks != []
      requires newSpace.scanBlock == 0 && newSpace.scanPtr == HEADER_WORDS
      modifies this`mem, this`state, this`freeBlocks, this`nextBlock, this`timeToGC
      modifies newSpace`blocks, newSpace`curFill, newSpace`curEnd, newSpace`bytesInUse, newSpace`contents
      modifies newSpace`scanBlock, newSpace`scanPtr
      ensures scanned
      ensures Collecting() && Scanned(world, state, |state.queue|)
    {
      hide Describes, Inv, Linked, Scanned, ScanAt, OnObject, Chain.Good, Chain.Settled, Partition;
      var block: nat, ptr: nat := newSpace.scanBlock, newSpace.scanPtr;
      ghost var k: nat := 0;
      ScanBegins(newSpace.View());
      if block == |newSpace.blocks| - 1 && ptr >= newSpace.curFill {
        return false;
      }
      while block < |newSpace.blocks|
        invariant Collecting() && Scanned(world, state, k) && k <= |world.objs|
        invariant if block < |newSpace.blocks| then OnObject(newSpace.View(), k, block, ptr)
                  else k == |newSpace.contents|
        decreases |world.objs| - k
      {
        ptr, k := ScanBlock(block, ptr, k);
        newSpace.scanBlock, newSpace.scanPtr := block, ptr;
        ScanOnObject(newSpace.View(), k, block, ptr);
        block := block + 1;
        if block < |newSpace.blocks| {
          ptr := HEADER_WORDS;
        }
      }
      LinkedSize(world, state, newSpace.View());
      return true;
    }

    // The objects the heap holds.
    ghost function Objects(): set<Addr>
      requires current != null
      reads this, current
    {
      Places(current.View())
    }

    // The current space holds a graph of well-formed objects.
    ghost predicate GoodGraph()
      requires current != null
      reads this, current
    {
      Holds(sh, mem, current.View(), Objects()) && GoodHeap(sh, mem, Objects())
    }

    // Turns the spaces around and sets up the new one.
    method Flip(ghost roots: seq<Addr>)
      requires Valid() && Idle() && GoodGraph() && GoodRoots(mem, Objects(), roots)
      modifies this`oldSpace, this`newSpace, this`current, this`world, this`state
      ensures Collecting() && oldSpace == old(current)
      ensures world == WorldOf(sh, mem, old(Objects()), roots) && state == Start(world)
      ensures newSpace.blocks == []
    {
      hide Chain.Good, GoodHeap, GoodRoots, Holds, LayoutOf, Reachable, Partition, Describes, Inv;
      world := WorldOf(sh, mem, Objects(), roots);
      state := Start(world);
      Shared(dynamic0.View().Ids(), dynamic1.View().Ids(), freeBlocks, nextBlock);
      PlacesInBlocks(current.View());
      WorldDescribes(sh, mem, Objects(), roots);
      StartInv(sh, world);
      oldSpace := current;
      newSpace := if oldSpace == dynamic0 then dynamic1 else dynamic0;
      current := null;
      assert newSpace.View().Good();
      EmptyChain(newSpace.View());
    }

    // Gives the blocks of the old space back.
    method ReleaseOldSpace()
      requires Valid() && oldSpace != null && newSpace != null
      requires (newSpace == dynamic0 && oldSpace == dynamic1) || (newSpace == dynamic1 && oldSpace == dynamic0)
      modifies this`freeBlocks, oldSpace
      ensures Valid() && oldSpace.blocks == [] && oldSpace.gcTrigger == 0
    {
      hide Chain.Good, Chain.Settled, Partition, Total;
      ghost var ids := newSpace.View().Ids();
      OldIds(oldSpace.View());
      Release(ids, oldSpace.View().Ids(), BlockIds(oldSpace.blocks), freeBlocks, nextBlock);
      if oldSpace.blocks != [] {
        freeBlocks := BlockIds(oldSpace.blocks) + freeBlocks;
      }
      assert freeBlocks == BlockIds(oldSpace.blocks) + old(freeBlocks);
      oldSpace.Reset();
      EmptyChain(oldSpace.View());
      assert newSpace.View().Ids() == ids;
    }

    // Makes the new space current.
    method FinishCollection(ghost before: Chain)
      requires Collecting() && Scanned(world, state, |state.queue|)
      requires oldSpace.View() == before && Holds(sh, world.m, before, world.objs)
      modifies this`freeBlocks, this`current, this`newSpace, this`oldSpace, this`timeToGC
      modifies oldSpace, newSpace`gcTrigger
      ensures Valid() && Idle() && !timeToGC
      ensures current == old(newSpace) && current.View() == old(newSpace.View())
      ensures current.UsedWords() <= Total(before.contents)
      ensures current.gcTrigger == current.UsedWords() + WORDS_CONSED_BETWEEN_GCS
    {
      hide Describes, Inv, Linked, Scanned, Holds, Chain.Good, Chain.Settled, Partition;
      NoGrowth(sh, world, state, before, newSpace.View());
      UsedCoversClosed(newSpace);
      ReleaseOldSpace();
      current := newSpace;
      newSpace := null;
      oldSpace := null;
      current.gcTrigger := current.UsedWords() + WORDS_CONSED_BETWEEN_GCS;
      timeToGC := false;
    }

    /** Collects garbage: moves exactly the objects that can be reached from the root slots to
        the other space, keeping the graph they form. */
    method CollectGarbage(otherRoots: seq<Addr>, constantRoots: seq<Addr>, variableRoots: seq<Addr>)
      returns (ok: bool, ghost f: map<Addr, Addr>, ghost log: seq<Addr>)
      requires Valid() && Idle() && GoodGraph()
      requires GoodRoots(mem, Objects(), otherRoots + constantRoots + variableRoots)
      modifies this, dynamic0, dynamic1
      // The program is lost exactly if no root slot holds a pointer.
      ensures ok <==> exists r :: r in otherRoots + constantRoots + variableRoots && old(mem)(r).Ptr?
      ensures ok ==> Valid() && Idle() && GoodGraph() && !timeToGC
      ensures ok ==>
              var roots := otherRoots + constantRoots + variableRoots;
              && (forall o :: o in f <==> Reachable(sh, old(mem), roots, o))
              && Isomorphic(sh, old(mem), mem, f)
              && Objects() == f.Values
              && (forall r :: r in roots ==> mem(r) == Relocate(f, old(mem)(r)))
              && (forall o :: o in old(Objects()) ==>
                    (mem(o) != Marker <==> !Reachable(sh, old(mem), roots, o)))
              // every live slot has been scavenged exactly once, and no other word
              && NoDup(log)
              && (forall x :: x in log <==> LiveSlot(sh, old(mem), roots, f, x))
      ensures ok ==> current != null && current.UsedWords() <= old(current.UsedWords())
      // the next collection is due after 2 MiB more, in words of 8 bytes
      ensures ok ==> current.gcTrigger == current.UsedWords() + 262144
    {
      hide Describes, Inv, Linked, Scanned, Holds, GoodHeap, GoodRoots, Chain.Good, Chain.Settled, Partition,
           Isomorphic, Reachable, LiveSlot;
      ghost var before := current.View();
      ok := Trace(otherRoots, constantRoots, variableRoots);
      f, log := map[], [];
      if !ok {
        return;
      }
      f, log := state.f, state.done;
      Outcome(sh, world, state, newSpace.View());
      FinishCollection(before);
    }

    // Copies what the roots lead to. The scan starts at the first block of the new space; if
    // there is none, a null pointer is followed.
    method Trace(otherRoots: seq<Addr>, constantRoots: seq<Addr>, variableRoots: seq<Addr>) returns (ok: bool)
      requires Valid() && Idle() && GoodGraph()
      requires GoodRoots(mem, Objects(), otherRoots + constantRoots + variableRoots)
      modifies this`mem, this`state, this`world, this`freeBlocks, this`nextBlock, this`timeToGC
      modifies this`current, this`newSpace, this`oldSpace
      modifies (if current == dynamic0 then dynamic1 else dynamic0)
      ensures ok <==> exists r :: r in otherRoots + constantRoots + variableRoots && old(mem)(r).Ptr?
      ensures ok ==> Collecting() && Scanned(world, state, |state.queue|)
      ensures oldSpace == old(current)
      ensures world == WorldOf(sh, old(mem), old(Objects()), otherRoots + constantRoots + variableRoots)
    {
      hide Describes, Inv, Linked, Scanned, Holds, GoodHeap, GoodRoots, Chain.Good, Chain.Settled, Partition;
      Flip(otherRoots + constantRoots + variableRoots);
      ScavengeRoots(otherRoots, constantRoots, variableRoots);
      if newSpace.blocks == [] {
        return false;
      }
      newSpace.scanBlock, newSpace.scanPtr := 0, HEADER_WORDS;
      var _ := ScavengeSpace();
      return true;
    }

    // All the root slots are scavenged first.
    method ScavengeRoots(otherRoots: seq<Addr>, constantRoots: seq<Addr>, variableRoots: seq<Addr>)
      requires Collecting() && state == Start(world)
      requires world.roots == otherRoots + constantRoots + variableRoots
      modifies this`mem, this`state, this`freeBlocks, this`nextBlock, this`timeToGC
      modifies newSpace`blocks, newSpace`curFill, newSpace`curEnd, newSpace`bytesInUse, newSpace`contents
      ensures Collecting() && Scanned(world, state, 0)
      ensures newSpace.blocks != [] <==> exists r :: r in world.roots && world.m(r).Ptr?
    {
      hide Valid, Describes, Inv, Linked, Grew, Advances, Pending, Scanned, NoDup, Reachable;
      ghost var start, roots := state, world.roots;
      StartInv(sh, world);
      RootsDistinct(sh, world);
      ghost var a := otherRoots;
      ghost var b := a + constantRoots;
      PartsPending(world, start, [], a, constantRoots + variableRoots);
      ScavengeRefList(otherRoots);
      PartsPending(world, start, a, constantRoots, variableRoots);
      PendingStays(world, start, state, constantRoots);
      ghost var s1 := state;
      ScavengeRefList(constantRoots);
      AdvancesTransitive(start, s1, state);
      PartsPending(world, start, b, variableRoots, []);
      PendingStays(world, start, state, variableRoots);
      ScavengeRefList(variableRoots);
      ScanStart(world, state);
      if r :| r in roots && world.m(r).Ptr? {
        SomethingCopied(world, state, newSpace.View(), r);
      } else {
        SettledNow();
        NothingCopied(sh, world, state, newSpace.View());
      }
    }

    lemma SettledNow()
      requires Collecting()
      ensures newSpace.View().Settled()
    {
    }

    // After the scan, a word tells whether an object of the old space is garbage.
    method ObjectCollected(o: Addr) returns (collected: bool)
      requires Collecting() && Scanned(world, state, |state.queue|) && o in world.objs
      ensures collected <==> !Reachable(sh, world.m, world.roots, o)
    {
      hide Describes, Inv, Linked, Scanned, Reachable;
      MarkedIsCopied(sh, world, state, o);
      CopiedIsReachable(sh, world, state);
      collected := mem(o) != Marker;
    }

    method BytesInUse() returns (words: int)
      requires Valid() && Idle()
      ensures words == Total(current.contents)
      // While no collection is due, usage stays within the trigger plus one block.
      ensures !timeToGC ==> words <= current.gcTrigger + CAPACITY
    {
      UsedCoversClosed(current);
      words := current.UsedWords();
    }

    // Allocates an object and fills in its class word.
    method Alloc(cls: Addr, words: nat) returns (result: Option<Addr>)
      requires Valid() && Idle() && 1 <= words
      modifies this`mem, this`freeBlocks, this`nextBlock, this`timeToGC, current
      ensures Valid() && Idle() && current == old(current)
      ensures result.None? <==> Align(words) > CAPACITY
      ensures result.None? ==> current.View() == old(current.View()) && mem == old(mem)
      ensures result.Some? ==>
                && Extends(old(current.View()), current.View(), Align(words))
                && result.value == current.View().Place(current.contents[|old(current.contents)|])
                && mem == Store(old(mem), result.value, Ptr(cls))
    {
      hide Chain.Good, Chain.Settled, Partition, Total, Extends;
      result := RawAlloc(words, current);
      if result.Some? {
        mem := Store(mem, result.value, Ptr(cls));
      }
    }
  }

  // For example, a new heap cannot be collected before there is a root.
  method CollectNewHeap(sh: Shape, mem: Mem) returns (ok: bool)
    ensures !ok
  {
    hide Heap.Valid, GoodRoots;
    var heap := new Heap(sh, mem);
    NewHeapGood(heap);
    ghost var f, log;
    ok, f, log := heap.CollectGarbage([], [], []);
  }

  lemma NewHeapGood(heap: Heap)
    requires heap.Valid() && heap.current != null && heap.current.contents == []
    ensures heap.GoodGraph() && GoodRoots(heap.mem, heap.Objects(), [] + [] + [])
  {
  }

  // The blocks 1 .. next - 1 are shared out without overlap.
  ghost predicate Partition(s: set<nat>, t: set<nat>, free: seq<nat>, next: nat) {
    && NoDup(free)
    && s !! t
    && (forall b :: b in free ==> b !in s && b !in t)
    && (forall b :: (b in s || b in t || b in free) <==> 0 < b < next)
    && 1 <= next
  }

  lemma Shared(s: set<nat>, t: set<nat>, free: seq<nat>, next: nat)
    requires Partition(s, t, free, next)
    ensures s !! t && 0 !in s && 0 !in t
  {
  }

  function BlockIds(blocks: seq<Block>): (r: seq<nat>)
    ensures |r| == |blocks| && forall i :: 0 <= i < |r| ==> r[i] == blocks[i].id
  {
    seq(|blocks|, i requires 0 <= i < |blocks| => blocks[i].id)
  }

  lemma OldIds(s: Chain)
    requires s.Good()
    ensures NoDup(BlockIds(s.blocks))
    ensures forall b :: b in BlockIds(s.blocks) <==> b in s.Ids()
  {
  }

  lemma Release(s: set<nat>, t: set<nat>, ids: seq<nat>, free: seq<nat>, next: nat)
    requires NoDup(ids) && forall b :: b in ids <==> b in t
    requires Partition(s, t, free, next) || Partition(t, s, free, next)
    ensures Partition(s, {}, ids + free, next) && Partition({}, s, ids + free, next)
  {
    forall i, j | 0 <= i < j < |ids + free| ensures (ids + free)[i] != (ids + free)[j] {
      if i < |ids| <= j {
        assert (ids + free)[i] in t && (ids + free)[j] in free;
      }
    }
  }

  lemma TakeFree(s: set<nat>, t: set<nat>, free: seq<nat>, next: nat)
    requires Partition(s, t, free, next) && free != []
    ensures free[0] !in s && free[0] !in t
    ensures Partition(s + {free[0]}, t, free[1..], next)
    ensures Partition(s, t + {free[0]}, free[1..], next)
  {
    assert free == [free[0]] + free[1..];
    assert free[0] !in free[1..];
  }

  lemma TakeNew(s: set<nat>, t: set<nat>, next: nat)
    requires Partition(s, t, [], next)
    ensures next !in s && next !in t
    ensures Partition(s + {next}, t, [], next + 1)
    ensures Partition(s, t + {next}, [], next + 1)
  {
  }
}
