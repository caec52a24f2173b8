/**
 The memory the collector works on, and what it means for it to hold a graph of objects.

 A word is raw data (a fixnum, a length, a C function pointer), a tagged object pointer,
 or the forwarding marker. Word 0 of every object points to its class, and a class keeps
 its `transport` and `scavenge` functions in a raw word past the two that a forwarding
 pointer overwrites. Those two functions are modelled by what they must agree on: how many
 words an instance has and which of them hold references.
 */
module Memory {
  import opened Wrappers

  // 256 KiB blocks of 8-byte words; the block header takes five words, rounded up to six.
  const BLOCK_WORDS: nat := 32768
  const HEADER_WORDS: nat := 6
  const CAPACITY: nat := BLOCK_WORDS - HEADER_WORDS

  // Offset of the word of a class that holds its transport and scavenge functions.
  const METHODS: nat := 5

  datatype Addr = Addr(block: nat, off: nat)

  datatype Word = Raw(v: int) | Ptr(a: Addr) | Marker

  type Mem = Addr -> Word

  function Store(m: Mem, a: Addr, w: Word): Mem {
    x => if x == a then w else m(x)
  }

  function At(o: Addr, i: nat): Addr {
    Addr(o.block, o.off + i)
  }

  // Is x one of the n words that start at o?
  predicate Within(x: Addr, o: Addr, n: nat) {
    x.block == o.block && o.off <= x.off < o.off + n
  }

  // The memcpy of n words from o to the region starting at p.
  function Copy(m: Mem, o: Addr, p: Addr, n: nat): Mem {
    x => if Within(x, p, n) then m(At(o, x.off - p.off)) else m(x)
  }

  // Sizes are rounded up to a whole number of two-word units.
  function Align(n: nat): (r: nat)
    ensures n <= r <= n + 1 && r % 2 == 0
  {
    n + n % 2
  }

  datatype Layout = Layout(words: nat, slots: seq<nat>)

  // What the classes of the program provide: for the descriptor word of a class, the offset
  // of the word that holds an instance's length (0 when its size is fixed), and the layout
  // of an instance of a given length.
  datatype Shape = Shape(lengthAt: int -> nat, layout: (int, int) -> Layout)

  function RawOr0(w: Word): int {
    if w.Raw? then w.v else 0
  }

  // The descriptor that class c carries.
  function Descriptor(m: Mem, c: Addr): int {
    RawOr0(m(At(c, METHODS)))
  }

  // The layout of the object at o, given the descriptor d of its class.
  function LayoutBy(sh: Shape, m: Mem, o: Addr, d: int): Layout {
    sh.layout(d, RawOr0(m(At(o, sh.lengthAt(d)))))
  }

  function LayoutOf(sh: Shape, m: Mem, o: Addr): Layout {
    if m(o).Ptr? then LayoutBy(sh, m, o, Descriptor(m, m(o).a)) else Layout(0, [])
  }

  // Word i of the object at o is one the collector follows: its class or a reference slot.
  predicate IsSlot(sh: Shape, m: Mem, o: Addr, i: nat) {
    i == 0 || i in LayoutOf(sh, m, o).slots
  }

  // The space the object at o takes up.
  function Extent(sh: Shape, m: Mem, o: Addr): nat {
    Align(LayoutOf(sh, m, o).words)
  }

  predicate GoodLayout(l: Layout, lengthAt: nat) {
    && 1 <= l.words && Align(l.words) <= CAPACITY
    && NoDup(l.slots)
    && (forall s :: s in l.slots ==> 0 < s < l.words)
    && lengthAt < l.words
  }

  // A reference held in a slot: not a pointer at all, or a pointer to an object.
  predicate GoodRef(objs: set<Addr>, w: Word) {
    w.Raw? || (w.Ptr? && w.a in objs)
  }

  ghost predicate GoodObject(sh: Shape, m: Mem, objs: set<Addr>, o: Addr) {
    && m(o).Ptr? && m(o).a in objs
    // the class keeps its descriptor in a raw word of its own
    && var c := m(o).a;
    && METHODS < LayoutOf(sh, m, c).words
    && m(At(c, METHODS)).Raw?
    && GoodLayout(LayoutOf(sh, m, o), sh.lengthAt(Descriptor(m, c)))
    && forall i :: i in LayoutOf(sh, m, o).slots ==> GoodRef(objs, m(At(o, i)))
  }

  ghost predicate Disjoint(sh: Shape, m: Mem, o: Addr, p: Addr) {
    o.block == p.block ==>
      o.off + Extent(sh, m, o) <= p.off || p.off + Extent(sh, m, p) <= o.off
  }

  // Memory m holds exactly the objects that start at the addresses in objs.
  ghost predicate GoodHeap(sh: Shape, m: Mem, objs: set<Addr>) {
    && (forall o :: o in objs ==> GoodObject(sh, m, objs, o))
    && (forall o, p :: o in objs && p in objs && o != p ==> Disjoint(sh, m, o, p))
  }

  // Object o refers to object p through its class word or one of its slots.
  ghost predicate Refers(sh: Shape, m: Mem, o: Addr, p: Addr) {
    exists i :: IsSlot(sh, m, o, i) && m(At(o, i)) == Ptr(p)
  }

  // A root slot holds a pointer to o.
  ghost predicate Rooted(m: Mem, roots: seq<Addr>, o: Addr) {
    exists r :: r in roots && m(r) == Ptr(o)
  }

  ghost predicate IsPath(sh: Shape, m: Mem, roots: seq<Addr>, p: seq<Addr>) {
    && p != []
    && Rooted(m, roots, p[0])
    && forall i :: 0 < i < |p| ==> Refers(sh, m, p[i - 1], p[i])
  }

  ghost predicate Reachable(sh: Shape, m: Mem, roots: seq<Addr>, o: Addr) {
    exists p :: IsPath(sh, m, roots, p) && p[|p| - 1] == o
  }

  lemma RootReachable(sh: Shape, m: Mem, roots: seq<Addr>, o: Addr)
    requires Rooted(m, roots, o)
    ensures Reachable(sh, m, roots, o)
  {
    assert IsPath(sh, m, roots, [o]) && [o][|[o]| - 1] == o;
  }

  lemma ReferenceReachable(sh: Shape, m: Mem, roots: seq<Addr>, o: Addr, q: Addr)
    requires Reachable(sh, m, roots, o) && Refers(sh, m, o, q)
    ensures Reachable(sh, m, roots, q)
  {
    var p :| IsPath(sh, m, roots, p) && p[|p| - 1] == o;
    var p' := p + [q];
    forall i | 0 < i < |p'| ensures Refers(sh, m, p'[i - 1], p'[i]) {
      if i < |p| { assert p'[i - 1] == p[i - 1] && p'[i] == p[i]; }
    }
    assert IsPath(sh, m, roots, p') && p'[|p'| - 1] == q;
  }

  // A set that holds what the roots point to and is closed under references holds every
  // reachable object.
  lemma ClosedHoldsReachable(sh: Shape, m: Mem, roots: seq<Addr>, s: set<Addr>, o: Addr)
    requires forall q :: Rooted(m, roots, q) ==> q in s
    requires forall p, q :: p in s && Refers(sh, m, p, q) ==> q in s
    requires Reachable(sh, m, roots, o)
    ensures o in s
  {
    var p :| IsPath(sh, m, roots, p) && p[|p| - 1] == o;
    PathStaysIn(sh, m, roots, s, p, |p| - 1);
  }

  lemma {:induction false} PathStaysIn(sh: Shape, m: Mem, roots: seq<Addr>, s: set<Addr>, p: seq<Addr>, n: nat)
    requires forall q :: Rooted(m, roots, q) ==> q in s
    requires forall p, q :: p in s && Refers(sh, m, p, q) ==> q in s
    requires IsPath(sh, m, roots, p) && n < |p|
    ensures p[n] in s
  {
    if n > 0 {
      PathStaysIn(sh, m, roots, s, p, n - 1);
      assert Refers(sh, m, p[n - 1], p[n]);
    }
  }

  // The picture of a word under a relocation of the objects it may refer to.
  function Relocate(f: map<Addr, Addr>, w: Word): Word {
    if w.Ptr? && w.a in f then Ptr(f[w.a]) else w
  }

  ghost predicate Injective(f: map<Addr, Addr>) {
    forall o, p :: o in f && p in f && f[o] == f[p] ==> o == p
  }

  /** Memory m' holds at f[o] a copy of the object that m holds at o: its class word and slots
      point to the copies of what they pointed to, everything else is the same word, and the
      copy is laid out the same way. */
  ghost predicate CopyAt(sh: Shape, m: Mem, m': Mem, f: map<Addr, Addr>, o: Addr)
    requires o in f
  {
    && LayoutOf(sh, m', f[o]) == LayoutOf(sh, m, o)
    && forall i :: 0 <= i < LayoutOf(sh, m, o).words ==>
         m'(At(f[o], i)) == if IsSlot(sh, m, o, i) then Relocate(f, m(At(o, i))) else m(At(o, i))
  }

  ghost predicate Isomorphic(sh: Shape, m: Mem, m': Mem, f: map<Addr, Addr>) {
    Injective(f) && forall o :: o in f ==> CopyAt(sh, m, m', f, o)
  }
}
