/**
 Interned symbols: a hash table of chains in which names are the same if they differ only in
 the case of ASCII letters.
 */
module Symbols {

  // A name is a sequence of bytes other than zero.
  type Name = s: seq<bv8> | 0 !in s

  // isupper and tolower, in the C locale.
  function Lower(c: bv8): bv8 {
    if 0x41 <= c <= 0x5A then c + 0x20 else c
  }

  // The same character, or the two cases of one letter: A to Z is 0x41 to 0x5A, and a to z is
  // 0x61 to 0x7A.
  predicate SameLetter(c: bv8, d: bv8) {
    || c == d
    || (0x41 <= c <= 0x5A && d == c + 0x20)
    || (0x41 <= d <= 0x5A && c == d + 0x20)
  }

  ghost predicate SameIgnoringCase(name1: Name, name2: Name) {
    |name1| == |name2| && forall i :: 0 <= i < |name1| ==> SameLetter(name1[i], name2[i])
  }

  /** Characters are told apart in lower case exactly if they are not the cases of one letter. */
  lemma LowerExactly(c: bv8, d: bv8)
    ensures Lower(c) == Lower(d) <==> c == d || (0x41 <= c <= 0x5A && d == c + 0x20) || (0x41 <= d <= 0x5A && c == d + 0x20)
  {
  }

  // One step of the hash: rotate, and mix in the character without its case bit.
  function HashStep(hash: bv32, c: bv8): bv32 {
    ((hash << 5) | (hash >> 27)) ^ ((c & 0xDF) as bv32)
  }

  // The hash goes round by five bits, and a and A are both mixed in as 0x41.
  lemma HashSteps()
    ensures HashStep(1, 0) == 0x20 && HashStep(0x8000_0000, 0) == 0x10
    ensures HashStep(0, 0x41) == 0x41 && HashStep(0, 0x61) == 0x41 && HashStep(0x41, 0x62) == 0x862
  {
  }

  ghost function HashOf(name: seq<bv8>): bv32 {
    if name == [] then 0 else HashStep(HashOf(name[..|name| - 1]), name[|name| - 1])
  }

  method HashName(name: Name) returns (hash: bv32)
    ensures hash == HashOf(name)
  {
    hash := 0;
    var i := 0;
    while i < |name|
      invariant i <= |name| && hash == HashOf(name[..i])
    {
      assert name[..i + 1][..i] == name[..i];
      hash := HashStep(hash, name[i]);
      i := i + 1;
    }
    assert name[..i] == name;
  }

  lemma CaseBit(c: bv8, d: bv8)
    requires SameLetter(c, d)
    ensures c & 0xDF == d & 0xDF
  {
  }

  /** Names that differ only in case hash alike. */
  lemma {:induction false} SameHash(name1: Name, name2: Name)
    requires SameIgnoringCase(name1, name2)
    ensures HashOf(name1) == HashOf(name2)
    decreases |name1|
  {
    hide HashStep, SameLetter;
    if name1 != [] {
      var n := |name1| - 1;
      SameHash(name1[..n], name2[..n]);
      assert name1[n] & 0xDF == name2[n] & 0xDF by { CaseBit(name1[n], name2[n]); }
      assert HashStep(HashOf(name1[..n]), name1[n]) == HashStep(HashOf(name2[..n]), name2[n]) by {
        StepIgnoresCase(HashOf(name1[..n]), name1[n], name2[n]);
      }
    }
  }

  lemma StepIgnoresCase(hash: bv32, c: bv8, d: bv8)
    requires c & 0xDF == d & 0xDF
    ensures HashStep(hash, c) == HashStep(hash, d)
  {
  }

  // The character at a place, or the zero after the name.
  function CharAt(name: Name, i: nat): bv8
    requires i <= |name|
  {
    if i < |name| then name[i] else 0
  }

  lemma NotZero(name: Name, i: nat)
    requires i < |name|
    ensures Lower(name[i]) != 0
  {
    assert name[i] in name;
  }

  method SameName(name1: Name, name2: Name) returns (same: bool)
    ensures same <==>
              && |name1| == |name2|
              && forall i :: 0 <= i < |name1| ==>
                   || name1[i] == name2[i]
                   || (0x41 <= name1[i] <= 0x5A && name2[i] == name1[i] + 0x20)
                   || (0x41 <= name2[i] <= 0x5A && name1[i] == name2[i] + 0x20)
  {
    same := SameLowered(name1, name2);
    forall i | 0 <= i < |name1| && |name1| == |name2| ensures Lower(name1[i]) == Lower(name2[i]) <==> SameLetter(name1[i], name2[i]) {
      LowerExactly(name1[i], name2[i]);
    }
  }

  // The loop, which compares the characters in lower case.
  method SameLowered(name1: Name, name2: Name) returns (same: bool)
    ensures same <==> |name1| == |name2| && forall i :: 0 <= i < |name1| ==> Lower(name1[i]) == Lower(name2[i])
  {
    hide Lower;
    assert Lower(0) == 0 by { ZeroIsLower(); }
    var i := 0;
    while true
      invariant i <= |name1| && i <= |name2|
      invariant forall j :: 0 <= j < i ==> Lower(name1[j]) == Lower(name2[j])
      decreases |name1| - i
    {
      var c1, c2 := CharAt(name1, i), CharAt(name2, i);
      if i < |name1| { NotZero(name1, i); }
      if i < |name2| { NotZero(name2, i); }
      if c1 != 0 {
        if Lower(c1) != Lower(c2) {
          return false;
        }
      } else if c2 != 0 {
        return false;
      } else {
        return true;
      }
      i := i + 1;
    }
  }

  lemma ZeroIsLower()
    ensures Lower(0) == 0
  {
  }

  class Symbol {
    const name: Name
    const hash: bv32

    constructor (name: Name, hash: bv32)
      ensures this.name == name && this.hash == hash
    {
      this.name, this.hash := name, hash;
    }
  }

  type Chains = seq<seq<Symbol>>

  function Index(hash: bv32, length: nat): (i: nat)
    requires length > 0
    ensures i < length
  {
    (hash as int) % length
  }

  ghost function SymbolsOf(chains: Chains): set<Symbol> {
    set i, j | 0 <= i < |chains| && 0 <= j < |chains[i]| :: chains[i][j]
  }

  // Every symbol has the hash of its name, and is in the chain of its hash.
  ghost predicate InPlace(chains: Chains) {
    && |chains| > 0
    && forall i, j :: 0 <= i < |chains| && 0 <= j < |chains[i]| ==>
         HashOf(chains[i][j].name) == chains[i][j].hash && Index(chains[i][j].hash, |chains|) == i
  }

  ghost predicate NamesDiffer(symbols: set<Symbol>) {
    forall s, t :: s in symbols && t in symbols && SameIgnoringCase(s.name, t.name) ==> s == t
  }

  function PushOn(chains: Chains, i: nat, s: Symbol): Chains
    requires i < |chains|
  {
    chains[i := [s] + chains[i]]
  }

  lemma PushSymbol(chains: Chains, s: Symbol)
    requires InPlace(chains) && s.hash == HashOf(s.name)
    ensures InPlace(PushOn(chains, Index(s.hash, |chains|), s))
    ensures SymbolsOf(PushOn(chains, Index(s.hash, |chains|), s)) == SymbolsOf(chains) + {s}
  {
    hide HashOf;
    var k := Index(s.hash, |chains|);
    var r := PushOn(chains, k, s);
    assert r[k][0] == s;
    forall t | t in SymbolsOf(chains) ensures t in SymbolsOf(r) {
      var i, j :| 0 <= i < |chains| && 0 <= j < |chains[i]| && chains[i][j] == t;
      assert r[i][if i == k then j + 1 else j] == t;
    }
    forall t | t in SymbolsOf(r) ensures t in SymbolsOf(chains) + {s} {
      var i, j :| 0 <= i < |r| && 0 <= j < |r[i]| && r[i][j] == t;
      if !(i == k && j == 0) {
        assert chains[i][if i == k then j - 1 else j] == t;
      }
    }
    forall i, j | 0 <= i < |r| && 0 <= j < |r[i]|
      ensures HashOf(r[i][j].name) == r[i][j].hash && Index(r[i][j].hash, |r|) == i
    {
      if !(i == k && j == 0) {
        assert r[i][j] == chains[i][if i == k then j - 1 else j];
      }
    }
  }

  // A name that no symbol in its chain has, no symbol has.
  lemma NotInChain(chains: Chains, name: Name)
    requires InPlace(chains)
    requires forall s :: s in chains[Index(HashOf(name), |chains|)] ==> !SameIgnoringCase(name, s.name)
    ensures forall s :: s in SymbolsOf(chains) ==> !SameIgnoringCase(name, s.name)
  {
    hide HashOf, SameIgnoringCase;
    forall s | s in SymbolsOf(chains) ensures !SameIgnoringCase(name, s.name) {
      var i, j :| 0 <= i < |chains| && 0 <= j < |chains[i]| && chains[i][j] == s;
      assert s in chains[i];
      if SameIgnoringCase(name, s.name) {
        SameHash(name, s.name);
      }
    }
  }

  // The symbols of the first i chains, and of the first j places of chain i.
  ghost function Visited(chains: Chains, i: nat, j: nat): set<Symbol>
    requires i <= |chains| && (j == 0 || (i < |chains| && j <= |chains[i]|))
  {
    SymbolsOf(if j == 0 then chains[..i] else chains[..i] + [chains[i][..j]])
  }

  lemma VisitNext(chains: Chains, i: nat, j: nat)
    requires i < |chains| && j < |chains[i]|
    ensures Visited(chains, i, j + 1) == Visited(chains, i, j) + {chains[i][j]}
  {
    var after := chains[..i] + [chains[i][..j + 1]];
    assert after[i][j] == chains[i][j];
    forall t | t in Visited(chains, i, j) ensures t in SymbolsOf(after) {
      var before := if j == 0 then chains[..i] else chains[..i] + [chains[i][..j]];
      var a, b :| 0 <= a < |before| && 0 <= b < |before[a]| && before[a][b] == t;
      assert after[a][b] == t;
    }
    forall t | t in SymbolsOf(after) ensures t in Visited(chains, i, j) + {chains[i][j]} {
      var before := if j == 0 then chains[..i] else chains[..i] + [chains[i][..j]];
      var a, b :| 0 <= a < |after| && 0 <= b < |after[a]| && after[a][b] == t;
      if !(a == i && b == j) {
        assert before[a][b] == t;
      }
    }
  }

  lemma VisitChain(chains: Chains, i: nat)
    requires i < |chains|
    ensures Visited(chains, i, |chains[i]|) == Visited(chains, i + 1, 0)
  {
    var l := chains[..i] + [chains[i][..|chains[i]|]];
    assert chains[i][..|chains[i]|] == chains[i] && l == chains[..i + 1];
    if |chains[i]| == 0 {
      forall t | t in SymbolsOf(chains[..i + 1]) ensures t in SymbolsOf(chains[..i]) {
        var a, b :| 0 <= a < i + 1 && 0 <= b < |chains[a]| && chains[a][b] == t;
        assert chains[..i][a][b] == t;
      }
      forall t | t in SymbolsOf(chains[..i]) ensures t in SymbolsOf(chains[..i + 1]) {
        var a, b :| 0 <= a < i && 0 <= b < |chains[a]| && chains[a][b] == t;
        assert chains[..i + 1][a][b] == t;
      }
    }
  }

  /** The table of symbols. */
  class Table {
    var entries: nat
    var threshold: nat
    var table: array<seq<Symbol>>

    ghost function Contents(): set<Symbol>
      reads this, table
    {
      SymbolsOf(table[..])
    }

    ghost predicate Valid()
      reads this, table
    {
      && InPlace(table[..])
      && NamesDiffer(Contents())
      && entries == |Contents()|
      && threshold == table.Length * 3 / 2
      && entries < threshold
    }

    constructor ()
      ensures Valid() && fresh(table) && Contents() == {} && table.Length == 64
    {
      entries := 0;
      threshold := 96;
      table := new seq<Symbol>[64](_ => []);
      new;
      assert SymbolsOf(table[..]) == {};
    }

    // Moves every symbol to its chain in a larger table.
    method RehashTable()
      requires InPlace(table[..])
      modifies this
      ensures fresh(table) && InPlace(table[..]) && Contents() == old(Contents()) && entries == old(entries)
      ensures table.Length == if old(table.Length) < 1024 then 2 * old(table.Length) else old(table.Length) + 1024
      ensures threshold == table.Length * 3 / 2
    {
      hide HashOf;
      var oldTable := table;
      ghost var chains := oldTable[..];
      var newLength := if oldTable.Length < 1024 then oldTable.Length * 2 else oldTable.Length + 1024;
      var newTable := new seq<Symbol>[newLength](_ => []);
      assert SymbolsOf(newTable[..]) == {};
      var i := 0;
      while i < oldTable.Length
        invariant i <= oldTable.Length && oldTable[..] == chains && entries == old(entries)
        invariant newTable.Length == newLength && InPlace(newTable[..])
        invariant SymbolsOf(newTable[..]) == Visited(chains, i, 0)
      {
        MoveChain(oldTable[i], newTable, chains, i);
        VisitChain(chains, i);
        i := i + 1;
      }
      assert chains[..i] == chains;
      table := newTable;
      threshold := newLength * 3 / 2;
    }

    // Moves the symbols of one chain.
    method MoveChain(chain: seq<Symbol>, newTable: array<seq<Symbol>>, ghost chains: Chains, ghost i: nat)
      requires InPlace(newTable[..]) && InPlace(chains) && i < |chains| && chain == chains[i]
      requires SymbolsOf(newTable[..]) == Visited(chains, i, 0)
      modifies newTable
      ensures InPlace(newTable[..]) && SymbolsOf(newTable[..]) == Visited(chains, i, |chain|)
    {
      hide HashOf;
      var j := 0;
      while j < |chain|
        invariant j <= |chain| && InPlace(newTable[..]) && SymbolsOf(newTable[..]) == Visited(chains, i, j)
      {
        var id := chain[j];
        var index := Index(id.hash, newTable.Length);
        ghost var before := newTable[..];
        PushSymbol(before, id);
        newTable[index] := [id] + newTable[index];
        assert newTable[..] == PushOn(before, index, id);
        VisitNext(chains, i, j);
        j := j + 1;
      }
    }

    /** The symbol of that name, made if there is none. */
    method Intern(name: Name) returns (id: Symbol)
      requires Valid()
      modifies this, table
      ensures Valid() && (table == old(table) || fresh(table))
      ensures SameIgnoringCase(name, id.name)
      ensures Contents() == old(Contents()) + {id}
      ensures id !in old(Contents()) ==>
                fresh(id) && id.name == name && forall s :: s in old(Contents()) ==> !SameIgnoringCase(name, s.name)
    {
      hide HashOf, SameIgnoringCase, InPlace, SymbolsOf;
      assert table.Length > 0 by { NotEmpty(table[..]); }
      var hash := HashName(name);
      var index := Index(hash, table.Length);
      var found := FindInChain(table[index], hash, name);
      if found < |table[index]| {
        id := table[index][found];
        assert id in Contents() by { IsSymbol(table[..], index, found); }
        assert Contents() + {id} == Contents();
        return;
      }
      NotInChain(table[..], name) by { NoneInChain(table[..], index, hash, name); }
      id := new Symbol(name, hash);
      AddedName(Contents(), id);
      ghost var before := table[..];
      PushSymbol(before, id);
      table[index] := [id] + table[index];
      assert table[..] == PushOn(before, index, id);
      entries := entries + 1;
      if entries >= threshold {
        RehashTable();
        assert entries < threshold;
      }
    }

    // The place of the symbol in its chain.
    method FindInChain(chain: seq<Symbol>, hash: bv32, name: Name) returns (k: nat)
      ensures k <= |chain| && (k < |chain| ==> SameIgnoringCase(name, chain[k].name))
      ensures forall j :: 0 <= j < k ==> chain[j].hash != hash || !SameIgnoringCase(name, chain[j].name)
    {
      k := 0;
      while k < |chain|
        invariant k <= |chain|
        invariant forall j :: 0 <= j < k ==> chain[j].hash != hash || !SameIgnoringCase(name, chain[j].name)
      {
        if chain[k].hash == hash {
          var same := SameName(name, chain[k].name);
          if same {
            return;
          }
        }
        k := k + 1;
      }
    }
  }

  lemma NotEmpty(chains: Chains)
    requires InPlace(chains)
    ensures |chains| > 0
  {
  }

  lemma IsSymbol(chains: Chains, i: nat, j: nat)
    requires i < |chains| && j < |chains[i]|
    ensures chains[i][j] in SymbolsOf(chains)
  {
  }

  // The search compares names only where the hashes are equal.
  lemma NoneInChain(chains: Chains, i: nat, hash: bv32, name: Name)
    requires InPlace(chains) && hash == HashOf(name) && i == Index(hash, |chains|)
    requires forall j :: 0 <= j < |chains[i]| ==> chains[i][j].hash != hash || !SameIgnoringCase(name, chains[i][j].name)
    ensures forall s :: s in chains[i] ==> !SameIgnoringCase(name, s.name)
  {
    hide HashOf, SameIgnoringCase;
    forall s | s in chains[i] ensures !SameIgnoringCase(name, s.name) {
      var j :| 0 <= j < |chains[i]| && chains[i][j] == s;
      if chains[i][j].hash != hash { DifferentHash(chains, i, j, name); }
    }
  }

  lemma DifferentHash(chains: Chains, i: nat, j: nat, name: Name)
    requires InPlace(chains) && i < |chains| && j < |chains[i]| && chains[i][j].hash != HashOf(name)
    ensures !SameIgnoringCase(name, chains[i][j].name)
  {
    if SameIgnoringCase(name, chains[i][j].name) {
      SameHash(name, chains[i][j].name);
    }
  }

  lemma AddedName(symbols: set<Symbol>, id: Symbol)
    requires NamesDiffer(symbols)
    requires forall s :: s in symbols ==> !SameIgnoringCase(id.name, s.name)
    ensures NamesDiffer(symbols + {id}) && id !in symbols && SameIgnoringCase(id.name, id.name)
  {
    assert SameIgnoringCase(id.name, id.name);
    forall s | s in symbols ensures !SameIgnoringCase(s.name, id.name) {
      SameSymmetric(s.name, id.name);
    }
  }

  lemma SameSymmetric(a: Name, b: Name)
    ensures SameIgnoringCase(a, b) <==> SameIgnoringCase(b, a)
  {
  }

  lemma SameTransitive(a: Name, b: Name, c: Name)
    requires SameIgnoringCase(a, b) && SameIgnoringCase(b, c)
    ensures SameIgnoringCase(a, c)
  {
  }

  lemma SameNames(names: seq<Name>)
    ensures forall i, j :: 0 <= i < |names| && 0 <= j < |names| ==>
              (SameIgnoringCase(names[i], names[j]) <==>
                && |names[i]| == |names[j]|
                && forall k :: 0 <= k < |names[i]| ==>
                     || names[i][k] == names[j][k]
                     || (0x41 <= names[i][k] <= 0x5A && names[j][k] == names[i][k] + 0x20)
                     || (0x41 <= names[j][k] <= 0x5A && names[i][k] == names[j][k] + 0x20))
  {
  }

  // In a table in which the names differ.
  lemma SymbolsAgree(symbols: set<Symbol>, s: Symbol, t: Symbol, a: Name, b: Name)
    requires NamesDiffer(symbols) && s in symbols && t in symbols
    requires SameIgnoringCase(a, s.name) && SameIgnoringCase(b, t.name)
    ensures s == t <==> SameIgnoringCase(a, b)
  {
    hide SameIgnoringCase;
    SameSymmetric(b, t.name);
    SameSymmetric(a, s.name);
    if s == t {
      SameTransitive(a, s.name, b);
    }
    if SameIgnoringCase(a, b) {
      SameTransitive(s.name, a, b);
      SameTransitive(s.name, b, t.name);
    }
  }

  /** A run of calls: two of them give the same symbol exactly if their names differ only in case. */
  method InternAll(table: Table, names: seq<Name>) returns (ids: seq<Symbol>)
    requires table.Valid()
    modifies table, table.table
    ensures table.Valid() && old(table.Contents()) <= table.Contents()
    ensures |ids| == |names| && forall i :: 0 <= i < |ids| ==> ids[i] in table.Contents()
    ensures forall i, j :: 0 <= i < |ids| && 0 <= j < |ids| ==>
              (ids[i] == ids[j] <==>
                && |names[i]| == |names[j]|
                && forall k :: 0 <= k < |names[i]| ==>
                     || names[i][k] == names[j][k]
                     || (0x41 <= names[i][k] <= 0x5A && names[j][k] == names[i][k] + 0x20)
                     || (0x41 <= names[j][k] <= 0x5A && names[i][k] == names[j][k] + 0x20))
  {
    hide HashOf, SameIgnoringCase, InPlace;
    ids := [];
    while |ids| < |names|
      invariant |ids| <= |names| && table.Valid() && old(table.Contents()) <= table.Contents()
      invariant table.table == old(table.table) || fresh(table.table)
      invariant forall i :: 0 <= i < |ids| ==> ids[i] in table.Contents() && SameIgnoringCase(names[i], ids[i].name)
    {
      var id := table.Intern(names[|ids|]);
      ids := ids + [id];
    }
    forall i, j | 0 <= i < |ids| && 0 <= j < |ids|
      ensures ids[i] == ids[j] <==> SameIgnoringCase(names[i], names[j])
    {
      SymbolsAgree(table.Contents(), ids[i], ids[j], names[i], names[j]);
    }
    SameNames(names);
  }
}
