# Mindy, verified

Mindy compiles Dylan programs to byte code and interprets them. This project models the parts of
it where being right is hardest: the copying garbage collector, class precedence lists, generic
dispatch and its cache, the operator-series and conditional expanders, symbol interning, and the
compiler from environment analysis down to the bytes, together with the machine that executes
them. Objects that the C code updates in place are classes here, loops are loops, and every method
is proved against a specification whose own properties are proved as lemmas.

`dafny verify dfyconfig.toml` checks everything.

## The parts

**The garbage collector** (`Memory`, `Space`, `Copying`, `Collection`, `Heap`). Memory maps
addresses to words; a heap is a graph of objects whose classes, themselves objects, give their size
and their reference slots. A collection copies what the roots lead to from one chain of blocks to
another, leaving forwarding pointers in the old objects, and scans the new chain while it grows.
`CollectGarbage` promises the whole result: the copies are an isomorphic image of exactly the
reachable objects, cycles and classes of classes included; every live slot has been scavenged once
and no other word has; whatever is not marked as forwarded was garbage; no block is lost; usage
does not grow. It promises so exactly if some root holds a pointer: otherwise nothing is copied, and
the scan has no block to start with.

**Precedence lists** (`Linearization`, `ClassTable`). The lists are specified by the constraints
that the classes involved impose and by the rule that decides ties. The counted topological sort
computes the one list that the specification allows, and reports an inconsistency exactly if the
constraints have no solution. A class left without a list that way stays in the table, and the
shortcut for a single superclass goes wrong with it.

**Dispatch** (`Types`, `Specificity`, `Dispatch`, `Narrowing`, `Reordering`, `Staleness`, `Misdispatch`,
`GenericFunction`). Specificity is
the product order of positions in precedence lists. An ambiguity is marked in the result exactly if
there is one, and a method that is more specific than all others always comes first. Cache entries are keyed by types narrowed
during the sort that filled them. Over any run of calls, additions and removals, the cached answer
is the one the sort over the current methods gives. That needs the hierarchy to keep the order of
the precedence lists of superclasses in those of subclasses, and `EntriesRightExactly` shows that
this is exactly what it needs: in every other hierarchy there are methods and calls for which a
remembered result is wrong. `Reordering` has such a hierarchy, with the lists that the class table
computes for it. When classes are added later, remembered results stay right exactly if no two of
the old classes get their first common subclass (`Staleness`).

**Expansion** (`BinopSeries`, `Syntax`, `Duplication`, `IfExpansion`). The shift/reduce loop
builds the only tree that reads as the series and respects the operator table, whatever the table.
Expanding conditionals, `&` and `|` keeps values, effects, their order, and exits; it ends, by a
measure in which a condition counts once for every arm it will be copied in front of, and leaves
nothing to expand. Arms of one expression become conditions without a body around them, so a condition
that has been distributed may be rewritten again; copies of arms are unwrapped in the same way.

**For loops** (`ForLoop`, `ForScopes`). What the clauses of a loop come to, and its `until`, body, steps and
`finally`, is put together to the loop that the rest of the compiler sees. That loop repeats only
where the compiler can let it, and does round by round what a `for` loop is to do, `finally` last.
The values for the next round are worked out inside the scope of what the body binds, because that
is where the expander puts them; `ForScopes` shows when that makes no difference, and a loop for
which it does.

**Magic functions** (`MagicNames`). Calls of `+`, `<`, `values` and the like are told by the name.

**Symbols** (`Symbols`). A chained hash table, with rehashing: two names give the same symbol
exactly if they differ in nothing but case.

**The compiler** (`Programs`, `Growth`, `Analysis`, `Bytecode`, `Component`, `Codegen`,
`StackDepth`, `Compiler`). `Programs` says what it means for the notes of environment analysis to
be right; `Analysis` produces such notes and changes nothing else. `Codegen` gives the code of a
program as a function; the methods of `Compiler` emit it byte by byte into blocks, patching
branches, and produce exactly its encoding. `StackDepth` shows that all paths through the code
agree on the depth of the stack everywhere. `Bytecode` shows that the interpreter reads back
what was emitted, and so does the disassembler, but for one kind of instruction. `Opcodes` has what
each opcode does by its number, and `Listings` the code of a few methods.

**What compiled programs do** (`Semantics`, `Arguments`, `Slots`, `Relation`, `Variables`, `Boxing`, `Machine`,
`Execution`, `Correctness`, `Assumptions`, `Plain`, `Erasure`, `WholeProgram`, `Surprises`).
`Semantics` evaluates a program in environments that closures share, and `Arguments` says what
variables get from arguments and values. `Slots` evaluates it the way the compiler arranges it: slots of frames, copies of
slots in closures, and value cells. `Machine` executes byte code on a stack. `Boxing` relates the
first two, `Correctness` the last two, and `WholeProgram` puts them together: whenever a program
returns, its byte code returns too, with values, global variables and a world that look the same.
It also fails where the program fails, with the same world and global variables that look the same,
and goes on where the program goes on, if the program is tame: it assigns nothing but methods to
its local methods, and never calls what a call of `values` or an assignment gives. `Assumptions`
shows that a tame program keeps what the compiler takes for granted, and `Surprises` has a program
of each kind that is not tame, with what becomes of it. `Erasure` shows that notes do not matter to the
meaning, so all this is about the program as it was written.

## Where the code does not do what it seems to promise

- The disassembler looks for the number of wanted values of a call before the repeated opcode,
  the interpreter after it. The disassembly of a call for many values with fifteen or more arguments is wrong
  unless that number happens to be the opcode (`Bytecode.DisassemblesExactly`,
  `Bytecode.LongCallMisread`).
- A cached dispatch result can be wrong when a subclass reverses the order of two superclasses in
  the precedence list of its superclass (`Narrowing.ReorderedEntryWrong`). The direct superclasses
  `[]`, `[0]`, `[]`, `[1, 2]` and `[3, 2, 0]` make such a hierarchy (`Reordering.TwistedEntryWrong`).
- Which methods are ambiguous is forgotten when later ones drive them out of the list: a method can come
  first, and be called, although another one that applies is as specific (`Misdispatch.AmbiguityForgotten`,
  with four methods) or even more specific (`Misdispatch.LessSpecificCalled`, with seven). It does not happen
  where one method is more specific than all others (`Dispatch.MostSpecificFirst`) or no two are ambiguous
  (`Dispatch.AmbiguityMarked`, `Dispatch.SortSorts`).
- A class whose precedence list is inconsistent has its superclasses all the same, so that it passes
  for initialized. A class that has it as its only superclass is not reported as inconsistent: the
  code takes a list that was never set for the rest of its own (`ClassTables.ClassTable.SetupClassSupers`
  says when, `ClassTables.InheritFromStuck` is an instance, `ClassTables.OnlySuperStuck` says what
  should have come).
- The collector starts its scan at the first block of the new space without asking whether there is
  one. It succeeds if and only if a root holds a pointer (`Heaps.Heap.CollectGarbage`); in a heap
  without roots it fails (`Heaps.CollectNewHeap`).
- The compiler takes a local method for a function without a check, also where the program has
  assigned something else to its name. `local method f () #f end; f := 3; f()` is an error that the
  byte code does not notice (`Surprises.AssignedLocalMethod`).
- Where what a call of `values` gives is called in turn, its first argument is checked to be a function
  before the other arguments are evaluated. A call of `values(3, for (;;) end)` fails at once
  instead of not ending (`Surprises.HastyCall`).
- Where an assigned value is called, it is checked to be a function before it is assigned.
  `(g := 3)()` fails without having assigned `g` (`Surprises.LateAssignment`).
- Programs that do none of the three fail and go on exactly as they should
  (`WholeProgram.TameProgramRuns`). That a program is one of them can be read off its text; which of
  the others get away with it depends on what they do when they run.
- A call of a magic function is told by its name, also where the name is bound to something else. The
  compiler reads a program as scoping says if and only if no such name is called where it is bound
  (`MagicNames.ReadRightly`); `let \+ = values; 1 + 2` is an addition (`MagicNames.LocalPlus`).
- A class that is added later empties no cache. If it is the first common subclass of two classes,
  a method on one of them can be forgotten for its instances (`Staleness.EntriesStayRightExactly`,
  `Staleness.NewSubclassForgotten`).
- In a `for` loop, a variable that the body binds captures the same name in the values for the
  next round (`ForScopes.CapturedStep`); without such names nothing changes (`ForScopes.ScopesAlike`).

## Model

| member | source | states |
|---|---|---|
| Heaps.Heap.GrowSpace | mindy/interp/gc.c:254-292 | The space gets an empty block that no space had, its closed blocks account for what was in use, and a collection becomes due only if that passes the trigger. |
| Heaps.Heap.RawAlloc | mindy/interp/gc.c:294-321 | Allocation fails exactly for objects larger than a block; otherwise it adds one object of the rounded size after all others and moves none of them. |
| Heaps.Heap.Alloc | mindy/interp/gc.c:323-363 | A new object takes nobody's words: only its class word is written, and a failed allocation changes nothing. |
| Heaps.Heap.BytesInUse | mindy/interp/gc.c:191-198 | Usage is the sum of the rounded object sizes, and while no collection is due it stays within the trigger plus one block. |
| Spaces.UsedCoversClosed | mindy/interp/gc.c:191-198 | What is in use lies between the closed blocks and one block more. |
| Heaps.Heap.Scavenge | mindy/interp/gc.c:389-406 | A slot not done before is made to point to the copy of its target; the collection invariant holds again and the slot is recorded as done. |
| Heaps.Heap.Transport | mindy/interp/gc.c:408-456 | An object is copied once, to fresh words, and forwarded; copying never fails to find room. |
| Copying.TransportKeepsInv | mindy/interp/gc.c:408-456 | Copying one more live object keeps all that is known of old objects, copies and live words. |
| Copying.ForwardKeepsInv | mindy/interp/gc.c:389-406 | Redirecting a pending slot keeps it too. |
| Heaps.Heap.ScavengeRefList | mindy/interp/gc.c:458-464 | All slots of a list, each of them once and in order. |
| Collection.NextSlotsPending | mindy/interp/gc.c:489-501 | When the scan reaches a copy, none of its slots has been scavenged yet and none occurs twice. |
| Spaces.ScanPasses | mindy/interp/gc.c:485-503 | Passing one object leads to the next one of its block, or to the end of the block. |
| Heaps.Heap.ScanBlock | mindy/interp/gc.c:485-504 | A block that grows under the scan is still scanned to the end it has by then. |
| Heaps.Heap.ScavengeSpace | mindy/interp/gc.c:473-517 | The scan ends, having visited every copy, also those made meanwhile. |
| Collection.EachSlotOnce | mindy/interp/gc.c:473-517 | What has been scavenged is, without repetition, exactly the roots and the slots of the copies. |
| Collection.CopyIsIsomorphic | mindy/interp/gc.c:389-517 | After the scan the copies are an isomorphic image of exactly the reachable objects, roots point to images, and an old object is unmarked exactly if it was unreachable. |
| Collection.CopiesDiffer | mindy/interp/gc.c:408-456 | Different objects have different copies. |
| Collection.NewHeapIsGood | mindy/interp/gc.c:389-517 | The copies form a well-formed heap again: disjoint objects, references only to each other. |
| Collection.NoGrowth | mindy/interp/gc.c:408-456 | At every point the copies take no more room than the old objects did. |
| Heaps.Heap.ReleaseOldSpace | mindy/interp/gc.c:626-640 | All blocks of the old space become free, and none is lost or in two places. |
| Heaps.Heap.CollectGarbage | mindy/interp/gc.c:519-676 | A collection succeeds if and only if a root holds a pointer. Then: isomorphic image of the reachable graph, every live slot scavenged exactly once, garbage told from live objects, usage not increased, the trigger set, and a heap ready for the next run. |
| Heaps.CollectNewHeap | mindy/interp/gc.c:519-601 | A heap without roots cannot be collected. |
| Collection.NothingCopied | mindy/interp/gc.c:599-604 | If no root holds a pointer, the new space has no block when the scan is to start with its first one. |
| Heaps.Heap.ObjectCollected | mindy/interp/gc.c:681-689 | After the scan, says exactly of the unreachable objects of the old space that they are collected. |
| ClassTables.ClassTable.ComputeCpd | mindy/interp/class.c:151-177 | Exploring a class adds everything above it, and exactly the constraints that those classes impose, to the graph. |
| ClassTables.ClassTable.FindCpd | mindy/interp/class.c:179-188 | A class is explored once, however often it is reached. |
| ClassTables.ClassTable.TieBreaker | mindy/interp/class.c:190-203 | The search always finds a candidate, and it is the one that the rule of the most recently placed class demands. |
| Linearization.ChoiceUnique | mindy/interp/class.c:190-203 | At a tie the rule chooses one class only, so the order of the candidates does not matter. |
| Linearization.ChoiceExists | mindy/interp/class.c:190-203 | As long as anything is eligible the rule chooses something: the impossible case is impossible. |
| ClassTables.ClassTable.RemoveEdges | mindy/interp/class.c:225-238 | After a class has been placed, the counts are again those of the constraints left, and the candidates are again the eligible classes. |
| ClassTables.ClassTable.SlowComputeCpl | mindy/interp/class.c:205-242 | The sort returns what the rule prescribes, or reports that it gets stuck. |
| Linearization.PrecedenceListUnique | mindy/interp/class.c:205-242 | The rule prescribes one result for a class. |
| Linearization.PrecedenceListCorrect | mindy/interp/class.c:205-242 | The list starts with the class, has every superclass once, and meets every constraint; there is one exactly if the constraints have any solution. |
| Linearization.NoListBelow | mindy/interp/class.c:205-242 | Below a class without a precedence list there is none either. |
| Linearization.ShortcutCorrect | mindy/interp/class.c:244-252 | With one direct superclass, the class followed by the list of the superclass is what the full sort would give. |
| ClassTables.ClassTable.ComputeCpl | mindy/interp/class.c:244-252 | With or without the shortcut, the result is the precedence list. |
| ClassTables.ClassTable.SetupClassSupers | mindy/interp/class.c:257-299 | A class is added, with a list if and only if some order meets the constraints; superclasses learn of it, or the stated reason to refuse it holds. A class without a list keeps its superclasses, and exactly a class that has it as its only superclass gets past the checks to a list that is not there. |
| ClassTables.OnlySuperStuck | mindy/interp/class.c:244-252 | A class whose only superclass has no list cannot have one: it should have been reported as inconsistent. |
| ClassTables.InheritFromStuck | mindy/interp/class.c:257-299 | Three classes, of which the last gets to the missing list. |
| Types.SubtypeSound | mindy/interp/type.c:209-472 | The subtype test never claims a subtype that has an instance outside. |
| Types.SubtypeExactly | mindy/interp/type.c:209-472 | For classes and singletons the subtype test holds if and only if all instances of the one are instances of the other. |
| Types.OverlapExactly | mindy/interp/type.c:477-634 | The overlap test holds if and only if there can be a common instance. |
| Types.OverlapComplete | mindy/interp/type.c:477-634 | The overlap test never misses a common instance. |
| Types.RestrictTypeMeaning | mindy/interp/type.c:910-925 | Restriction takes away exactly the instances of the excluded type. |
| Types.TableListsGood | mindy/interp/class.c:205-299 | The lists of a class table meet what dispatch expects of a hierarchy, even if some class was left without one. |
| Types.PrecedenceListsGood | mindy/interp/class.c:205-252 | The same where every class has its list. |
| Specificity.CompareMethods | mindy/interp/func.c:615-680 | The comparison by subtype tests and list scans is the product order of the positions of the specializers. |
| Specificity.SubtypeIsRank | mindy/interp/func.c:629-664 | For specializers that both apply, the subtype tests agree with positions in the precedence list, and only classes are left undecided. |
| Dispatch.SortSorts | mindy/interp/func.c:1253-1325 | Without ambiguities the sort returns every applicable method once, from most to least specific. |
| Dispatch.SortOrderIndependent | mindy/interp/func.c:1253-1325 | ... whatever order the methods were added in. |
| Dispatch.SortUnique | mindy/interp/func.c:1253-1325 | There is only one such order. |
| Dispatch.ComparesExactly | mindy/interp/func.c:615-680 | One method is more specific than another exactly if their specializers differ and each is the same, a singleton, or earlier in the precedence list of the argument's class; they are ambiguous exactly if neither is so. |
| Dispatch.SortKeepsOrder | mindy/interp/func.c:1253-1325 | For all calls and methods, what comes before the mark is in the order of specificity, and without a mark nothing is missing. |
| Dispatch.AmbiguityMarked | mindy/interp/func.c:1276-1281 | The result has a mark if and only if two applicable methods are ambiguous. |
| Dispatch.MostSpecificFirst | mindy/interp/func.c:1253-1325 | A method that is more specific than all others comes first, whatever else is ambiguous. |
| Misdispatch.AmbiguityForgotten | mindy/interp/func.c:1285-1319 | Four methods of which one comes first that is ambiguous with another. |
| Misdispatch.LessSpecificCalled | mindy/interp/func.c:1276-1319 | Seven methods of which one comes first that is less specific than another. |
| GenericFunctions.NeverIdentical | mindy/interp/func.c:1285-1319 | Methods with different specializers never compare as identical, so that failure cannot happen. |
| GenericFunctions.InsertMethod | mindy/interp/func.c:1265-1319 | One applicable method is put in its place among the ordered and the ambiguous ones. |
| GenericFunctions.SlowSortedApplicableMethods | mindy/interp/func.c:1253-1325 | The loops return the specified sort, and an entry whose types are those the tests narrowed. |
| GenericFunctions.ApplicableNarrowing | mindy/interp/func.c:418-469 | Says whether the method applies, and narrows the types of the entry without losing the call at hand. |
| Narrowing.NarrowFromMeaning | mindy/interp/func.c:418-469 | The method applies to every call that fits the narrowed types, or to none of them. |
| Narrowing.EntryIsRight | mindy/interp/func.c:1253-1367 | All calls that fit an entry sort the methods alike, in an order-preserving hierarchy. |
| Narrowing.EntriesRightExactly | mindy/interp/func.c:1327-1367 | Entries are right for all methods and calls if and only if every class keeps the order of its superclasses' lists. |
| Narrowing.ReorderedEntryWrong | mindy/interp/func.c:1327-1367 | In every hierarchy that reverses two classes of a list in the list of a subclass, three methods and two calls for which the remembered answer is wrong. |
| Reordering.TwistedLists | mindy/interp/class.c:205-242 | The precedence lists of five classes of which the last reverses an order that its superclass has. |
| Reordering.TwistedEntryWrong | mindy/interp/func.c:1327-1367 | In that hierarchy the entry made by a call with an instance of one class gives the wrong order for an instance of a subclass. |
| Staleness.EntriesStayRightExactly | mindy/interp/class.c:257-299 | Entries made before classes were added are right for all methods and calls afterwards if and only if no two old classes get their first common subclass. |
| Staleness.NewSubclassForgotten | mindy/interp/func.c:418-469 | Two classes, and then a subclass of both for whose instances the remembered answer lacks a method. |
| GenericFunctions.EntryMatches | mindy/interp/func.c:1327-1352 | The lookup test, quick for simple entries, accepts exactly the calls the types describe. |
| GenericFunctions.GenericFunction.SortedApplicableMethods | mindy/interp/func.c:1327-1367 | Whatever is remembered, dispatch returns the sort of the current methods, with a mark exactly if two of them are ambiguous, and the most specific one first if there is one; the entry used moves to the front and no other is lost. |
| GenericFunctions.HaveSameSpecializers | mindy/interp/func.c:592-608 | Specializers that are subtypes of each other are the same. |
| GenericFunctions.GenericFunction.ReallyAddMethod | mindy/interp/func.c:1526-1545 | A method takes the place of the one with its specializers, or is new; nothing remembered survives. |
| GenericFunctions.GenericFunction.AddMethod | mindy/interp/func.c:1547-1622 | A method is added exactly if it has as many specializers as the generic function and all instances of each are instances of the one there; otherwise the first offender is named and nothing changes. |
| GenericFunctions.GenericFunction.RemoveMethod | mindy/interp/func.c:1830-1847 | Exactly that method goes, if it is there, and the cache is emptied in any case. |
| GenericFunctions.CachedMethod.ApplicableMethodP | mindy/interp/func.c:471-515 | What a method remembers of its last call never changes the answer. |
| BinopSeries.ExpandBinopSeries | mindy/comp/expand.c:2124-2181 | The loop builds a tree that reads as the series and respects precedence and associativity everywhere. |
| BinopSeries.TreeUnique | mindy/comp/expand.c:2124-2181 | There is only one such tree. |
| BinopSeries.BinopTable.LookupBinopInfo | mindy/comp/info.c:53-61 | The newest entry of the name counts; an unknown operator binds least and to the left. |
| BinopSeries.BinopTable.PushBinopInfo | mindy/comp/info.c:63-72 | A new entry decides about its name and no other. |
| BinopSeries.InitInfo | mindy/comp/info.c:108-126 | The table the compiler starts with: from `:=` over disjunctions, conjunctions, comparisons, sums and products up to powers, with only `:=`, `\|`, `&` and `^` to the right, and all other names weakest and to the left. |
| BinopSeries.StrongerFirst | mindy/comp/info.c:108-126 | With that table, of two operators of different strength the stronger one takes the operand between them. |
| BinopSeries.ProductsFirst | mindy/comp/info.c:121-124 | Products are operands of sums, before and after. |
| BinopSeries.GroupsBySide | mindy/comp/info.c:108-126 | Sums, products and comparisons group to the left, powers, conjunctions, disjunctions and assignments to the right. |
| BinopSeries.AssociativityByLevel | mindy/comp/info.c:108-126 | In that table, operators of one level associate alike. |
| Duplication.DupCopies | mindy/comp/dup.c:172-409 | A copy has no body of one expression where the expression could stand, and it is the same tree exactly if the original had none. |
| Duplication.DupCopyable | mindy/comp/dup.c:172-409 | Copying is refused exactly for trees with a part that cannot be copied. |
| Duplication.DupByKind | mindy/comp/dup.c:172-409 | Which kinds can be copied if their parts can, and which cannot. |
| Duplication.DupSame | mindy/comp/dup.c:224-232 | A copy means the same. |
| IfExpansion.DupWeight | mindy/comp/dup.c:224-232 | A copy weighs the same and mentions no other names, so it changes nothing for the end of the expansion. |
| Duplication.DupBodyCopies | mindy/comp/dup.c:414-448 | The same for bodies. |
| IfExpansion.KnownCondition | mindy/comp/expand.c:2256-2277 | A literal condition selects its arm, bare if it is one expression. |
| IfExpansion.MakeBodyExprMeans | mindy/comp/src.c:1116-1135 | A body made an expression, without its wrapping if it has one constituent, means and weighs what it did. |
| IfExpansion.KnownArms | mindy/comp/expand.c:2279-2330 | A condition whose arms are both literals can be replaced in each of the four cases without a change of meaning. |
| IfExpansion.Distributes | mindy/comp/expand.c:2331-2345 | Pushing the outer arms and their copies into the arms of the condition, which become conditions themselves, keeps the meaning and weighs less. |
| IfExpansion.AndMeans | mindy/comp/expand.c:2575-2595 | One step of & keeps its meaning and weighs less. |
| IfExpansion.OrMeans | mindy/comp/expand.c:2597-2626 | One step of \| keeps its meaning although it names a value, and weighs less. |
| Syntax.AndOfValues | mindy/comp/expand.c:2575-2595 | What & gives for any values. |
| Syntax.OrOfValues | mindy/comp/expand.c:2597-2626 | What \| gives for any values. |
| IfExpansion.Expander.NestedIf | mindy/comp/expand.c:2256-2347 | All cases for a condition and arms that have been expanded: same meaning, and either done or lighter. |
| IfExpansion.Expander.ExpandIf | mindy/comp/expand.c:2244-2347 | One expansion of a conditional keeps its meaning, and asks for another only if it got lighter. |
| IfExpansion.Expander.ExpandExpr | mindy/comp/expand.c:2408-2415 | Expansion ends, means the same in every environment and world, and leaves nothing to expand. |
| IfExpansion.Expander.ExpandBody | mindy/comp/expand.c:2420-2436 | The same for bodies; an empty one becomes false. |
| ForLoops.ForWellLooped | mindy/comp/expand.c:1967-2022 | Every loop that the for expander makes, with or without tests, until, body, steps and finally, repeats only where nothing of the round is on the stack. |
| ForLoops.ForShape | mindy/comp/expand.c:1684-1700 | The whole expansion of a loop with one part of each kind. |
| ForLoops.LoopMeans | mindy/comp/expand.c:1684-1700 | The loop does the rounds of a for loop: tests, variables, body and steps until a test is true, and finally the last part once. |
| ForLoops.ForMeans | mindy/comp/expand.c:1967-2022 | A for loop and its whole expansion mean the same. |
| ForScopes.ScopesAlike | mindy/comp/expand.c:1730-1765 | If the steps mention no name that the body binds at its top, and make no methods, the loop does what it would with the steps outside the body. |
| ForScopes.CapturedStep | mindy/comp/expand.c:1730-1765 | A loop that ends because its body captures a name, and would not end otherwise. |
| MagicNames.ReadRightly | mindy/comp/src.c:612-630 | Telling magic functions by name finds the calls that scoping allows if and only if no such name is called where it is bound. |
| MagicNames.KindsOfCalls | mindy/comp/compile.c:1265-1298 | Which names, with how many arguments, are taken for magic functions. |
| MagicNames.LocalPlus | mindy/comp/src.c:612-630 | A call of a local `+` that is compiled as an addition. |
| MagicNames.AnalyzeSource | mindy/comp/src.c:612-630 | A program without such calls does what scoping says it means. |
| Symbols.HashName | mindy/comp/sym.c:94-103 | The loop computes the hash that SameHash is about. |
| Symbols.SameHash | mindy/comp/sym.c:94-123 | Names that differ only in case hash alike. |
| Symbols.SameName | mindy/comp/sym.c:105-123 | The comparison accepts exactly the names of one length that have at each place the same byte or the two cases of one letter from A to Z. |
| Symbols.Table.RehashTable | mindy/comp/sym.c:125-158 | Every symbol is in the chain of its hash in the larger table, none is lost or added. |
| Symbols.Table.Intern | mindy/comp/sym.c:160-182 | Returns a symbol of that name up to case; it is new only if there was none. |
| Symbols.InternAll | mindy/comp/sym.c:160-187 | Over any run of calls, two return the same symbol if and only if their names have at each place the same byte or the two cases of one letter. |
| Bytecode.FourBytesRead | mindy/interp/debug.c:1997-2000 | The four bytes of a C int, also a negative one, read back as that int. |
| Bytecode.DisassembleOp | mindy/interp/debug.c:2002-2126 | The loop over the format of an instruction computes the line that the round trip is about. |
| Bytecode.DisassemblesExactly | mindy/interp/debug.c:2002-2126 | The disassembler shows an instruction as it was emitted, and goes on with the next, if and only if it is not a misread long call. |
| Bytecode.LongCallMisread | mindy/comp/compile.c:135-150 | A call that is misread. |
| Bytecode.DisassemblyRoundTrip | mindy/interp/debug.c:2002-2126 | The listing of code without misread long calls shows its instructions, operands and branch targets. |
| Bytecode.ExecutesAsEmitted | mindy/interp/interp.c:68-93 | The interpreter reads every instruction, long calls included, as it was emitted. |
| Opcodes.StepByNumber | mindy/interp/interp.c:95-675 | For every instruction and stack, the machine does what the interpreter does for the number of the opcode. |
| Opcodes.OperatorNumbers | mindy/comp/byteops.h:69-77 | The opcode of each magic function, by name. |
| Opcodes.EncodingExamples | mindy/comp/compile.c:112-150 | Bytes of operands on either side of each limit. |
| Listings.ConditionalListed | mindy/comp/compile.c:491-604 | The code of a conditional with a call, in order. |
| Listings.LetListed | mindy/comp/compile.c:831-854 | The code of a let of several values and of an assignment, in order. |
| Bytecode.ReturnFindsCall | mindy/interp/interp.c:787-812 | The byte before the return address tells calls for one value from calls for many, however long the operand. |
| Components.Component.CurrentPosition | mindy/comp/compile.c:72-78 | The position is the number of bytes in all blocks. |
| Components.Component.GrowComponent | mindy/comp/compile.c:80-100 | A new block adds no byte. |
| Components.Component.EmitByte | mindy/comp/compile.c:102-108 | Appends one byte to the code, across block boundaries. |
| Components.Component.ReserveSpace | mindy/comp/compile.c:167-178 | The bytes left free follow the code and lie in one block. |
| Components.Component.WriteBranchDisplacement | mindy/comp/compile.c:180-189 | Overwrites exactly the bytes that were left free, whatever has been emitted since. |
| Components.Component.EmitOpAndArg | mindy/comp/compile.c:120-133 | Appends the short, the byte or the long form of an operand. |
| Components.Component.EmitCallOpAndArg | mindy/comp/compile.c:135-150 | The same for calls, with the opcode repeated. |
| Analysis.Analyzer.FindAndMaybeCloseOver | mindy/comp/envanal.c:49-95 | A reference gets the binding that lexical scoping selects; if it belongs to an outer method, every method on the way closes over it, once, and knows where its parent has it. |
| Analysis.Analyzer.CloseOver | mindy/comp/envanal.c:66-92 | The loop up to the home of the binding. |
| Analysis.Analyzer.AnalyzeMethod | mindy/comp/envanal.c:98-136 | All notes on the method are right, slots of parameters included, and the program is otherwise unchanged. |
| Analysis.Analyzer.AnalyzeVarset | mindy/comp/envanal.c:222-241 | An assigned binding is marked as such before its code is generated. |
| Analysis.Analyzer.AnalyzeLet | mindy/comp/envanal.c:369-401 | The variables get consecutive slots in a frame with room for them. |
| Analysis.BodyEnvGood | mindy/comp/envanal.c:98-136 | In the body of a method no two bindings of the method in scope share a slot. |
| Analysis.LetEnvGood | mindy/comp/envanal.c:331-401 | Nor do they inside a let or after local methods. |
| Compilers.Compiler.CanonicalizeValue | mindy/comp/compile.c:191-201 | Emits what turns one value into what is wanted. |
| Compilers.Compiler.FindVariableIndex | mindy/comp/compile.c:227-257 | A global variable has one constant, added at its first use. |
| Compilers.Compiler.CompileVarref | mindy/comp/compile.c:405-438 | Emits the encoding of the specified code of a reference. |
| Compilers.Compiler.CompileLiteral | mindy/comp/compile.c:440-489 | ... of a literal. |
| Compilers.Compiler.CompileCall | mindy/comp/compile.c:491-515 | ... of a call. |
| Compilers.Compiler.CompileDot | mindy/comp/compile.c:534-553 | ... of a call with a dot. |
| Compilers.Compiler.CompileIf | mindy/comp/compile.c:576-604 | Branches patched after the fact are those of the specified code, in tail position and not. |
| Compilers.Compiler.CompileVarset | mindy/comp/compile.c:620-670 | ... of an assignment. |
| Compilers.Compiler.CompileValuesCall | mindy/comp/compile.c:1189-1238 | ... of a call of values. |
| Compilers.Compiler.CompileBinaryCall | mindy/comp/compile.c:1098-1117 | ... of a magic function. |
| Compilers.Compiler.CompileMethodRef | mindy/comp/compile.c:357-400 | ... that pushes the closed-over slots and makes a method. |
| Compilers.Compiler.CompileLet | mindy/comp/compile.c:831-854 | ... of a let. |
| Compilers.Compiler.CompileLocal | mindy/comp/compile.c:768-807 | ... of local methods. |
| Compilers.Compiler.CompileBody | mindy/comp/compile.c:903-911 | ... of a body. |
| Compilers.Compiler.CompileMethod | mindy/comp/compile.c:916-978 | The component of a method holds the encoding of its specified code, and its constants. |
| StackDepth.GenDisciplined | mindy/comp/compile.c:405-698 | The code of every expression, for everything that can be wanted, has one depth before each instruction on all paths, ends with what is wanted on top or returns, and branches only to instructions of equal depth. |
| StackDepth.IfMeets | mindy/comp/compile.c:576-604 | Both arms of a conditional end at the depth that follows it. |
| StackDepth.MethodDisciplined | mindy/comp/compile.c:916-978 | The component of a method starts with nothing on the stack and every path ends in a return. |
| Variables.BoxParamsSim | mindy/comp/compile.c:947-962 | Once parameters that need it are in value cells, the frame has every variable of the method. |
| Variables.PopAllSim | mindy/comp/compile.c:831-854 | The same for the variables of a let, |
| Variables.MakeCellsSim | mindy/comp/compile.c:776-789 | and for those of local methods before the methods are made. |
| Boxing.ReadSim | mindy/comp/compile.c:405-438 | A reference reads, from a slot, a copied slot or a cell, the value of the variable that scoping selects. |
| Boxing.WriteSim | mindy/comp/compile.c:620-670 | An assignment is seen by everybody who shares the variable, and changes no other. |
| Boxing.TakenSim | mindy/comp/compile.c:368-385 | The slots a new method takes with it hold the variables it closes over, each in its place. |
| Arguments.ParamsExactly | mindy/interp/func.c:342-400 | Required parameters get the first arguments in order, the rest parameter a vector of all others, and each keyword parameter the value after the first place that holds its keyword, or its default. |
| Arguments.RefusedExactly | mindy/interp/func.c:363-400 | Calls are refused exactly for too few arguments, too many, or an odd number with keywords. |
| Arguments.CallBinds | mindy/interp/func.c:363-400 | In the body of a called method each parameter stands for what it gets, and all other names for what they did where the method was made. |
| Arguments.LetBinds | mindy/comp/compile.c:831-854 | The variables of a let stand for the values in order, with #f for missing ones and a vector of further ones. |
| Arguments.LocalBinds | mindy/comp/compile.c:768-807 | Local methods know each other and are known to what follows. |
| Boxing.EnterBody | mindy/interp/func.c:363-400 | In the frame built for a call, arguments, next methods and closed-over slots are where the operands of the body look. |
| Boxing.Sim | mindy/comp/compile.c:405-698 | An expression, loops with a finally part included, evaluated with slots, copies and cells gives the corresponding values, stores, loops, and exits with states that look the same. |
| Boxing.ApplySim | mindy/interp/func.c:363-400 | So does a call, and it leaves the variables of its callers alone. |
| Machine.CallEnds | mindy/interp/interp.c:379-413 | A call that returns goes on after the call instruction with the values it wanted. |
| Machine.CallStops | mindy/interp/interp.c:379-413 | A call that fails, or does not end, is the failure, or the endlessness, of what called it. |
| Machine.EnterMore | mindy/interp/func.c:363-400 | Execution has one end, whatever it is allowed to take. |
| Execution.CanonicalizeRuns | mindy/interp/interp.c:95-133 | Turning one value into what is wanted works on the stack. |
| Execution.JumpRuns | mindy/interp/interp.c:224-246 | A branch counted in bytes gets to the instruction meant. |
| Execution.TakenRuns | mindy/interp/interp.c:319-367 | Pushing the slots of a method leaves them on the stack in the order of its making. |
| Execution.MakeRuns | mindy/interp/interp.c:171-186 | The machine makes a method with those slots. |
| Correctness.IfRuns | mindy/comp/compile.c:576-604 | A conditional takes the arm that the value selects and ends after both. |
| Correctness.LoopRuns | mindy/comp/compile.c:679-698 | Every round of a loop starts where the first did. |
| Correctness.ValuesRuns | mindy/comp/compile.c:1189-1238 | Omitting the call of values leaves what it would have returned. |
| Correctness.ExprRuns | mindy/comp/compile.c:405-911 | Executing the code of an expression has the effect of the expression: it leaves the values, repeats, fails in the same state, or goes on. |
| Correctness.InvokeRuns | mindy/interp/func.c:363-400 | What a call comes to in the compiled program, returning, failing or going on, it comes to in the machine. |
| WholeProgram.CallsRun | mindy/interp/func.c:363-400 | A call that returns in the program returns in the machine, with values and state that correspond. |
| WholeProgram.CallsStop | mindy/interp/func.c:363-400 | Under the assumptions of the compiler, a call that fails fails in the machine, with world and global variables that look the same, and one that goes on goes on. |
| Assumptions.ApplySame | mindy/comp/compile.c:405-438 | In a program that assigns only methods to local methods, and calls nothing that is checked too early, the assumptions make no difference. |
| PlainPrograms.PlainMethodTame | mindy/comp/compile.c:405-438 | Programs without assignments and calls of `values` are tame. |
| PlainPrograms.PlainMethodLooped | mindy/comp/expand.c:1967-2022 | Whatever asks for no rounds is well looped, so all parts of a `for` loop can be. |
| WholeProgram.ProgramRuns | mindy/comp/compile.c:916-978 | The byte code of any analyzed program that returns gives values, global variables and a world that look the same. |
| WholeProgram.TameProgramRuns | mindy/comp/compile.c:405-438 | The byte code of a tame program returns the same, fails with world and global variables that look the same, or goes on, as the program does. |
| WholeProgram.MachineIsRight | mindy/comp/compile.c:916-978 | If the byte code of a tame program returns, the program does, with results that look the same; if it fails, so does the program, in a state that looks the same. |
| WholeProgram.EndlessRuns | mindy/comp/compile.c:916-978 | A tame program that does not end does not end in the machine. |
| Surprises.AssignedLocalMethod | mindy/comp/compile.c:405-438 | A program that assigns its local method and calls it: an error, and byte code that returns. |
| Surprises.HastyCall | mindy/comp/compile.c:1189-1238 | A program that calls what values gives: it does not end, and its byte code fails. |
| Surprises.LateAssignment | mindy/comp/compile.c:620-670 | A program that calls what it assigns: it fails after the assignment, and its byte code before. |
| Erasure.ApplyErased | mindy/comp/envanal.c:445-452 | What a call comes to does not depend on the notes that analysis makes. |
| WholeProgram.AnalyzeProgram | mindy/comp/envanal.c:445-452 | Analysis gives the program notes for which all of this holds: the byte code does what the program as written means, in every world. |
| Compilers.FetchesAll | mindy/interp/interp.c:68-93 | Reading the bytes of a component where an instruction starts gives that instruction and the place of the next. |
| WholeProgram.CompileProgram | mindy/comp/compile.c:916-978 | Analysis and compilation together: the bytes made are read back as the instructions whose execution does what the program means. |

## Left out

Collector:

- Sizes are in words and blocks hold whole words; `malloc` never fails. The eight lists of roots
  before the constant and variable ones are one list. Class-specific `transport` and `scavenge`
  functions are given by the size and the slots they use.
- Weak pointers, hash state, `shrink`, messages, and the `PURIFY` and `GD_DEBUG` variants.
- Heaps.Heap.ObjectCollected: is for objects of the space being collected; a word of another space tells nothing.

Classes and dispatch:

- Classes of statically typed C pointers, direct subclass lists, slots and instances. A class that is
  used before it has been set up is one with a number that is not taken yet.
- GenericFunctions.GenericFunction.AddMethod: keywords, rest parameters and result types are not compared, and the methods clock is not modelled.
- Dispatch.SortKeepsOrder: says nothing of the methods after the mark, of which the code keeps only some, nor exactly which lists of ambiguous methods misdispatch.
- Specializers are classes and singletons. Limited integers, unions and subclass types are not
  modelled. A GenericFunction object lives in one hierarchy; Staleness is about its entries in a larger one.

Expansion:

- Trees are values: that the C code relinks and frees parts of them in place is not captured.
- IfExpansion.Expander.ExpandExpr: expressions have one value; methods, loops, blocks and user-written lets are opaque forms that cannot be copied.
- How the clauses of a `for` loop come to tests, variables and steps: ForLoop starts with these. Its tests are one expression.
- ForScopes.ScopesAlike: is for steps that make no methods, since a method keeps the environment it was made in.
- Assignment through setters, and the expansion of `case`, `select`, blocks and definitions.

Symbols:

- Generated symbols, and the `handle` field. Table sizes do not overflow. Chains are sequences.

Compiler:

- Trees are values with notes, not nodes updated in place; tables of bindings and methods stand for
  the structures that the nodes point to.
- Checks of variable and result types, exception handlers, `find-variable`, line numbers, debug
  information and the flag for components already written.
- Compilers.Compiler.CompileLiteral: every literal without an instruction of its own gets a new constant; the C code reuses the constant of a literal node that copying has left shared.
- Compilers.Compiler.CompileMethodRef: does not itself start the component of the method, which the C code compiles at this point; CompileMethod does.
- Compilers.Compiler.CompileMethod: operands and displacements are taken to fit C ints.
- Compilers.Compiler.CompileVarset: no check against the declared type of the variable is emitted.
- Loops that repeat in the middle of an expression, which no expander makes.

Execution:

- WholeProgram.ProgramRuns: is for programs that return; failing and going on are for tame programs, in TameProgramRuns.
- WholeProgram.TameProgramRuns: nothing is said of programs that use a local method before it has been made, or that assign the global variable `values`.
- WholeProgram.CompileProgram: the methods inside a program are made from descriptions that carry their number of closed-over variables; their components come from CompileMethod.
- Builtin functions are any functions that can look at, return, but neither call nor keep what they are given.
  Next methods are always empty, unknown keywords are not refused, a method with `#key` has a keyword, and threads are not scheduled.
