/**
 Series of binary operators: the operator table, and the loop that turns a series into a tree
 of calls.
 */
module BinopSeries {

  datatype BinopInfo = BinopInfo(precedence: nat, leftAssoc: bool)

  datatype Binop = Binop(name: string, info: BinopInfo)

  // A two-argument call of an operator, or an operand.
  datatype Tree<E> =
    | Operand(expr: E)
    | Call(op: Binop, left: Tree<E>, right: Tree<E>)

  // An operator of the series, and the operand after it.
  datatype Item<E> = Item(op: Binop, operand: E)

  function Operands<E>(t: Tree<E>): (r: seq<E>)
    ensures |r| == |Ops(t)| + 1
  {
    match t
    case Operand(e) => [e]
    case Call(_, l, r) => Operands(l) + Operands(r)
  }

  function Ops<E>(t: Tree<E>): seq<Binop> {
    match t
    case Operand(_) => []
    case Call(op, l, r) => Ops(l) + [op] + Ops(r)
  }

  // The tree reads as the series, from left to right.
  ghost predicate ReadsAs<E>(t: Tree<E>, first: E, items: seq<Item<E>>) {
    Ops(t) == OpsOf(items) && Operands(t) == [first] + OperandsOf(items)
  }

  function OpsOf<E>(items: seq<Item<E>>): seq<Binop> {
    seq(|items|, i requires 0 <= i < |items| => items[i].op)
  }

  function OperandsOf<E>(items: seq<Item<E>>): seq<E> {
    seq(|items|, i requires 0 <= i < |items| => items[i].operand)
  }

  // An operand between two operators belongs to the left one.
  predicate GoesLeft(l: Binop, r: Binop) {
    l.info.precedence > r.info.precedence || (l.info.precedence == r.info.precedence && l.info.leftAssoc)
  }

  /** Every call in the tree respects precedence and associativity. */
  predicate Respects<E>(t: Tree<E>) {
    t.Call? ==>
      && Respects(t.left) && Respects(t.right)
      && (t.left.Call? ==> GoesLeft(t.left.op, t.op))
      && (t.right.Call? ==> !GoesLeft(t.op, t.right.op))
  }

  // Not only a child of a call, every operator below the call stands in the right relation to it.
  lemma {:induction false} LeftBelow<E>(t: Tree<E>, m: Binop)
    requires Respects(t) && t.Call? && m in Ops(t.left)
    ensures GoesLeft(m, t.op)
    decreases t.left
  {
    var l := t.left;
    if m in Ops(l.left) {
      LeftBelow(l, m);
    } else if m in Ops(l.right) {
      RightBelow(l, m);
    }
  }

  lemma {:induction false} RightBelow<E>(t: Tree<E>, m: Binop)
    requires Respects(t) && t.Call? && m in Ops(t.right)
    ensures !GoesLeft(t.op, m)
    decreases t.right
  {
    var r := t.right;
    if m in Ops(r.left) {
      LeftBelow(r, m);
    } else if m in Ops(r.right) {
      RightBelow(r, m);
    }
  }

  /** There is one tree that reads as a given series and respects the table. */
  lemma {:induction false} TreeUnique<E>(t: Tree<E>, u: Tree<E>)
    requires Respects(t) && Respects(u) && Ops(t) == Ops(u) && Operands(t) == Operands(u)
    ensures t == u
    decreases t
  {
    if t.Call? && u.Call? {
      RootsAgree(t, u);
      Parts(t);
      Parts(u);
      TreeUnique(t.left, u.left);
      TreeUnique(t.right, u.right);
    } else {
      assert |Ops(t)| == |Ops(u)|;
      assert Operands(t)[0] == Operands(u)[0];
    }
  }

  // The same operator is called last.
  lemma {:induction false} RootsAgree<E>(t: Tree<E>, u: Tree<E>)
    requires Respects(t) && Respects(u) && t.Call? && u.Call? && Ops(t) == Ops(u)
    ensures |Ops(t.left)| == |Ops(u.left)| && t.op == u.op
  {
    hide GoesLeft;
    var i, j := |Ops(t.left)|, |Ops(u.left)|;
    RootOps(t);
    RootOps(u);
    if i < j {
      LeftBelow(u, t.op);
      RightBelow(t, u.op);
    } else if j < i {
      LeftBelow(t, u.op);
      RightBelow(u, t.op);
    }
  }

  // What is to the left and to the right of the operator called last.
  lemma {:induction false} Parts<E>(t: Tree<E>)
    requires t.Call?
    ensures var i := |Ops(t.left)|;
            && i < |Ops(t)| && Ops(t.left) == Ops(t)[..i] && Ops(t.right) == Ops(t)[i + 1..]
            && Operands(t.left) == Operands(t)[..i + 1] && Operands(t.right) == Operands(t)[i + 1..]
  {
  }

  lemma {:induction false} RootOps<E>(t: Tree<E>)
    requires t.Call?
    ensures |Ops(t)| == |Ops(t.left)| + 1 + |Ops(t.right)| && Ops(t)[|Ops(t.left)|] == t.op
    ensures forall i :: 0 <= i < |Ops(t.left)| ==> Ops(t)[i] in Ops(t.left)
    ensures forall i :: |Ops(t.left)| < i < |Ops(t)| ==> Ops(t)[i] in Ops(t.right)
  {
    forall i | |Ops(t.left)| < i < |Ops(t)| ensures Ops(t)[i] in Ops(t.right) {
      assert Ops(t)[i] == Ops(t.right)[i - |Ops(t.left)| - 1];
    }
  }

  // An operator waiting on the stack with its left operand.
  datatype Pending<E> = Pending(left: Tree<E>, op: Binop)

  // What is on the stack, the top first, reads as these operators and operands.
  ghost function StackOps<E>(stack: seq<Pending<E>>): seq<Binop> {
    if stack == [] then [] else StackOps(stack[1..]) + Ops(stack[0].left) + [stack[0].op]
  }

  ghost function StackOperands<E>(stack: seq<Pending<E>>): seq<E> {
    if stack == [] then [] else StackOperands(stack[1..]) + Operands(stack[0].left)
  }

  // The left operand of op is complete.
  ghost predicate GoodLeft<E>(left: Tree<E>, op: Binop) {
    Respects(left) && (left.Call? ==> GoesLeft(left.op, op))
  }

  // Every waiting operator leaves its right operand to the one above it.
  ghost predicate GoodStack<E>(stack: seq<Pending<E>>, op: Binop) {
    stack != [] ==>
      && GoodLeft(stack[0].left, stack[0].op)
      && !GoesLeft(stack[0].op, op)
      && GoodStack(stack[1..], stack[0].op)
  }

  // The first n operators have been read; op is the last of them that is not yet in a call and
  // not on the stack.
  ghost predicate Parsed<E>(stack: seq<Pending<E>>, left: Tree<E>, op: Binop, right: Tree<E>,
                            first: E, items: seq<Item<E>>, n: nat)
  {
    && n <= |items|
    && GoodStack(stack, op) && GoodLeft(left, op) && Respects(right)
    && (right.Call? ==> !GoesLeft(op, right.op))
    && StackOps(stack) + Ops(left) + [op] + Ops(right) == OpsOf(items[..n])
    && StackOperands(stack) + Operands(left) + Operands(right) == [first] + OperandsOf(items[..n])
  }

  // The right operand is complete.
  ghost predicate RightDone<E>(right: Tree<E>, items: seq<Item<E>>, n: nat) {
    right.Call? && n < |items| ==> GoesLeft(right.op, items[n].op)
  }

  lemma {:induction false} ReduceIntoRight<E>(stack: seq<Pending<E>>, left: Tree<E>, op: Binop, right: Tree<E>,
                           first: E, items: seq<Item<E>>, n: nat)
    requires Parsed(stack, left, op, right, first, items, n) && stack != []
    requires RightDone(right, items, n) && (n < |items| ==> GoesLeft(op, items[n].op))
    ensures Parsed(stack[1..], stack[0].left, stack[0].op, Call(op, left, right), first, items, n)
    ensures RightDone(Call(op, left, right), items, n)
  {
    hide GoesLeft, OpsOf, OperandsOf, StackOps, StackOperands;
    SameReading(stack, left, op, right);
  }

  lemma {:induction false} SameReading<E>(stack: seq<Pending<E>>, left: Tree<E>, op: Binop, right: Tree<E>)
    requires stack != []
    ensures StackOps(stack[1..]) + Ops(stack[0].left) + [stack[0].op] + Ops(Call(op, left, right))
         == StackOps(stack) + Ops(left) + [op] + Ops(right)
    ensures StackOperands(stack[1..]) + Operands(stack[0].left) + Operands(Call(op, left, right))
         == StackOperands(stack) + Operands(left) + Operands(right)
  {
    hide StackOps, StackOperands;
    var a, b := StackOps(stack[1..]) + Ops(stack[0].left) + [stack[0].op], StackOperands(stack[1..]) + Operands(stack[0].left);
    assert StackOps(stack) == a && StackOperands(stack) == b by { TopOfStack(stack); }
    assert Ops(Call(op, left, right)) == Ops(left) + [op] + Ops(right);
    assert a + (Ops(left) + [op] + Ops(right)) == a + Ops(left) + [op] + Ops(right);
    assert b + (Operands(left) + Operands(right)) == b + Operands(left) + Operands(right);
  }

  lemma {:induction false} TopOfStack<E>(stack: seq<Pending<E>>)
    requires stack != []
    ensures StackOps(stack) == StackOps(stack[1..]) + Ops(stack[0].left) + [stack[0].op]
    ensures StackOperands(stack) == StackOperands(stack[1..]) + Operands(stack[0].left)
  {
  }

  lemma NextItem<E>(first: E, items: seq<Item<E>>, n: nat)
    requires n < |items|
    ensures OpsOf(items[..n + 1]) == OpsOf(items[..n]) + [items[n].op]
    ensures [first] + OperandsOf(items[..n + 1]) == ([first] + OperandsOf(items[..n])) + [items[n].operand]
  {
  }

  lemma {:induction false} ReduceIntoLeft<E>(left: Tree<E>, op: Binop, right: Tree<E>, first: E, items: seq<Item<E>>, n: nat)
    requires Parsed([], left, op, right, first, items, n) && n < |items| && GoesLeft(op, items[n].op)
    ensures Parsed([], Call(op, left, right), items[n].op, Operand(items[n].operand), first, items, n + 1)
  {
    hide OpsOf, OperandsOf;
    NextItem(first, items, n);
    assert StackOps<E>([]) == [] && StackOperands<E>([]) == [];
  }

  lemma {:induction false} Shift<E>(stack: seq<Pending<E>>, left: Tree<E>, op: Binop, right: Tree<E>,
                 first: E, items: seq<Item<E>>, n: nat)
    requires Parsed(stack, left, op, right, first, items, n) && n < |items|
    requires RightDone(right, items, n) && !GoesLeft(op, items[n].op)
    ensures Parsed([Pending(left, op)] + stack, right, items[n].op, Operand(items[n].operand), first, items, n + 1)
  {
    hide OpsOf, OperandsOf;
    NextItem(first, items, n);
    var stack' := [Pending(left, op)] + stack;
    assert stack'[1..] == stack;
  }

  /** The shift/reduce loop. */
  method ExpandBinopSeries<E>(first: E, items: seq<Item<E>>) returns (tree: Tree<E>)
    requires items != []
    ensures ReadsAs(tree, first, items) && Respects(tree)
  {
    hide Parsed;
    var stack: seq<Pending<E>> := [];
    var left := Operand(first);
    var op := items[0].op;
    var right := Operand(items[0].operand);
    var next := 1;
    ParsedFirst(first, items);
    while next < |items|
      invariant 1 <= next <= |items|
      invariant Parsed(stack, left, op, right, first, items, next) && RightDone(right, items, next)
      decreases |items| - next, |stack|
    {
      if if op.info.leftAssoc then op.info.precedence >= items[next].op.info.precedence
         else op.info.precedence > items[next].op.info.precedence {
        var call := Call(op, left, right);
        if stack != [] {
          ReduceIntoRight(stack, left, op, right, first, items, next);
          right, op, left, stack := call, stack[0].op, stack[0].left, stack[1..];
        } else {
          ReduceIntoLeft(left, op, right, first, items, next);
          left, op, right, next := call, items[next].op, Operand(items[next].operand), next + 1;
        }
      } else {
        Shift(stack, left, op, right, first, items, next);
        stack := [Pending(left, op)] + stack;
        left, op, right, next := right, items[next].op, Operand(items[next].operand), next + 1;
      }
    }
    while true
      invariant Parsed(stack, left, op, right, first, items, |items|)
      decreases |stack|
    {
      if stack == [] {
        ParsedAll(left, op, right, first, items);
        return Call(op, left, right);
      }
      ReduceIntoRight(stack, left, op, right, first, items, |items|);
      right := Call(op, left, right);
      op, left, stack := stack[0].op, stack[0].left, stack[1..];
    }
  }

  lemma ParsedFirst<E>(first: E, items: seq<Item<E>>)
    requires items != []
    ensures Parsed([], Operand(first), items[0].op, Operand(items[0].operand), first, items, 1)
  {
    NextItem(first, items, 0);
    assert StackOps<E>([]) == [] && StackOperands<E>([]) == [];
  }

  lemma {:induction false} ParsedAll<E>(left: Tree<E>, op: Binop, right: Tree<E>, first: E, items: seq<Item<E>>)
    requires Parsed([], left, op, right, first, items, |items|)
    ensures ReadsAs(Call(op, left, right), first, items) && Respects(Call(op, left, right))
  {
    hide OpsOf, OperandsOf, GoodStack;
    assert items[..|items|] == items;
    assert StackOps<E>([]) == [] && StackOperands<E>([]) == [];
    assert Ops(Call(op, left, right)) == [] + Ops(left) + [op] + Ops(right);
    assert Operands(Call(op, left, right)) == [] + Operands(left) + Operands(right);
  }

  /** The table of the known operators, the newest entry first. */
  class BinopTable {
    var infos: seq<Binop>

    // The first entry of that name, or the default.
    static function Find(infos: seq<Binop>, name: string): BinopInfo {
      if infos == [] then BinopInfo(0, true)
      else if infos[0].name == name then infos[0].info
      else Find(infos[1..], name)
    }

    function Lookup(name: string): BinopInfo
      reads this
    {
      Find(infos, name)
    }

    method LookupBinopInfo(name: string) returns (info: BinopInfo)
      ensures info == Lookup(name)
    {
      var p := 0;
      while p < |infos|
        invariant p <= |infos| && Find(infos[p..], name) == Find(infos, name)
      {
        if infos[p].name == name {
          return infos[p].info;
        }
        p := p + 1;
      }
      return BinopInfo(0, true);
    }

    method PushBinopInfo(name: string, precedence: nat, leftAssoc: bool)
      modifies this
      ensures infos == [Binop(name, BinopInfo(precedence, leftAssoc))] + old(infos)
      ensures forall n :: Lookup(n) == if n == name then BinopInfo(precedence, leftAssoc) else old(Lookup(n))
    {
      infos := [Binop(name, BinopInfo(precedence, leftAssoc))] + infos;
    }
  }

  lemma EmptyTable(table: BinopTable)
    requires table.infos == []
    ensures forall name :: table.Lookup(name) == BinopInfo(0, true)
  {
  }

  // The table that the compiler starts with.
  method InitInfo(table: BinopTable)
    requires table.infos == []
    modifies table
    ensures forall name :: table.Lookup(name) == StandardInfo(name)
    // From the weakest operators to the strongest.
    ensures table.Lookup(":=").precedence < table.Lookup("|").precedence < table.Lookup("&").precedence
            < table.Lookup("<").precedence < table.Lookup("+").precedence < table.Lookup("*").precedence
            < table.Lookup("^").precedence
    ensures forall name :: name in ["<=", "=", "~=", "==", "~==", ">=", ">"] ==>
              table.Lookup(name).precedence == table.Lookup("<").precedence
    ensures table.Lookup("-").precedence == table.Lookup("+").precedence
    ensures table.Lookup("/").precedence == table.Lookup("*").precedence
    // Any other name is weaker still.
    ensures forall name :: name !in [":=", "|", "&", "<", "<=", "=", "~=", "==", "~==", ">=", ">", "+", "-", "*", "/", "^"] ==>
              table.Lookup(name).precedence < table.Lookup(":=").precedence
    ensures forall name :: !table.Lookup(name).leftAssoc <==> name in [":=", "|", "&", "^"]
  {
    hide BinopTable.Find, BinopTable.Lookup, StandardInfo;
    PushAll(table);
    StandardLadder();
    forall name
      ensures name in ["<=", "=", "~=", "==", "~==", ">=", ">"] ==> StandardInfo(name).precedence == 4
      ensures name !in [":=", "|", "&", "<", "<=", "=", "~=", "==", "~==", ">=", ">", "+", "-", "*", "/", "^"] ==>
                StandardInfo(name).precedence == 0
      ensures !StandardInfo(name).leftAssoc <==> name in [":=", "|", "&", "^"]
    {
      StandardName(name);
    }
  }

  method PushAll(table: BinopTable)
    requires table.infos == []
    modifies table
    ensures forall name :: table.Lookup(name) == StandardInfo(name)
  {
    hide BinopTable.Find, BinopTable.Lookup;
    EmptyTable(table);
    InitLogic(table);
    InitComparison(table);
    InitArithmetic(table);
  }

  lemma StandardLadder()
    ensures StandardInfo(":=").precedence == 1 && StandardInfo("|").precedence == 2 && StandardInfo("&").precedence == 3
    ensures StandardInfo("<").precedence == 4 && StandardInfo("+").precedence == 5 && StandardInfo("*").precedence == 6
    ensures StandardInfo("^").precedence == 7 && StandardInfo("-").precedence == 5 && StandardInfo("/").precedence == 6
  {
  }

  lemma StandardName(name: string)
    ensures name in ["<=", "=", "~=", "==", "~==", ">=", ">"] ==> StandardInfo(name).precedence == 4
    ensures name !in [":=", "|", "&", "<", "<=", "=", "~=", "==", "~==", ">=", ">", "+", "-", "*", "/", "^"] ==>
              StandardInfo(name).precedence == 0
    ensures !StandardInfo(name).leftAssoc <==> name in [":=", "|", "&", "^"]
  {
  }

  method InitLogic(table: BinopTable)
    modifies table
    ensures forall name :: table.Lookup(name) == StandardLogic(name, old(table.Lookup(name)))
  {
    hide BinopTable.Find, BinopTable.Lookup;
    table.PushBinopInfo(":=", 1, false);
    table.PushBinopInfo("|", 2, false);
    table.PushBinopInfo("&", 3, false);
  }

  method InitComparison(table: BinopTable)
    modifies table
    ensures forall name :: table.Lookup(name) == StandardComparison(name, old(table.Lookup(name)))
  {
    hide BinopTable.Find, BinopTable.Lookup;
    table.PushBinopInfo("<", 4, true);
    table.PushBinopInfo("<=", 4, true);
    table.PushBinopInfo("=", 4, true);
    table.PushBinopInfo("~=", 4, true);
    table.PushBinopInfo("==", 4, true);
    table.PushBinopInfo("~==", 4, true);
    table.PushBinopInfo(">=", 4, true);
    table.PushBinopInfo(">", 4, true);
  }

  method InitArithmetic(table: BinopTable)
    modifies table
    ensures forall name :: table.Lookup(name) == StandardArithmetic(name, old(table.Lookup(name)))
  {
    hide BinopTable.Find, BinopTable.Lookup;
    table.PushBinopInfo("+", 5, true);
    table.PushBinopInfo("-", 5, true);
    table.PushBinopInfo("*", 6, true);
    table.PushBinopInfo("/", 6, true);
    table.PushBinopInfo("^", 7, false);
  }

  function StandardLogic(name: string, other: BinopInfo): BinopInfo {
    if name == ":=" then BinopInfo(1, false)
    else if name == "|" then BinopInfo(2, false)
    else if name == "&" then BinopInfo(3, false)
    else other
  }

  function StandardComparison(name: string, other: BinopInfo): BinopInfo {
    if name in ["<", "<=", "=", "~=", "==", "~==", ">=", ">"] then BinopInfo(4, true) else other
  }

  function StandardArithmetic(name: string, other: BinopInfo): BinopInfo {
    if name == "+" || name == "-" then BinopInfo(5, true)
    else if name == "*" || name == "/" then BinopInfo(6, true)
    else if name == "^" then BinopInfo(7, false)
    else other
  }

  function StandardInfo(name: string): BinopInfo {
    StandardArithmetic(name, StandardComparison(name, StandardLogic(name, BinopInfo(0, true))))
  }

  /** Associativity is a function of the precedence level. */
  lemma AssociativityByLevel(name: string, name': string)
    requires StandardInfo(name).precedence == StandardInfo(name').precedence
    ensures StandardInfo(name).leftAssoc == StandardInfo(name').leftAssoc
  {
  }

  // An operator as the compiler finds it at the start.
  function Standard(name: string): Binop {
    Binop(name, StandardInfo(name))
  }

  // Three operands are grouped by what the two operators between them say.
  lemma ThreeOperands<E>(t: Tree<E>, a: E, b: E, c: E, l: Binop, r: Binop)
    requires Respects(t) && Ops(t) == [l, r] && Operands(t) == [a, b, c]
    ensures t == if GoesLeft(l, r) then Call(r, Call(l, Operand(a), Operand(b)), Operand(c))
                 else Call(l, Operand(a), Call(r, Operand(b), Operand(c)))
  {
    var left, right := Call(r, Call(l, Operand(a), Operand(b)), Operand(c)), Call(l, Operand(a), Call(r, Operand(b), Operand(c)));
    assert Ops(Call(l, Operand(a), Operand(b))) == [l] && Operands(Call(l, Operand(a), Operand(b))) == [a, b];
    assert Ops(Call(r, Operand(b), Operand(c))) == [r] && Operands(Call(r, Operand(b), Operand(c))) == [b, c];
    assert Ops(left) == [l, r] && Operands(left) == [a, b, c];
    assert Ops(right) == [l, r] && Operands(right) == [a, b, c];
    TreeUnique(t, if GoesLeft(l, r) then left else right);
  }

  /** With the table the compiler starts with, a product in a sum is an operand of the sum. */
  lemma ProductsFirst<E>(t: Tree<E>, a: E, b: E, c: E, sum: string, product: string)
    requires sum in ["+", "-"] && product in ["*", "/"] && Respects(t) && Operands(t) == [a, b, c]
    ensures Ops(t) == [Standard(sum), Standard(product)] ==>
              t == Call(Standard(sum), Operand(a), Call(Standard(product), Operand(b), Operand(c)))
    ensures Ops(t) == [Standard(product), Standard(sum)] ==>
              t == Call(Standard(sum), Call(Standard(product), Operand(a), Operand(b)), Operand(c))
  {
    hide Respects;
    if Ops(t) == [Standard(sum), Standard(product)] { ThreeOperands(t, a, b, c, Standard(sum), Standard(product)); }
    if Ops(t) == [Standard(product), Standard(sum)] { ThreeOperands(t, a, b, c, Standard(product), Standard(sum)); }
  }

  /** Sums, products and comparisons group to the left; powers, conjunctions, disjunctions and
      assignments to the right. */
  lemma GroupsBySide<E>(t: Tree<E>, a: E, b: E, c: E, op: string, op': string)
    requires Respects(t) && Operands(t) == [a, b, c] && Ops(t) == [Standard(op), Standard(op')]
    ensures (op in ["+", "-"] && op' in ["+", "-"]) || (op in ["*", "/"] && op' in ["*", "/"])
            || (op in ["<", "<=", "=", "~=", "==", "~==", ">=", ">"] && op' in ["<", "<=", "=", "~=", "==", "~==", ">=", ">"]) ==>
              t == Call(Standard(op'), Call(Standard(op), Operand(a), Operand(b)), Operand(c))
    ensures op == op' && op in ["^", "&", "|", ":="] ==>
              t == Call(Standard(op), Operand(a), Call(Standard(op'), Operand(b), Operand(c)))
  {
    hide Respects;
    ThreeOperands(t, a, b, c, Standard(op), Standard(op'));
  }

  /** Of two operators of different strength, the stronger one is called first. */
  lemma StrongerFirst<E>(t: Tree<E>, a: E, b: E, c: E, i: nat, j: nat)
    requires i < j < 7 && Respects(t) && Operands(t) == [a, b, c]
    ensures var ladder := [":=", "|", "&", "<", "+", "*", "^"];
            && (Ops(t) == [Standard(ladder[i]), Standard(ladder[j])] ==>
                  t == Call(Standard(ladder[i]), Operand(a), Call(Standard(ladder[j]), Operand(b), Operand(c))))
            && (Ops(t) == [Standard(ladder[j]), Standard(ladder[i])] ==>
                  t == Call(Standard(ladder[i]), Call(Standard(ladder[j]), Operand(a), Operand(b)), Operand(c)))
  {
    hide Respects;
    var ladder := [":=", "|", "&", "<", "+", "*", "^"];
    assert StandardInfo(ladder[i]).precedence == i + 1 && StandardInfo(ladder[j]).precedence == j + 1 by { Rung(i); Rung(j); }
    if Ops(t) == [Standard(ladder[i]), Standard(ladder[j])] { ThreeOperands(t, a, b, c, Standard(ladder[i]), Standard(ladder[j])); }
    if Ops(t) == [Standard(ladder[j]), Standard(ladder[i])] { ThreeOperands(t, a, b, c, Standard(ladder[j]), Standard(ladder[i])); }
  }

  lemma Rung(i: nat)
    requires i < 7
    ensures StandardInfo([":=", "|", "&", "<", "+", "*", "^"][i]).precedence == i + 1
  {
  }
}
