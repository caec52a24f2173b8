/**
 Expanded programs, with what environment analysis notes on them, and what it means for the
 notes to be right.
 */
module Programs {
  import opened Wrappers

  datatype Id = Id(symbol: string, internal: bool)

  // + - < <= = == ~= >= > and check-type
  type Magic = n: nat | n <= 9

  datatype Literal = TrueLit | FalseLit | UnboundLit | NilLit | IntLit(n: int) | OtherLit(k: nat)

  // The binding that a reference means, the method it is in, and if that is not the home of
  // the binding, its place among the variables the method closes over.
  datatype Ref = Ref(binding: Option<nat>, home: nat, over: nat)

  const UNANALYZED := Ref(None, 0, 0)

  datatype Expr =
    | Var(id: Id, ref: Ref)
    | Lit(literal: Literal)
    | Call(func: Expr, args: Exprs)
    | Binary(op: Magic, left: Expr, right: Expr)      // magic functions of two arguments
    | Values(values: Expr, args: Exprs)               // calls of values
    | Dot(arg: Expr, func: Expr)
    | MethodRef(method_: Method)
    | BodyExpr(body: Body)
    | If(cond: Expr, consequent: Body, alternate: Body)
    | Set(id: Id, ref: Ref, value: Expr)
    | Loop(body: Body)
    | Repeat

  datatype Exprs = NoArgs | Arg(expr: Expr, rest: Exprs)

  // The constituents after a let or after local methods are inside it. The bindings of either
  // are numbered from `first`, and their slots from `offset`.
  datatype Body =
    | Last(expr: Expr)
    | Then(expr: Expr, rest: Body)
    | Let(vars: seq<Id>, restVar: Option<Id>, init: Expr, first: nat, offset: nat, body: Body)
    | Local(methods: Methods, first: nat, offset: nat, body: Body)

  datatype Methods = NoMethods | AMethod(method_: Method, rest: Methods)

  datatype Key = Key(key: nat, id: Id, default: Literal)

  datatype Method = Method(name: Id, required: seq<Id>, restVar: Option<Id>, keys: seq<Key>, next: Option<Id>,
                           specializers: Expr, body: Body, id: nat)
  {
    // The parameters in the order of their slots.
    function Params(): seq<Id> {
      required + (if restVar.Some? then [restVar.value] else []) + seq(|keys|, i requires 0 <= i < |keys| => keys[i].id)
    }

    // The parameters that have bindings.
    function Bound(): seq<Id> {
      Params() + (if next.Some? then [next.value] else [])
    }
  }

  function LetVars(vars: seq<Id>, restVar: Option<Id>): seq<Id> {
    vars + (if restVar.Some? then [restVar.value] else [])
  }

  function Names(ms: Methods): seq<Id> {
    if ms.NoMethods? then [] else [ms.method_.name] + Names(ms.rest)
  }

  // The program as it was before analysis.
  function Erase(e: Expr): Expr {
    match e
    case Var(id, _) => Var(id, UNANALYZED)
    case Lit(l) => Lit(l)
    case Call(f, args) => Call(Erase(f), EraseArgs(args))
    case Binary(op, l, r) => Binary(op, Erase(l), Erase(r))
    case Values(f, args) => Values(Erase(f), EraseArgs(args))
    case Dot(a, f) => Dot(Erase(a), Erase(f))
    case MethodRef(m) => MethodRef(EraseMethod(m))
    case BodyExpr(b) => BodyExpr(EraseBody(b))
    case If(c, a, b) => If(Erase(c), EraseBody(a), EraseBody(b))
    case Set(id, _, v) => Set(id, UNANALYZED, Erase(v))
    case Loop(b) => Loop(EraseBody(b))
    case Repeat => Repeat
  }

  function EraseArgs(args: Exprs): Exprs {
    if args.NoArgs? then NoArgs else Arg(Erase(args.expr), EraseArgs(args.rest))
  }

  function EraseBody(b: Body): Body {
    match b
    case Last(e) => Last(Erase(e))
    case Then(e, rest) => Then(Erase(e), EraseBody(rest))
    case Let(vars, restVar, init, _, _, body) => Let(vars, restVar, Erase(init), 0, 0, EraseBody(body))
    case Local(ms, _, _, body) => Local(EraseMethods(ms), 0, 0, EraseBody(body))
  }

  function EraseMethods(ms: Methods): Methods {
    if ms.NoMethods? then NoMethods else AMethod(EraseMethod(ms.method_), EraseMethods(ms.rest))
  }

  function EraseMethod(m: Method): Method {
    m.(specializers := Erase(m.specializers), body := EraseBody(m.body), id := 0)
  }

  datatype Binding = Binding(id: Id, home: nat, function_: bool, closedOver: bool, isSet: bool, argument: bool, offset: nat)
  {
    // The binding is in a value cell.
    predicate Boxed() { closedOver && isSet }
  }

  // A variable that a method closes over: the binding, and its place among those its parent
  // closes over, if the parent is not its home.
  datatype Over = Over(binding: nat, over: Option<nat>)

  // The first variable a method closed over has place 0.
  datatype MethodInfo = MethodInfo(parent: nat, firstParam: nat, outer: seq<nat>, nargs: nat, closes: seq<Over>, frameSize: nat)

  // Method 0 stands for the top level.
  datatype Tables = Tables(bindings: seq<Binding>, methods: seq<MethodInfo>)

  datatype Lexenv = Lexenv(method_: nat, bindings: seq<nat>, depth: nat)

  // Consecutive bindings, the newest first or the oldest first.
  function Down(first: nat, n: nat): seq<nat> {
    seq(n, i requires 0 <= i < n => first + n - 1 - i)
  }

  function Up(first: nat, n: nat): seq<nat> {
    seq(n, i requires 0 <= i < n => first + i)
  }

  ghost predicate ValidIndex(t: Tables, bs: seq<nat>) {
    forall i :: 0 <= i < |bs| ==> bs[i] < |t.bindings|
  }

  // Lexical scoping: the first binding of that name.
  ghost function Find(t: Tables, bs: seq<nat>, id: Id): Option<nat>
    requires ValidIndex(t, bs)
  {
    if bs == [] then None
    else if t.bindings[bs[0]].id == id then Some(bs[0])
    else Find(t, bs[1..], id)
  }

  // Method a is m or contains it.
  predicate Encloses(t: Tables, a: nat, m: nat)
    decreases m
  {
    a == m || (m < |t.methods| && t.methods[m].parent < m && Encloses(t, a, t.methods[m].parent))
  }

  // The method m has the binding as number k of those it closes over.
  predicate ClosesOver(t: Tables, m: nat, b: nat, k: nat) {
    m < |t.methods| && k < |t.methods[m].closes| && t.methods[m].closes[k].binding == b
  }

  // A reference in a lexical environment is to the binding that scoping selects.
  ghost predicate RightRef(t: Tables, lex: Lexenv, id: Id, ref: Ref)
    requires ValidIndex(t, lex.bindings)
  {
    && ref.home == lex.method_
    && ref.binding == Find(t, lex.bindings, id)
    && (ref.binding.Some? ==>
          var b := ref.binding.value;
          b < |t.bindings| &&
          (t.bindings[b].home != lex.method_ ==> t.bindings[b].closedOver && ClosesOver(t, lex.method_, b, ref.over)))
  }

  // Consecutive bindings of the given names.
  predicate NewBindings(t: Tables, first: nat, ids: seq<Id>, home: nat, argument: bool, offset: nat) {
    && first + |ids| <= |t.bindings|
    && forall j :: 0 <= j < |ids| ==>
         var b := t.bindings[first + j];
         b.id == ids[j] && b.home == home && b.argument == argument && b.offset == offset + j
  }

  predicate LocalFunctions(t: Tables, first: nat, n: nat) {
    first + n <= |t.bindings| && forall b :: first <= b < first + n ==> t.bindings[b].function_ && t.bindings[b].isSet
  }

  // Parameters and the variables of a let are not known to be functions.
  predicate NotFunctions(t: Tables, first: nat, n: nat) {
    first + n <= |t.bindings| && forall b :: first <= b < first + n ==> !t.bindings[b].function_
  }

  // The bindings of an environment are older than those numbered from `first`.
  ghost predicate Older(bs: seq<nat>, first: nat) {
    forall i :: 0 <= i < |bs| ==> bs[i] < first
  }

  predicate RoomFor(t: Tables, home: nat, depth: nat) {
    home < |t.methods| && depth <= t.methods[home].frameSize
  }

  // Each variable the method closes over is one of the environment it is made in, and is found
  // there in the way noted.
  ghost predicate RightCloses(t: Tables, m: nat, lex: Lexenv)
    requires m < |t.methods|
  {
    && (forall k :: 0 <= k < |t.methods[m].closes| ==> RightClose(t, t.methods[m].closes[k], lex))
    && (forall k, l :: 0 <= k < l < |t.methods[m].closes| ==>
          t.methods[m].closes[k].binding != t.methods[m].closes[l].binding)
  }

  ghost predicate RightClose(t: Tables, over: Over, lex: Lexenv) {
    && over.binding in lex.bindings && over.binding < |t.bindings|
    && t.bindings[over.binding].closedOver
    && (if t.bindings[over.binding].home == lex.method_ then over.over.None?
        else over.over.Some? && ClosesOver(t, lex.method_, over.binding, over.over.value))
  }

  ghost predicate RightMethod(t: Tables, m: Method, lex: Lexenv) {
    && lex.method_ < m.id < |t.methods|
    && var info := t.methods[m.id];
    && info.parent == lex.method_
    && info.outer == lex.bindings && Older(lex.bindings, info.firstParam)
    && info.nargs == |m.Params()| + 1 + |info.closes|
    && NewBindings(t, info.firstParam, m.Bound(), m.id, true, 0)
    && NotFunctions(t, info.firstParam, |m.Bound()|)
    && RightCloses(t, m.id, lex)
  }

  function BodyEnv(t: Tables, m: Method): Lexenv
    requires m.id < |t.methods|
  {
    Lexenv(m.id, Down(t.methods[m.id].firstParam, |m.Bound()|) + t.methods[m.id].outer, 0)
  }

  function LetEnv(lex: Lexenv, first: nat, n: nat): Lexenv {
    Lexenv(lex.method_, Down(first, n) + lex.bindings, lex.depth + n)
  }

  function LocalEnv(lex: Lexenv, first: nat, n: nat): Lexenv {
    Lexenv(lex.method_, Up(first, n) + lex.bindings, lex.depth + n)
  }

  /** All notes on an expression are right. */
  ghost predicate Scoped(t: Tables, e: Expr, lex: Lexenv)
    decreases e
  {
    match e
    case Var(id, ref) => ValidIndex(t, lex.bindings) && RightRef(t, lex, id, ref)
    case Lit(_) => true
    case Call(f, args) => Scoped(t, f, lex) && ScopedArgs(t, args, lex)
    case Binary(_, l, r) => Scoped(t, l, lex) && Scoped(t, r, lex)
    case Values(f, args) => Scoped(t, f, lex) && ScopedArgs(t, args, lex)
    case Dot(a, f) => Scoped(t, a, lex) && Scoped(t, f, lex)
    case MethodRef(m) => ScopedMethod(t, m, lex)
    case BodyExpr(b) => ScopedBody(t, b, lex)
    case If(c, a, b) => Scoped(t, c, lex) && ScopedBody(t, a, lex) && ScopedBody(t, b, lex)
    case Set(id, ref, v) =>
      && ValidIndex(t, lex.bindings) && RightRef(t, lex, id, ref)
      && (ref.binding.Some? ==> t.bindings[ref.binding.value].isSet)
      && Scoped(t, v, lex)
    case Loop(b) => ScopedBody(t, b, lex)
    case Repeat => true
  }

  ghost predicate ScopedArgs(t: Tables, args: Exprs, lex: Lexenv)
    decreases args
  {
    args.Arg? ==> Scoped(t, args.expr, lex) && ScopedArgs(t, args.rest, lex)
  }

  ghost predicate ScopedBody(t: Tables, b: Body, lex: Lexenv)
    decreases b
  {
    match b
    case Last(e) => Scoped(t, e, lex)
    case Then(e, rest) => Scoped(t, e, lex) && ScopedBody(t, rest, lex)
    case Let(vars, restVar, init, first, offset, body) =>
      var n := |LetVars(vars, restVar)|;
      && Scoped(t, init, lex)
      && offset == lex.depth && Older(lex.bindings, first)
      && NewBindings(t, first, LetVars(vars, restVar), lex.method_, false, offset)
      && NotFunctions(t, first, n)
      && RoomFor(t, lex.method_, offset + n)
      && ScopedBody(t, body, LetEnv(lex, first, n))
    case Local(ms, first, offset, body) =>
      var n := |Names(ms)|;
      && offset == lex.depth && Older(lex.bindings, first)
      && NewBindings(t, first, Names(ms), lex.method_, false, offset)
      && LocalFunctions(t, first, n)
      && RoomFor(t, lex.method_, offset + n)
      && ScopedMethods(t, ms, LocalEnv(lex, first, n))
      && ScopedBody(t, body, LocalEnv(lex, first, n))
  }

  ghost predicate ScopedMethods(t: Tables, ms: Methods, lex: Lexenv)
    decreases ms
  {
    ms.AMethod? ==> ScopedMethod(t, ms.method_, lex) && ScopedMethods(t, ms.rest, lex)
  }

  ghost predicate ScopedMethod(t: Tables, m: Method, lex: Lexenv)
    decreases m
  {
    && RightMethod(t, m, lex)
    && Scoped(t, m.specializers, lex)
    && ScopedBody(t, m.body, BodyEnv(t, m))
  }

  // A lexical environment: the bindings are different, their homes enclose the method, and the
  // bindings of the method itself have different slots.
  ghost predicate GoodEnv(t: Tables, lex: Lexenv) {
    && lex.method_ < |t.methods|
    && ValidIndex(t, lex.bindings)
    && (forall i, j :: 0 <= i < j < |lex.bindings| ==> lex.bindings[i] != lex.bindings[j])
    && (forall i :: 0 <= i < |lex.bindings| ==>
          var b := t.bindings[lex.bindings[i]];
          && Encloses(t, b.home, lex.method_)
          && (b.home == lex.method_ && !b.argument ==> b.offset < lex.depth)
          && (b.argument ==> ArgumentSlot(t, b)))
    && (forall i :: 0 <= i < |lex.bindings| ==> OwnOrOuter(t, lex.method_, lex.bindings[i]))
    && (forall i, j :: 0 <= i < j < |lex.bindings| ==> SlotsDiffer(t, lex.method_, lex.bindings[i], lex.bindings[j]))
    && RoomFor(t, lex.method_, lex.depth)
  }

  // The slot is that of a parameter or of the next methods.
  predicate ArgumentSlot(t: Tables, b: Binding) {
    b.home < |t.methods| && b.offset + |t.methods[b.home].closes| < t.methods[b.home].nargs
  }

  // The binding is one of the method, or of the environment that the method is made in.
  predicate OwnOrOuter(t: Tables, m: nat, b: nat)
    requires m < |t.methods| && b < |t.bindings|
  {
    t.bindings[b].home == m || b in t.methods[m].outer
  }

  // Two bindings of one method in scope together never share a slot.
  ghost predicate SlotsDiffer(t: Tables, m: nat, b: nat, c: nat)
    requires b < |t.bindings| && c < |t.bindings|
  {
    t.bindings[b].home == m && t.bindings[c].home == m ==>
      t.bindings[b].argument != t.bindings[c].argument || t.bindings[b].offset != t.bindings[c].offset
  }
}
