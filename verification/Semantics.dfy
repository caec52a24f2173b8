/**
 What a program means: variables are places of a store that every method closing over them
 shares. What builtin functions do is left open.
 */
module Semantics {
  import opened Wrappers
  import opened Programs

  // Closure is a method with the environment it was made in; Flat one with copies of the slots
  // it closes over. Value cells are only in slots. Unset is a variable before its first value.
  datatype Value =
    | Prim(literal: Literal)
    | Vector(elems: seq<Value>)
    | Closure(method_: Method, env: seq<Entry>)
    | Flat(method_: Method, slots: seq<Value>)
    | Cell(cell: nat)
    | Unset

  datatype Entry = Entry(id: Id, loc: nat)

  type World(!new)

  // The store, or the value cells, and the global variables.
  datatype State = State(mem: seq<Value>, globals: map<Id, Value>, world: World)

  // Again asks the innermost loop for another round. Wrong is what has no meaning: the use of
  // a local method before it has been made, a repeat in the middle of a round, and a call of
  // values when that name has another meaning.
  datatype Outcome = Done(values: seq<Value>, state: State) | Again(state: State) | Exit(state: State) | Timeout | Wrong

  // Another round can be asked for where no value of the round is waiting for another.
  function NoLoop(o: Outcome): Outcome {
    if o.Again? then Wrong else o
  }

  // What a builtin sees of a value, and what it returns: new values, or some it was given.
  datatype View = PrimView(literal: Literal) | VectorView(elems: seq<View>) | MethodView

  datatype Pick = New(literal: Literal) | Argument(i: nat)

  datatype Reply = Reply(picks: seq<Pick>, world: World) | Fails(world: World)

  datatype Meaning = Meaning(
    callable: Literal -> bool,
    builtin: (Literal, seq<View>, World) -> Reply,
    binary: (Magic, seq<View>, World) -> Reply,
    values: Literal,
    junk: nat -> Value,
    assumed: Option<nat -> bool>)
  {
    // The function values returns its arguments.
    ghost predicate Good() {
      && callable(values)
      && forall views, w :: builtin(values, views, w) == Reply(seq(|views|, i requires 0 <= i < |views| => Argument(i)), w)
    }
  }

  // The language has no assumptions. Under those the compiler makes, a program has no meaning if
  // a binding that it knows as a local method does not hold a function, ...
  predicate Surprising(m: Meaning, ref: Ref, v: Value) {
    m.assumed.Some? && ref.binding.Some? && m.assumed.value(ref.binding.value) && !Callable(m, v)
  }

  // ... or if what gives the function to be called has more to do once the function is checked.
  predicate Hasty(m: Meaning, f: Expr) {
    m.assumed.Some? && CheckedEarly(f)
  }

  // Of several values the first one is checked before the others are evaluated, and what is
  // assigned before it is assigned. A method needs no check.
  predicate CheckedEarly(e: Expr)
    decreases e
  {
    match e
    case Values(_, args) => args.Arg? && (args.rest.Arg? || CheckedEarly(args.expr))
    case BodyExpr(b) => CheckedEarlyLast(b)
    case If(_, a, b) => CheckedEarlyLast(a) || CheckedEarlyLast(b)
    case Set(_, _, v) => !v.MethodRef?
    case Loop(b) => CheckedEarlyLast(b)
    case _ => false
  }

  predicate CheckedEarlyLast(b: Body)
    decreases b
  {
    match b
    case Last(e) => CheckedEarly(e)
    case Then(_, rest) => CheckedEarlyLast(rest)
    case Let(_, _, _, _, _, body) => CheckedEarlyLast(body)
    case Local(_, _, _, body) => CheckedEarlyLast(body)
  }

  const FALSE := Prim(FalseLit)

  function Look(v: Value): View
    decreases v
  {
    match v
    case Prim(l) => PrimView(l)
    case Vector(es) => VectorView(seq(|es|, i requires 0 <= i < |es| => Look(es[i])))
    case _ => MethodView
  }

  function Views(vs: seq<Value>): seq<View> {
    seq(|vs|, i requires 0 <= i < |vs| => Look(vs[i]))
  }

  // What can be seen of a state from outside the program.
  ghost predicate SeenAlike(s: State, u: State) {
    && s.world == u.world
    && (forall id :: id in s.globals <==> id in u.globals)
    && (forall id :: id in s.globals ==> Look(s.globals[id]) == Look(u.globals[id]))
  }

  function Picked(picks: seq<Pick>, args: seq<Value>): seq<Value> {
    seq(|picks|, i requires 0 <= i < |picks| =>
      match picks[i]
      case New(l) => Prim(l)
      case Argument(j) => if j < |args| then args[j] else FALSE)
  }

  function Replied(r: Reply, args: seq<Value>, s: State): Outcome {
    match r
    case Reply(picks, w) => Done(Picked(picks, args), s.(world := w))
    case Fails(w) => Exit(s.(world := w))
  }

  // A magic function has one value.
  function RepliedOne(r: Reply, args: seq<Value>, s: State): Outcome {
    match r
    case Reply(picks, w) => Done([First(Picked(picks, args))], s.(world := w))
    case Fails(w) => Exit(s.(world := w))
  }

  // The first value, or #f if there is none.
  function First(vs: seq<Value>): Value {
    if |vs| > 0 then vs[0] else FALSE
  }

  function Callable(m: Meaning, f: Value): bool {
    match f
    case Prim(l) => m.callable(l)
    case Closure(_, _) => true
    case Flat(_, _) => true
    case _ => false
  }

  // The first n values, with #f for missing ones, and a vector of the others if they are wanted.
  function Wanted(vs: seq<Value>, n: nat, rest: bool): (r: seq<Value>)
    ensures |r| == n + (if rest then 1 else 0)
  {
    seq(n, i requires 0 <= i < n => if i < |vs| then vs[i] else FALSE)
    + (if rest then [Vector(if n <= |vs| then vs[n..] else [])] else [])
  }

  // The value after a keyword among the arguments, or the default.
  function KeyValue(k: Key, args: seq<Value>): Value {
    if |args| < 2 then Prim(k.default)
    else if args[0] == Prim(OtherLit(k.key)) then args[1]
    else KeyValue(k, args[2..])
  }

  /** The values of the parameters for a list of arguments; none if there are too few or too many
      of them, or an odd number for the keywords. */
  function ParamValues(m: Method, args: seq<Value>): (r: Option<seq<Value>>)
    ensures r.Some? ==> |r.value| == |m.Params()|
  {
    var n := |m.required|;
    if |args| < n then None
    else
      var rest := args[n..];
      if m.restVar.None? && m.keys == [] && rest != [] then None
      else if m.keys != [] && |rest| % 2 == 1 then None
      else Some(args[..n] + (if m.restVar.Some? then [Vector(rest)] else [])
                + seq(|m.keys|, i requires 0 <= i < |m.keys| => KeyValue(m.keys[i], rest)))
  }

  // The value for #next: there is no next method in a direct call.
  const NO_NEXT := Prim(NilLit)

  function BoundValues(m: Method, params: seq<Value>): seq<Value> {
    params + (if m.next.Some? then [NO_NEXT] else [])
  }

  function Lookup(env: seq<Entry>, id: Id): Option<nat> {
    if env == [] then None
    else if env[0].id == id then Some(env[0].loc)
    else Lookup(env[1..], id)
  }

  // Variables in consecutive places, the newest first or the oldest first.
  function EntriesDown(ids: seq<Id>, start: nat): seq<Entry> {
    seq(|ids|, i requires 0 <= i < |ids| => Entry(ids[|ids| - 1 - i], start + |ids| - 1 - i))
  }

  function EntriesUp(ids: seq<Id>, start: nat): seq<Entry> {
    seq(|ids|, i requires 0 <= i < |ids| => Entry(ids[i], start + i))
  }

  function Store(s: State, loc: nat, v: Value): State {
    if loc < |s.mem| then s.(mem := s.mem[loc := v]) else s
  }

  datatype ArgsOutcome = Args(values: seq<Value>, state: State) | Stop(outcome: Outcome)

  function Eval(m: Meaning, e: Expr, env: seq<Entry>, s: State, fuel: nat): Outcome
    decreases fuel, 1, e
  {
    match e
    case Var(id, ref) =>
      (match Lookup(env, id)
       case Some(loc) =>
         if loc < |s.mem| && !s.mem[loc].Unset? && !Surprising(m, ref, s.mem[loc]) then Done([s.mem[loc]], s) else Wrong
       case None => if id in s.globals then Done([s.globals[id]], s) else Exit(s))
    case Lit(l) => Done([Prim(l)], s)
    case Call(f, args) =>
      if Hasty(m, f) then Wrong
      else
        (match Eval(m, f, env, s, fuel)
         case Done(fs, s1) =>
           if !Callable(m, First(fs)) then Exit(s1)
           else
             (match EvalArgs(m, args, env, s1, fuel)
              case Args(vs, s2) => Apply(m, First(fs), vs, s2, fuel)
              case Stop(o) => o)
         case o => NoLoop(o))
    case Binary(op, l, r) =>
      (match Eval(m, l, env, s, fuel)
       case Done(vs, s1) =>
         (match Eval(m, r, env, s1, fuel)
          case Done(ws, s2) =>
            var args := [First(vs), First(ws)];
            RepliedOne(m.binary(op, Views(args), s2.world), args, s2)
          case o => NoLoop(o))
       case o => NoLoop(o))
    case Values(f, args) =>
      if !IsValues(m, f, env, s) then Wrong
      else
        (match EvalArgs(m, args, env, s, fuel)
         case Args(vs, s1) => Done(vs, s1)
         case Stop(o) => o)
    case Dot(a, f) =>
      if Hasty(m, f) then Wrong
      else
        (match Eval(m, a, env, s, fuel)
         case Done(vs, s1) =>
           (match Eval(m, f, env, s1, fuel)
            case Done(fs, s2) =>
              if !Callable(m, First(fs)) then Exit(s2) else Apply(m, First(fs), [First(vs)], s2, fuel)
            case o => NoLoop(o))
         case o => NoLoop(o))
    case MethodRef(mm) => EvalMethod(m, mm, env, s, fuel)
    case BodyExpr(b) => EvalBody(m, b, env, s, fuel)
    case If(c, a, b) =>
      (match Eval(m, c, env, s, fuel)
       case Done(vs, s1) => if First(vs) != FALSE then EvalBody(m, a, env, s1, fuel) else EvalBody(m, b, env, s1, fuel)
       case o => NoLoop(o))
    case Set(id, _, value) =>
      (match Eval(m, value, env, s, fuel)
       case Done(vs, s1) => Done([First(vs)], Assign(env, id, First(vs), s1))
       case o => NoLoop(o))
    case Loop(b) =>
      (match EvalBody(m, b, env, s, fuel)
       case Again(s1) => if fuel == 0 then Timeout else Eval(m, e, env, s1, fuel - 1)
       case o => o)
    case Repeat => Again(s)
  }

  // The name of the function called is that of values, and means it.
  function IsValues(m: Meaning, f: Expr, env: seq<Entry>, s: State): bool {
    f.Var? && Lookup(env, f.id).None? && f.id in s.globals && s.globals[f.id] == Prim(m.values)
  }

  function Assign(env: seq<Entry>, id: Id, v: Value, s: State): State {
    match Lookup(env, id)
    case Some(loc) => Store(s, loc, v)
    case None => s.(globals := s.globals[id := v])
  }

  // Making a method evaluates the types it is specialized on.
  function EvalMethod(m: Meaning, mm: Method, env: seq<Entry>, s: State, fuel: nat): Outcome
    decreases fuel, 1, mm
  {
    match Eval(m, mm.specializers, env, s, fuel)
    case Done(_, s1) => Done([Closure(mm, env)], s1)
    case o => NoLoop(o)
  }

  // One value of each argument.
  function EvalArgs(m: Meaning, args: Exprs, env: seq<Entry>, s: State, fuel: nat): ArgsOutcome
    decreases fuel, 1, args
  {
    match args
    case NoArgs => Args([], s)
    case Arg(e, rest) =>
      match Eval(m, e, env, s, fuel)
      case Done(vs, s1) =>
        (match EvalArgs(m, rest, env, s1, fuel)
         case Args(ws, s2) => Args([First(vs)] + ws, s2)
         case Stop(o) => Stop(o))
      case o => Stop(NoLoop(o))
  }

  function EvalBody(m: Meaning, b: Body, env: seq<Entry>, s: State, fuel: nat): Outcome
    decreases fuel, 1, b
  {
    match b
    case Last(e) => Eval(m, e, env, s, fuel)
    case Then(e, rest) =>
      (match Eval(m, e, env, s, fuel)
       case Done(_, s1) => EvalBody(m, rest, env, s1, fuel)
       case o => o)
    case Let(vars, restVar, init, _, _, body) =>
      (match Eval(m, init, env, s, fuel)
       case Done(vs, s1) =>
         var env' := EntriesDown(LetVars(vars, restVar), |s1.mem|) + env;
         EvalBody(m, body, env', s1.(mem := s1.mem + Wanted(vs, |vars|, restVar.Some?)), fuel)
       case o => NoLoop(o))
    case Local(ms, _, _, body) =>
      var n := |Names(ms)|;
      var env' := EntriesUp(Names(ms), |s.mem|) + env;
      match EvalMethods(m, ms, |s.mem|, env', s.(mem := s.mem + seq(n, _ => Unset)), fuel)
      case Done(_, s1) => EvalBody(m, body, env', s1, fuel)
      case o => o
  }

  // Makes local methods and gives them to their variables.
  function EvalMethods(m: Meaning, ms: Methods, loc: nat, env: seq<Entry>, s: State, fuel: nat): Outcome
    decreases fuel, 1, ms
  {
    match ms
    case NoMethods => Done([], s)
    case AMethod(mm, rest) =>
      match EvalMethod(m, mm, env, s, fuel)
      case Done(vs, s1) => EvalMethods(m, rest, loc + 1, env, Store(s1, loc, First(vs)), fuel)
      case o => o
  }

  function Apply(m: Meaning, f: Value, args: seq<Value>, s: State, fuel: nat): Outcome
    decreases fuel, 0
  {
    match f
    case Prim(l) => Replied(m.builtin(l, Views(args), s.world), args, s)
    case Closure(mm, env) =>
      (match ParamValues(mm, args)
       case None => Exit(s)
       case Some(params) =>
         if fuel == 0 then Timeout
         else
           var env' := EntriesDown(mm.Bound(), |s.mem|) + env;
           match EvalBody(m, mm.body, env', s.(mem := s.mem + BoundValues(mm, params)), fuel - 1)
           case Again(_) => Wrong
           case o => o)
    case _ => Exit(s)
  }
}
