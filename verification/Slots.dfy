/**
 What the compiled program does: variables are slots of frames, some of them holding value
 cells, and a method has copies of the slots it closes over.
 */
module Slots {
  import opened Wrappers
  import opened Programs
  import opened Semantics

  // Below the frame pointer are the function, its arguments, the next methods, the variables
  // the method closes over, and five words of linkage; from it on, the local variables.
  datatype Frame = Frame(below: seq<Value>, locals: seq<Value>)

  const LINKAGE: nat := 5

  // The operand of an instruction that pushes or pops a variable.
  datatype Place = ArgPlace(k: nat) | LocalPlace(k: nat)

  // fp[-6 - k] or fp[k]
  function Peek(fr: Frame, p: Place): Value {
    match p
    case ArgPlace(k) => var i := |fr.below| - 6 - k; if 0 <= i < |fr.below| then fr.below[i] else FALSE
    case LocalPlace(k) => if k < |fr.locals| then fr.locals[k] else FALSE
  }

  function Poke(fr: Frame, p: Place, v: Value): Frame {
    match p
    case ArgPlace(k) => var i := |fr.below| - 6 - k; if 0 <= i < |fr.below| then fr.(below := fr.below[i := v]) else fr
    case LocalPlace(k) => if k < |fr.locals| then fr.(locals := fr.locals[k := v]) else fr
  }

  // The binding that a note names.
  function Noted(t: Tables, b: nat): Binding {
    if b < |t.bindings| then t.bindings[b] else Binding(Id("", false), 0, false, false, false, false, 0)
  }

  function Closes(t: Tables, m: nat): seq<Over> {
    if m < |t.methods| then t.methods[m].closes else []
  }

  function FirstParam(t: Tables, m: nat): nat {
    if m < |t.methods| then t.methods[m].firstParam else 0
  }

  // Where the home of a binding has it.
  function HomePlace(t: Tables, b: nat): Place {
    var binding := Noted(t, b);
    var nargs := if binding.home < |t.methods| then t.methods[binding.home].nargs else 0;
    if !binding.argument then LocalPlace(binding.offset)
    else ArgPlace(if binding.offset < nargs then nargs - binding.offset - 1 else 0)
  }

  // Where the method of a reference has the binding.
  function RefPlace(t: Tables, b: nat, ref: Ref): Place {
    if Noted(t, b).home != ref.home then ArgPlace(ref.over) else HomePlace(t, b)
  }

  // Where the parent of a method has a variable that the method closes over.
  function OverPlace(t: Tables, over: Over): Place {
    if over.over.Some? then ArgPlace(over.over.value) else HomePlace(t, over.binding)
  }

  function CellRef(s: State, v: Value): Value {
    if v.Cell? && v.cell < |s.mem| then s.mem[v.cell] else FALSE
  }

  function CellSet(s: State, cell: Value, v: Value): State {
    if cell.Cell? then Store(s, cell.cell, v) else s
  }

  function MakeCell(s: State, v: Value): (r: (Value, State)) {
    (Cell(|s.mem|), s.(mem := s.mem + [v]))
  }

  datatype Ran = Ran(outcome: Outcome, frame: Frame)

  datatype RanArgs = RanArgs(outcome: ArgsOutcome, frame: Frame)

  function ReadVar(t: Tables, ref: Ref, fr: Frame, s: State): Value
    requires ref.binding.Some?
  {
    var b := ref.binding.value;
    var slot := Peek(fr, RefPlace(t, b, ref));
    if Noted(t, b).Boxed() then CellRef(s, slot) else slot
  }

  function WriteVar(t: Tables, ref: Ref, v: Value, fr: Frame, s: State): (Frame, State)
    requires ref.binding.Some?
  {
    var b := ref.binding.value;
    var p := RefPlace(t, b, ref);
    if Noted(t, b).home != ref.home || Noted(t, b).closedOver then (fr, CellSet(s, Peek(fr, p), v))
    else (Poke(fr, p, v), s)
  }

  // The slots that a method takes with it; the variable closed over last comes first.
  function TakenSlots(t: Tables, m: nat, fr: Frame): seq<Value> {
    var closes := Closes(t, m);
    seq(|closes|, i requires 0 <= i < |closes| => Peek(fr, OverPlace(t, closes[|closes| - 1 - i])))
  }

  // Pops a value into the slot of a new variable.
  function PopNew(t: Tables, b: nat, v: Value, fr: Frame, s: State): (Frame, State) {
    if Noted(t, b).Boxed() then
      var (cell, s') := MakeCell(s, v);
      (Poke(fr, HomePlace(t, b), cell), s')
    else (Poke(fr, HomePlace(t, b), v), s)
  }

  // Pops the last n values into the slots of the variables of a let, the last one first.
  function PopAll(t: Tables, first: nat, vs: seq<Value>, n: nat, fr: Frame, s: State): (Frame, State)
    requires n <= |vs|
  {
    if n == 0 then (fr, s)
    else
      var (fr', s') := PopNew(t, first + n - 1, vs[n - 1], fr, s);
      PopAll(t, first, vs, n - 1, fr', s')
  }

  // Makes the value cells of local methods that are closed over.
  function MakeCells(t: Tables, first: nat, n: nat, fr: Frame, s: State): (Frame, State) {
    if n == 0 then (fr, s)
    else
      var (fr', s') := MakeCells(t, first, n - 1, fr, s);
      var b := first + n - 1;
      if Noted(t, b).closedOver then
        var (cell, s2) := MakeCell(s', FALSE);
        (Poke(fr', HomePlace(t, b), cell), s2)
      else (fr', s')
  }

  // Puts a local method in its variable.
  function StoreMethod(t: Tables, b: nat, v: Value, fr: Frame, s: State): (Frame, State) {
    var p := HomePlace(t, b);
    if Noted(t, b).closedOver then (fr, CellSet(s, Peek(fr, p), v)) else (Poke(fr, p, v), s)
  }

  // The frame of a call.
  function NewFrame(m: Meaning, t: Tables, f: Value, params: seq<Value>, slots: seq<Value>, id: nat): Frame {
    Frame([f] + params + [NO_NEXT] + slots + seq(LINKAGE, i requires 0 <= i < LINKAGE => m.junk(i)),
          seq(if id < |t.methods| then t.methods[id].frameSize else 0, i requires 0 <= i => m.junk(i)))
  }

  // Puts parameters that need it in value cells, the last one first.
  function BoxParams(t: Tables, first: nat, n: nat, fr: Frame, s: State): (Frame, State) {
    if n == 0 then (fr, s)
    else
      var b := first + n - 1;
      if Noted(t, b).Boxed() then
        var (cell, s') := MakeCell(s, Peek(fr, HomePlace(t, b)));
        BoxParams(t, first, n - 1, Poke(fr, HomePlace(t, b), cell), s')
      else BoxParams(t, first, n - 1, fr, s)
  }

  function Run(m: Meaning, t: Tables, e: Expr, fr: Frame, s: State, fuel: nat): Ran
    decreases fuel, 1, e
  {
    match e
    case Var(id, ref) =>
      if ref.binding.Some? then
        if Surprising(m, ref, ReadVar(t, ref, fr, s)) then Ran(Wrong, fr) else Ran(Done([ReadVar(t, ref, fr, s)], s), fr)
      else if id in s.globals then Ran(Done([s.globals[id]], s), fr)
      else Ran(Exit(s), fr)
    case Lit(l) => Ran(Done([Prim(l)], s), fr)
    case Call(f, args) =>
      if Hasty(m, f) then Ran(Wrong, fr)
      else
        (match Run(m, t, f, fr, s, fuel)
         case Ran(Done(fs, s1), fr1) =>
           if !Callable(m, First(fs)) then Ran(Exit(s1), fr1)
           else
             (match RunArgs(m, t, args, fr1, s1, fuel)
              case RanArgs(Args(vs, s2), fr2) => Ran(Invoke(m, t, First(fs), vs, s2, fuel), fr2)
              case RanArgs(Stop(o), fr2) => Ran(o, fr2))
         case Ran(o, fr1) => Ran(NoLoop(o), fr1))
    case Binary(op, l, r) =>
      (match Run(m, t, l, fr, s, fuel)
       case Ran(Done(vs, s1), fr1) =>
         (match Run(m, t, r, fr1, s1, fuel)
          case Ran(Done(ws, s2), fr2) =>
            var args := [First(vs), First(ws)];
            Ran(RepliedOne(m.binary(op, Views(args), s2.world), args, s2), fr2)
          case Ran(o, fr2) => Ran(NoLoop(o), fr2))
       case Ran(o, fr1) => Ran(NoLoop(o), fr1))
    case Values(f, args) =>
      if !FindsValues(m, f, s) then Ran(Wrong, fr)
      else
        (match RunArgs(m, t, args, fr, s, fuel)
         case RanArgs(Args(vs, s1), fr1) => Ran(Done(vs, s1), fr1)
         case RanArgs(Stop(o), fr1) => Ran(o, fr1))
    case Dot(a, f) =>
      if Hasty(m, f) then Ran(Wrong, fr)
      else
        (match Run(m, t, a, fr, s, fuel)
         case Ran(Done(vs, s1), fr1) =>
           (match Run(m, t, f, fr1, s1, fuel)
            case Ran(Done(fs, s2), fr2) =>
              if !Callable(m, First(fs)) then Ran(Exit(s2), fr2)
              else Ran(Invoke(m, t, First(fs), [First(vs)], s2, fuel), fr2)
            case Ran(o, fr2) => Ran(NoLoop(o), fr2))
         case Ran(o, fr1) => Ran(NoLoop(o), fr1))
    case MethodRef(mm) => RunMethod(m, t, mm, fr, s, fuel)
    case BodyExpr(b) => RunBody(m, t, b, fr, s, fuel)
    case If(c, a, b) =>
      (match Run(m, t, c, fr, s, fuel)
       case Ran(Done(vs, s1), fr1) =>
         if First(vs) != FALSE then RunBody(m, t, a, fr1, s1, fuel) else RunBody(m, t, b, fr1, s1, fuel)
       case Ran(o, fr1) => Ran(NoLoop(o), fr1))
    case Set(id, ref, value) =>
      (match Run(m, t, value, fr, s, fuel)
       case Ran(Done(vs, s1), fr1) =>
         if ref.binding.Some? then
           var (fr2, s2) := WriteVar(t, ref, First(vs), fr1, s1);
           Ran(Done([First(vs)], s2), fr2)
         else Ran(Done([First(vs)], s1.(globals := s1.globals[id := First(vs)])), fr1)
       case Ran(o, fr1) => Ran(NoLoop(o), fr1))
    case Loop(b) =>
      (match RunBody(m, t, b, fr, s, fuel)
       case Ran(Again(s1), fr1) => if fuel == 0 then Ran(Timeout, fr1) else Run(m, t, e, fr1, s1, fuel - 1)
       case x => x)
    case Repeat => Ran(Again(s), fr)
  }

  function FindsValues(m: Meaning, f: Expr, s: State): bool {
    f.Var? && f.ref.binding.None? && f.id in s.globals && s.globals[f.id] == Prim(m.values)
  }

  function RunMethod(m: Meaning, t: Tables, mm: Method, fr: Frame, s: State, fuel: nat): Ran
    decreases fuel, 1, mm
  {
    var slots := TakenSlots(t, mm.id, fr);
    match Run(m, t, mm.specializers, fr, s, fuel)
    case Ran(Done(_, s1), fr1) => Ran(Done([Flat(mm, slots)], s1), fr1)
    case Ran(o, fr1) => Ran(NoLoop(o), fr1)
  }

  function RunArgs(m: Meaning, t: Tables, args: Exprs, fr: Frame, s: State, fuel: nat): RanArgs
    decreases fuel, 1, args
  {
    match args
    case NoArgs => RanArgs(Args([], s), fr)
    case Arg(e, rest) =>
      match Run(m, t, e, fr, s, fuel)
      case Ran(Done(vs, s1), fr1) =>
        (match RunArgs(m, t, rest, fr1, s1, fuel)
         case RanArgs(Args(ws, s2), fr2) => RanArgs(Args([First(vs)] + ws, s2), fr2)
         case x => x)
      case Ran(o, fr1) => RanArgs(Stop(NoLoop(o)), fr1)
  }

  function RunBody(m: Meaning, t: Tables, b: Body, fr: Frame, s: State, fuel: nat): Ran
    decreases fuel, 1, b
  {
    match b
    case Last(e) => Run(m, t, e, fr, s, fuel)
    case Then(e, rest) =>
      (match Run(m, t, e, fr, s, fuel)
       case Ran(Done(_, s1), fr1) => RunBody(m, t, rest, fr1, s1, fuel)
       case x => x)
    case Let(vars, restVar, init, first, _, body) =>
      (match Run(m, t, init, fr, s, fuel)
       case Ran(Done(vs, s1), fr1) =>
         var values := Wanted(vs, |vars|, restVar.Some?);
         var (fr2, s2) := PopAll(t, first, values, |values|, fr1, s1);
         RunBody(m, t, body, fr2, s2, fuel)
       case Ran(o, fr1) => Ran(NoLoop(o), fr1))
    case Local(ms, first, _, body) =>
      var (fr1, s1) := MakeCells(t, first, |Names(ms)|, fr, s);
      match RunMethods(m, t, ms, first, fr1, s1, fuel)
      case Ran(Done(_, s2), fr2) => RunBody(m, t, body, fr2, s2, fuel)
      case x => x
  }

  function RunMethods(m: Meaning, t: Tables, ms: Methods, b: nat, fr: Frame, s: State, fuel: nat): Ran
    decreases fuel, 1, ms
  {
    match ms
    case NoMethods => Ran(Done([], s), fr)
    case AMethod(mm, rest) =>
      match RunMethod(m, t, mm, fr, s, fuel)
      case Ran(Done(vs, s1), fr1) =>
        var (fr2, s2) := StoreMethod(t, b, First(vs), fr1, s1);
        RunMethods(m, t, rest, b + 1, fr2, s2, fuel)
      case x => x
  }

  function Invoke(m: Meaning, t: Tables, f: Value, args: seq<Value>, s: State, fuel: nat): Outcome
    decreases fuel, 0
  {
    match f
    case Prim(l) => Replied(m.builtin(l, Views(args), s.world), args, s)
    case Flat(mm, slots) =>
      (match ParamValues(mm, args)
       case None => Exit(s)
       case Some(params) =>
         if fuel == 0 then Timeout
         else
           var (fr, s1) := BoxParams(t, FirstParam(t, mm.id), |mm.Bound()|, NewFrame(m, t, f, params, slots, mm.id), s);
           match RunBody(m, t, mm.body, fr, s1, fuel - 1).outcome
           case Again(_) => Wrong
           case o => o)
    case _ => Exit(s)
  }
}
