/**
 What the compiler promises for whole programs: the byte code of an analyzed program does what
 the program means.
 */
module WholeProgram {
  import opened Wrappers
  import opened Programs
  import opened Growth
  import opened Analysis
  import opened Semantics
  import opened Slots
  import opened Codegen
  import opened Relation
  import opened Boxing
  import opened Machine
  import opened Assumptions
  import opened Erasure
  import Correctness
  import Compilers

  const TOP := Lexenv(0, [], 0)

  // Before the program runs there are only builtin functions and literals.
  predicate Initial(s: State) {
    s.mem == [] && forall id :: id in s.globals ==> s.globals[id].Prim?
  }

  /** A call that returns in the program returns from the machine: the values correspond, and so
      do the states. */
  lemma {:induction false} CallsRun(m: Meaning, t: Tables, w: Link, f: Value, g: Value, vs: seq<Value>, us: seq<Value>,
                                    s: State, u: State, fuel: nat)
      returns (w': Link, rs: seq<Value>, u': State)
    requires m.Good() && R(t, w, f, g) && AllR(t, w, vs, us) && StateR(t, w, s, u)
    requires Apply(m, f, vs, s, fuel).Done?
    ensures var o := Apply(m, f, vs, s, fuel);
            CallEndsIn(m, t, g, us, u, Gives(Returned(rs, u'))) && AllR(t, w', o.values, rs) && Steps(t, w, w', {}, s, o.state, u')
  {
    hide R, AllR, StateR, Steps, Apply, Invoke, CallEndsIn;
    w' := ApplySim(m, t, w, f, g, vs, us, s, u, fuel);
    var o' := Invoke(m, t, g, us, u, fuel);
    rs, u' := o'.values, o'.state;
    Correctness.InvokeRuns(m, t, g, us, u, fuel, Gives(Returned(rs, u')));
  }

  /** Under the assumptions of the compiler, a call that fails in the program fails in the machine,
      where everything that can be seen looks the same, and one that goes on for so many calls and
      rounds goes on for as many instructions. */
  lemma {:induction false} CallsStop(m: Meaning, t: Tables, w: Link, f: Value, g: Value, vs: seq<Value>, us: seq<Value>,
                                     s: State, u: State, fuel: nat)
      returns (goal: Goal)
    requires m.Good() && R(t, w, f, g) && AllR(t, w, vs, us) && StateR(t, w, s, u)
    requires var o := Apply(Assuming(m, t), f, vs, s, fuel); o.Exit? || o.Timeout?
    ensures CallEndsIn(m, t, g, us, u, goal)
    ensures match Apply(Assuming(m, t), f, vs, s, fuel)
            case Exit(s') => goal.Gives? && goal.result.Failed? && SeenAlike(s', goal.result.state)
            case _ => goal == Lasts(AtLeast(fuel))
  {
    hide R, AllR, StateR, Steps, Apply, Invoke, CallEndsIn, SeenAlike;
    var m' := Assuming(m, t);
    var _ := ApplySim(m', t, w, f, g, vs, us, s, u, fuel);
    var o := Invoke(m', t, g, us, u, fuel);
    goal := if o.Exit? then Gives(Failed(o.state)) else Lasts(AtLeast(fuel));
    Correctness.InvokeRuns(m', t, g, us, u, fuel, goal);
    CallEndsSame(m, m', t, g, us, u, goal);
  }

  // The instructions that a program takes at least when it has used up its fuel.
  function AtLeast(fuel: nat): nat {
    if fuel > 0 then fuel - 1 else 0
  }

  // What can be seen of a program that has run.
  ghost predicate LooksSame(vs: seq<Value>, s: State, us: seq<Value>, u: State) {
    Views(vs) == Views(us) && SeenAlike(s, u)
  }

  ghost predicate FailsRight(m: Meaning, t: Tables, mm: Method, s: State, s': State) {
    exists u :: CallEndsIn(m, t, Flat(mm, []), [], s, Gives(Failed(u))) && SeenAlike(s', u)
  }

  ghost predicate RunsRight(m: Meaning, t: Tables, mm: Method, s: State, vs: seq<Value>, s': State) {
    exists us, u :: CallEndsIn(m, t, Flat(mm, []), [], s, Gives(Returned(us, u))) && LooksSame(vs, s', us, u)
  }

  /** A program that ends ends in the machine too, and nobody can tell the difference: its values
      and global variables look the same, and the world is the same. */
  lemma {:induction false} ProgramRuns(m: Meaning, t: Tables, mm: Method, s: State, fuel: nat, vs: seq<Value>, s': State)
    requires m.Good() && GoodEnv(t, TOP) && ScopedMethod(t, mm, TOP) && Initial(s)
    requires Apply(m, Closure(mm, []), [], s, fuel) == Done(vs, s')
    ensures RunsRight(m, t, mm, s, vs, s')
  {
    hide R, StateR, Steps, Apply, CallEndsIn, ScopedMethod, GoodEnv, LooksSame;
    var w := Link(map[], map[], 0);
    InitialStates(t, w, s);
    ProgramR(t, w, mm);
    var w', us, u := CallsRun(m, t, w, Closure(mm, []), Flat(mm, []), [], [], s, s, fuel);
    Seen(t, w, w', s, vs, s', us, u);
  }

  // What the machine does where the program comes to that outcome.
  ghost predicate EndsAlike(m: Meaning, t: Tables, mm: Method, s: State, o: Outcome, fuel: nat) {
    match o
    case Done(vs, s') => RunsRight(m, t, mm, s, vs, s')
    case Exit(s') => FailsRight(m, t, mm, s, s')
    case Timeout => CallEndsIn(m, t, Flat(mm, []), [], s, Lasts(AtLeast(fuel)))
    case Again(_) => false
    case Wrong => true
  }

  /** A tame program ends in the machine in the same way: it returns the same, fails where nothing
      looks different, or does not end. */
  lemma {:induction false} TameProgramRuns(m: Meaning, t: Tables, mm: Method, s: State, fuel: nat)
    requires m.Good() && m.assumed.None? && GoodEnv(t, TOP) && ScopedMethod(t, mm, TOP) && TameMethod(t, mm) && Initial(s)
    ensures EndsAlike(m, t, mm, s, Apply(m, Closure(mm, []), [], s, fuel), fuel)
  {
    hide R, StateR, Apply, CallEndsIn, ScopedMethod, GoodEnv, TameMethod, Kept, ValueOk, StoreOk, Assuming, SeenAlike;
    var o := Apply(m, Closure(mm, []), [], s, fuel);
    var p := Places({}, 0);
    ProgramOk(t, p, mm, s);
    var _ := ApplySame(m, t, p, Closure(mm, []), [], s, fuel);
    if o.Done? {
      ProgramRuns(m, t, mm, s, fuel, o.values, o.state);
    } else if o.Exit? || o.Timeout? {
      var w := Link(map[], map[], 0);
      InitialStates(t, w, s);
      ProgramR(t, w, mm);
      var goal := CallsStop(m, t, w, Closure(mm, []), Flat(mm, []), [], [], s, s, fuel);
    } else {
      NeverAgain(m, mm, s, fuel);
    }
  }

  lemma NeverAgain(m: Meaning, mm: Method, s: State, fuel: nat)
    ensures !Apply(m, Closure(mm, []), [], s, fuel).Again?
  {
    hide EvalBody, ParamValues;
  }

  lemma ProgramOk(t: Tables, p: Places, mm: Method, s: State)
    requires p == Places({}, 0) && GoodEnv(t, TOP) && ScopedMethod(t, mm, TOP) && TameMethod(t, mm) && Initial(s)
    ensures ValueOk(t, p, Closure(mm, [])) && StoreOk(t, p, s) && AllOk(t, p, [])
  {
    hide GoodEnv, ScopedMethod, TameMethod;
    ClosureOk(t, p, mm, TOP, [], s);
    assert ValueOk(t, p, [Closure(mm, [])][0]);
  }

  /** What the machine says of such a program is true of it, unless it has no meaning: if it returns,
      the program does; if it fails, so does the program. */
  lemma {:induction false} MachineIsRight(m: Meaning, t: Tables, mm: Method, s: State, k: nat)
    requires m.Good() && m.assumed.None? && GoodEnv(t, TOP) && ScopedMethod(t, mm, TOP) && TameMethod(t, mm) && Initial(s)
    ensures var o := Apply(m, Closure(mm, []), [], s, k + 1);
            match Enter(m, t, Flat(mm, []), [], s, k)
            case Returned(us, u) => o.Wrong? || (o.Done? && LooksSame(o.values, o.state, us, u))
            case Failed(u) => o.Wrong? || (o.Exit? && SeenAlike(o.state, u))
            case OutOfFuel => true
  {
    hide Apply, Enter, ScopedMethod, GoodEnv, TameMethod, LooksSame, SeenAlike, Initial;
    var o, r := Apply(m, Closure(mm, []), [], s, k + 1), Enter(m, t, Flat(mm, []), [], s, k);
    TameProgramRuns(m, t, mm, s, k + 1);
    if r != OutOfFuel && !o.Wrong? {
      if o.Done? {
        var us, u :| CallEndsIn(m, t, Flat(mm, []), [], s, Gives(Returned(us, u))) && LooksSame(o.values, o.state, us, u);
        OneEnd(m, t, mm, s, k, Returned(us, u));
      } else if o.Exit? {
        var u :| CallEndsIn(m, t, Flat(mm, []), [], s, Gives(Failed(u))) && SeenAlike(o.state, u);
        OneEnd(m, t, mm, s, k, Failed(u));
      }
    }
  }

  // Execution has one end.
  lemma {:induction false} OneEnd(m: Meaning, t: Tables, mm: Method, s: State, k: nat, r: Result)
    requires CallEndsIn(m, t, Flat(mm, []), [], s, Gives(r)) && Enter(m, t, Flat(mm, []), [], s, k) != OutOfFuel
    ensures Enter(m, t, Flat(mm, []), [], s, k) == r
  {
    hide Enter;
    var n: nat :| CallEndsBy(m, t, Flat(mm, []), [], s, r, n);
    EnterMore(m, t, Flat(mm, []), [], s, k, k + n);
    assert Enter(m, t, Flat(mm, []), [], s, k + n) == r;
  }

  /** Such a program that does not end does not end in the machine. */
  lemma {:induction false} EndlessRuns(m: Meaning, t: Tables, mm: Method, s: State)
    requires m.Good() && m.assumed.None? && GoodEnv(t, TOP) && ScopedMethod(t, mm, TOP) && TameMethod(t, mm) && Initial(s)
    requires forall fuel: nat :: Apply(m, Closure(mm, []), [], s, fuel).Timeout?
    ensures forall k: nat :: Enter(m, t, Flat(mm, []), [], s, k) == OutOfFuel
  {
    hide Apply, Enter, ScopedMethod, GoodEnv, TameMethod, Initial;
    forall k: nat ensures Enter(m, t, Flat(mm, []), [], s, k) == OutOfFuel {
      TameProgramRuns(m, t, mm, s, k + 1);
      assert Apply(m, Closure(mm, []), [], s, k + 1).Timeout?;
    }
  }

  lemma InitialStates(t: Tables, w: Link, s: State)
    requires w == Link(map[], map[], 0) && Initial(s)
    ensures StateR(t, w, s, s)
  {
  }

  // The program takes no slots.
  lemma ProgramR(t: Tables, w: Link, mm: Method)
    requires GoodEnv(t, TOP) && ScopedMethod(t, mm, TOP)
    ensures R(t, w, Closure(mm, []), Flat(mm, []))
  {
    hide GoodEnv, ScopedBody, Scoped, NewBindings;
    BodyEnvGood(t, mm, TOP);
    var closes := t.methods[mm.id].closes;
    assert closes != [] ==> RightClose(t, closes[0], TOP);
  }

  lemma Seen(t: Tables, w: Link, w': Link, s: State, vs: seq<Value>, s': State, us: seq<Value>, u: State)
    requires AllR(t, w', vs, us) && Steps(t, w, w', {}, s, s', u)
    ensures LooksSame(vs, s', us, u)
  {
    hide R, Look, StateR, SeenAlike;
    AllLookAlike(t, w', vs, us);
    StatesAlike(t, w', s', u);
  }

  // The notes make no difference.
  lemma {:induction false} SameProgram(m: Meaning, mm: Method, r: Method, s: State, fuel: nat)
    requires m.assumed.None? && EraseMethod(r) == EraseMethod(mm) && Initial(s)
    ensures EraseOutcome(Apply(m, Closure(mm, []), [], s, fuel)) == EraseOutcome(Apply(m, Closure(r, []), [], s, fuel))
  {
    hide Apply;
    assert EraseState(s) == s by { InitialErased(s); }
    assert EraseAll([]) == [];
    ApplyErased(m, Closure(mm, []), [], s, fuel);
    ApplyErased(m, Closure(r, []), [], s, fuel);
  }

  lemma InitialErased(s: State)
    requires Initial(s)
    ensures EraseState(s) == s
  {
    assert EraseAll(s.mem) == s.mem;
    assert (map id | id in s.globals :: EraseValue(s.globals[id])) == s.globals;
  }

  lemma SeenErased(s: State, s': State, u: State)
    requires EraseState(s) == EraseState(s') && SeenAlike(s', u)
    ensures SeenAlike(s, u)
  {
    hide Look, EraseValue;
    assert forall id :: id in s.globals <==> id in EraseState(s).globals;
    assert forall id :: id in s'.globals <==> id in EraseState(s').globals;
    forall id | id in s.globals ensures Look(s.globals[id]) == Look(u.globals[id]) {
      assert EraseState(s).globals[id] == EraseState(s').globals[id];
      LookErased(s.globals[id]);
      LookErased(s'.globals[id]);
    }
  }

  lemma {:induction false} EndsErased(m: Meaning, t: Tables, r: Method, s: State, o: Outcome, o': Outcome, fuel: nat)
    requires EraseOutcome(o) == EraseOutcome(o') && EndsAlike(m, t, r, s, o', fuel)
    ensures EndsAlike(m, t, r, s, o, fuel)
  {
    hide CallEndsIn, SeenAlike, EraseAll, EraseState;
    if o.Done? {
      var us, u :| CallEndsIn(m, t, Flat(r, []), [], s, Gives(Returned(us, u))) && LooksSame(o'.values, o'.state, us, u);
      SeenErased(o.state, o'.state, u);
      ViewsErased(o.values);
      ViewsErased(o'.values);
      assert LooksSame(o.values, o.state, us, u);
    } else if o.Exit? {
      var u :| CallEndsIn(m, t, Flat(r, []), [], s, Gives(Failed(u))) && SeenAlike(o'.state, u);
      SeenErased(o.state, o'.state, u);
    }
  }

  /** The analysis of a program: the byte code of what it gives does what the program means, as long
      as it returns, or whatever it does if it is tame. */
  method AnalyzeProgram(mm: Method) returns (r: Method, t: Tables)
    ensures EraseMethod(r) == EraseMethod(mm) && GoodEnv(t, TOP) && ScopedMethod(t, r, TOP)
    ensures forall m: Meaning, s, fuel: nat :: m.Good() && m.assumed.None? && Initial(s) ==>
              var o := Apply(m, Closure(mm, []), [], s, fuel);
              o.Done? || TameMethod(t, r) ==> EndsAlike(m, t, r, s, o, fuel)
  {
    hide GoodEnv, ScopedMethod, EndsAlike, Apply, Initial, TameMethod;
    var analyzer := new Analyzer();
    r := analyzer.AnalyzeMethod(mm, TOP);
    t := analyzer.T();
    forall m: Meaning, s, fuel: nat | m.Good() && m.assumed.None? && Initial(s)
      ensures var o := Apply(m, Closure(mm, []), [], s, fuel); o.Done? || TameMethod(t, r) ==> EndsAlike(m, t, r, s, o, fuel)
    {
      var o := Apply(m, Closure(mm, []), [], s, fuel);
      if o.Done? || TameMethod(t, r) { AnalyzedRuns(m, t, mm, r, s, fuel); }
    }
  }

  lemma {:induction false} AnalyzedRuns(m: Meaning, t: Tables, mm: Method, r: Method, s: State, fuel: nat)
    requires m.Good() && m.assumed.None? && GoodEnv(t, TOP) && ScopedMethod(t, r, TOP) && Initial(s)
    requires EraseMethod(r) == EraseMethod(mm) && (Apply(m, Closure(mm, []), [], s, fuel).Done? || TameMethod(t, r))
    ensures EndsAlike(m, t, r, s, Apply(m, Closure(mm, []), [], s, fuel), fuel)
  {
    hide GoodEnv, ScopedMethod, Apply, Initial, TameMethod, RunsRight, CallEndsIn, EraseAll, EraseState;
    var o, o' := Apply(m, Closure(mm, []), [], s, fuel), Apply(m, Closure(r, []), [], s, fuel);
    SameProgram(m, mm, r, s, fuel);
    if o'.Done? {
      ProgramRuns(m, t, r, s, fuel, o'.values, o'.state);
    } else {
      TameProgramRuns(m, t, r, s, fuel);
    }
    EndsErased(m, t, r, s, o, o', fuel);
  }

  /** The whole compiler. Unless an operand is too large for it, the component holds the encoding of
      code that does what the program means, and the interpreter reads it back instruction by
      instruction. */
  method CompileProgram(mm: Method) returns (ok: bool, r: Method, t: Tables, compiler: Compilers.Compiler)
    ensures EraseMethod(r) == EraseMethod(mm)
    ensures ok <==> Compilers.Fits(GenMethod(t, r).instrs)
    ensures ok ==>
              && compiler.Valid() && compiler.Now().bytes == Compilers.Bytes(GenMethod(t, r).instrs)
              && compiler.constants == GenMethod(t, r).constants
              && forall i: nat :: i < |GenMethod(t, r).instrs| ==> Compilers.Fetched(GenMethod(t, r).instrs, i)
    ensures forall m: Meaning, s, fuel: nat :: m.Good() && m.assumed.None? && Initial(s) ==>
              var o := Apply(m, Closure(mm, []), [], s, fuel);
              o.Done? || TameMethod(t, r) ==> EndsAlike(m, t, r, s, o, fuel)
  {
    hide GoodEnv, ScopedMethod, EndsAlike, Apply, Initial, TameMethod, GenMethod, EraseMethod, Compilers.Fetched, Compilers.Bytes, Compilers.Fits;
    r, t := AnalyzeProgram(mm);
    compiler := new Compilers.Compiler(t);
    var code := GenMethod(t, r).instrs;
    ok := Compilers.Fits(code);
    if ok {
      compiler.CompileMethod(r);
      forall i: nat | i < |code| ensures Compilers.Fetched(code, i) { Compilers.FetchesAll(code, i); }
    }
  }
}
