/**
 What the variables of a method get from the arguments of a call, and those of a let from the
 values of its expression.
 */
module Arguments {
  import opened Wrappers
  import opened Programs
  import opened Semantics

  // A keyword is looked for at every other place from n on, where a value follows.
  ghost predicate KeywordAt(k: Key, args: seq<Value>, n: nat, p: nat) {
    n <= p && p + 1 < |args| && (p - n) % 2 == 0 && args[p] == Prim(OtherLit(k.key))
  }

  // The value after the first place that holds the keyword, or the default if none does.
  ghost predicate KeywordValue(k: Key, args: seq<Value>, n: nat, v: Value) {
    && ((forall p: nat :: !KeywordAt(k, args, n, p)) ==> v == Prim(k.default))
    && forall p: nat :: KeywordAt(k, args, n, p) && (forall q: nat :: q < p ==> !KeywordAt(k, args, n, q)) ==> v == args[p + 1]
  }

  lemma {:induction false} KeyExactly(k: Key, args: seq<Value>, n: nat)
    requires n <= |args|
    ensures KeywordValue(k, args, n, KeyValue(k, args[n..]))
    decreases |args| - n
  {
    var rest := args[n..];
    if |rest| < 2 {
      assert forall p: nat :: !KeywordAt(k, args, n, p);
    } else if rest[0] == Prim(OtherLit(k.key)) {
      assert KeywordAt(k, args, n, n);
    } else {
      KeyExactly(k, args, n + 2);
      assert rest[2..] == args[n + 2..];
      assert KeyValue(k, rest) == KeyValue(k, args[n + 2..]);
      LaterValue(k, args, n, n + 2, KeyValue(k, rest));
    }
  }

  lemma LaterValue(k: Key, args: seq<Value>, n: nat, n': nat, v: Value)
    requires n < |args| && args[n] != Prim(OtherLit(k.key)) && n' == n + 2 && KeywordValue(k, args, n', v)
    ensures KeywordValue(k, args, n, v)
  {
    hide KeywordAt;
    forall p: nat ensures KeywordAt(k, args, n, p) <==> KeywordAt(k, args, n', p) { KeywordLater(k, args, n, n', p); }
  }

  lemma KeywordLater(k: Key, args: seq<Value>, n: nat, n': nat, p: nat)
    requires n < |args| && args[n] != Prim(OtherLit(k.key)) && n' == n + 2
    ensures KeywordAt(k, args, n, p) <==> KeywordAt(k, args, n', p)
  {
    if n + 2 <= p { assert (p - n) % 2 == (p - n') % 2; }
  }

  /** A call is refused exactly if it has too few arguments, or too many and no parameter takes them,
      or, with keywords, an odd number of them. */
  lemma RefusedExactly(mm: Method, args: seq<Value>)
    ensures ParamValues(mm, args).None? <==>
              || |args| < |mm.required|
              || (mm.restVar.None? && mm.keys == [] && |args| > |mm.required|)
              || (mm.keys != [] && (|args| - |mm.required|) % 2 == 1)
  {
  }

  /** Required parameters get the first arguments, in order; the rest parameter gets a vector of all
      the others; and each keyword parameter gets what follows its keyword, or its default. */
  lemma ParamsExactly(mm: Method, args: seq<Value>)
    requires ParamValues(mm, args).Some?
    ensures var r, n, k := ParamValues(mm, args).value, |mm.required|, if mm.restVar.Some? then 1 else 0;
            && |r| == n + k + |mm.keys| && n <= |args|
            && (forall i :: 0 <= i < n ==> r[i] == args[i])
            && (mm.restVar.Some? ==>
                  && r[n].Vector? && |r[n].elems| == |args| - n
                  && forall j :: 0 <= j < |args| - n ==> r[n].elems[j] == args[n + j])
            && forall i :: 0 <= i < |mm.keys| ==> KeywordValue(mm.keys[i], args, n, r[n + k + i])
  {
    hide KeyValue, KeywordValue;
    var r, n, k := ParamValues(mm, args).value, |mm.required|, if mm.restVar.Some? then 1 else 0;
    forall i | 0 <= i < |mm.keys| ensures KeywordValue(mm.keys[i], args, n, r[n + k + i]) {
      KeyExactly(mm.keys[i], args, n);
      assert r[n + k + i] == KeyValue(mm.keys[i], args[n..]);
    }
  }

  // What a name stands for.
  function ValueOf(env: seq<Entry>, s: State, id: Id): Option<Value> {
    match Lookup(env, id)
    case Some(loc) => if loc < |s.mem| then Some(s.mem[loc]) else None
    case None => None
  }

  // The first entry of a name counts.
  lemma {:induction false} EntryFound(entries: seq<Entry>, env: seq<Entry>, i: nat)
    requires i < |entries| && forall j :: 0 <= j < i ==> entries[j].id != entries[i].id
    ensures Lookup(entries + env, entries[i].id) == Some(entries[i].loc)
  {
    var all := entries + env;
    assert all[1..] == entries[1..] + env;
    if i > 0 {
      EntryFound(entries[1..], env, i - 1);
      assert all[0] == entries[0];
    }
  }

  lemma {:induction false} EntryNotFound(entries: seq<Entry>, env: seq<Entry>, id: Id)
    requires forall j :: 0 <= j < |entries| ==> entries[j].id != id
    ensures Lookup(entries + env, id) == Lookup(env, id)
  {
    var all := entries + env;
    if entries == [] {
      assert all == env;
    } else {
      assert all[1..] == entries[1..] + env;
      EntryNotFound(entries[1..], env, id);
    }
  }

  // New variables, with their values at the end of the store.
  lemma NewVariables(ids: seq<Id>, vs: seq<Value>, env: seq<Entry>, s: State)
    requires NoDup(ids) && |vs| == |ids|
    ensures var env', s' := EntriesDown(ids, |s.mem|) + env, s.(mem := s.mem + vs);
            && (forall i :: 0 <= i < |ids| ==> ValueOf(env', s', ids[i]) == Some(vs[i]))
            && (forall id :: id !in ids ==> Lookup(env', id) == Lookup(env, id))
  {
    var new_ := EntriesDown(ids, |s.mem|);
    forall i | 0 <= i < |ids| ensures ValueOf(new_ + env, s.(mem := s.mem + vs), ids[i]) == Some(vs[i]) {
      EntryFound(new_, env, |ids| - 1 - i);
    }
    forall id | id !in ids ensures Lookup(new_ + env, id) == Lookup(env, id) {
      EntryNotFound(new_, env, id);
    }
  }

  // The body of a method with its variables, and what follows from it for the call.
  function BodyOutcome(o: Outcome): Outcome {
    if o.Again? then Wrong else o
  }

  /** The body of a method is evaluated where its parameters stand for what the call gives them, no
      next methods are left, and all other names for what they stood for where it was made. */
  lemma CallBinds(m: Meaning, mm: Method, env: seq<Entry>, args: seq<Value>, s: State, fuel: nat) returns (env': seq<Entry>, s': State)
    requires NoDup(mm.Bound()) && ParamValues(mm, args).Some?
    ensures Apply(m, Closure(mm, env), args, s, fuel + 1) == BodyOutcome(EvalBody(m, mm.body, env', s', fuel))
    ensures s'.globals == s.globals && s'.world == s.world && s.mem <= s'.mem
    ensures forall i :: 0 <= i < |mm.required| ==> i < |args| && ValueOf(env', s', mm.required[i]) == Some(args[i])
    ensures mm.restVar.Some? ==>
              var v := ValueOf(env', s', mm.restVar.value);
              && v.Some? && v.value.Vector? && |v.value.elems| == |args| - |mm.required|
              && forall j :: 0 <= j < |args| - |mm.required| ==> v.value.elems[j] == args[|mm.required| + j]
    ensures forall i :: 0 <= i < |mm.keys| ==>
              var v := ValueOf(env', s', mm.keys[i].id);
              v.Some? && KeywordValue(mm.keys[i], args, |mm.required|, v.value)
    ensures mm.next.Some? ==> ValueOf(env', s', mm.next.value) == Some(Prim(NilLit))
    ensures forall id :: id !in mm.Bound() ==> Lookup(env', id) == Lookup(env, id)
  {
    hide EvalBody, KeyValue, KeywordValue, ValueOf, Lookup, EntriesDown, BoundValues, ParamValues, Method.Bound;
    var params := ParamValues(mm, args).value;
    var ids, vs := mm.Bound(), BoundValues(mm, params);
    env', s' := EntriesDown(ids, |s.mem|) + env, s.(mem := s.mem + vs);
    ParamsExactly(mm, args);
    BoundInOrder(mm, params);
    NewVariables(ids, vs, env, s);
    var n, k := |mm.required|, if mm.restVar.Some? then 1 else 0;
    forall i | 0 <= i < n ensures ValueOf(env', s', mm.required[i]) == Some(args[i]) {
      assert ids[i] == mm.required[i];
    }
    if mm.restVar.Some? { assert ids[n] == mm.restVar.value; }
    forall i | 0 <= i < |mm.keys| ensures ValueOf(env', s', mm.keys[i].id) == Some(params[n + k + i]) {
      assert ids[n + k + i] == mm.keys[i].id;
    }
    assert Apply(m, Closure(mm, env), args, s, fuel + 1) == BodyOutcome(EvalBody(m, mm.body, env', s', fuel));
  }

  // The variables of a method, and their values.
  lemma BoundInOrder(mm: Method, params: seq<Value>)
    requires |params| == |mm.required| + (if mm.restVar.Some? then 1 else 0) + |mm.keys|
    ensures var ids, vs, n, k := mm.Bound(), BoundValues(mm, params), |mm.required|, if mm.restVar.Some? then 1 else 0;
            && |ids| == |vs| == |params| + (if mm.next.Some? then 1 else 0)
            && (forall i :: 0 <= i < |params| ==> vs[i] == params[i])
            && (forall i :: 0 <= i < n ==> ids[i] == mm.required[i])
            && (mm.restVar.Some? ==> ids[n] == mm.restVar.value)
            && (forall i :: 0 <= i < |mm.keys| ==> ids[n + k + i] == mm.keys[i].id)
            && (mm.next.Some? ==> ids[|params|] == mm.next.value && vs[|params|] == Prim(NilLit))
  {
  }

  /** The variables of a let stand for the values of its expression in order, #f for those that are
      missing, and its rest variable for a vector of all further ones. */
  lemma LetBinds(m: Meaning, b: Body, vs: seq<Value>, s1: State, env: seq<Entry>, s: State, fuel: nat)
      returns (env': seq<Entry>, s': State)
    requires b.Let? && NoDup(LetVars(b.vars, b.restVar)) && Eval(m, b.init, env, s, fuel) == Done(vs, s1)
    ensures EvalBody(m, b, env, s, fuel) == EvalBody(m, b.body, env', s', fuel)
    ensures s'.globals == s1.globals && s'.world == s1.world && s1.mem <= s'.mem
    ensures forall i :: 0 <= i < |b.vars| ==>
              ValueOf(env', s', b.vars[i]) == Some(if i < |vs| then vs[i] else Prim(FalseLit))
    ensures b.restVar.Some? ==>
              var v, n := ValueOf(env', s', b.restVar.value), |b.vars|;
              && v.Some? && v.value.Vector? && |v.value.elems| == (if n <= |vs| then |vs| - n else 0)
              && forall j :: 0 <= j < |vs| - n ==> v.value.elems[j] == vs[n + j]
    ensures forall id :: id !in LetVars(b.vars, b.restVar) ==> Lookup(env', id) == Lookup(env, id)
  {
    hide Eval, ValueOf, Lookup;
    var ids, us := LetVars(b.vars, b.restVar), Wanted(vs, |b.vars|, b.restVar.Some?);
    env', s' := EntriesDown(ids, |s1.mem|) + env, s1.(mem := s1.mem + us);
    NewVariables(ids, us, env, s1);
    forall i | 0 <= i < |b.vars| ensures ValueOf(env', s', b.vars[i]) == Some(if i < |vs| then vs[i] else Prim(FalseLit)) {
      assert ids[i] == b.vars[i];
    }
    if b.restVar.Some? { assert ids[|b.vars|] == b.restVar.value; }
  }

  function Count(ms: Methods): nat {
    if ms.NoMethods? then 0 else 1 + Count(ms.rest)
  }

  function Nth(ms: Methods, i: nat): Method
    requires i < Count(ms)
  {
    if i == 0 then ms.method_ else Nth(ms.rest, i - 1)
  }

  // Their types take no work.
  predicate PlainTypes(ms: Methods) {
    ms.AMethod? ==> ms.method_.specializers.Lit? && PlainTypes(ms.rest)
  }

  lemma {:induction false} NamesCounted(ms: Methods)
    ensures |Names(ms)| == Count(ms) && forall i :: 0 <= i < Count(ms) ==> Names(ms)[i] == Nth(ms, i).name
  {
    if ms.AMethod? { NamesCounted(ms.rest); }
  }

  lemma {:induction false} MethodsMade(m: Meaning, ms: Methods, loc: nat, env: seq<Entry>, s: State, fuel: nat) returns (s': State)
    requires PlainTypes(ms) && loc + Count(ms) <= |s.mem|
    ensures EvalMethods(m, ms, loc, env, s, fuel) == Done([], s')
    ensures s'.globals == s.globals && s'.world == s.world && |s'.mem| == |s.mem|
    ensures forall i :: 0 <= i < Count(ms) ==> s'.mem[loc + i] == Closure(Nth(ms, i), env)
    ensures forall l :: 0 <= l < |s.mem| && !(loc <= l < loc + Count(ms)) ==> s'.mem[l] == s.mem[l]
    decreases ms
  {
    if ms.NoMethods? {
      s' := s;
    } else {
      var c := Closure(ms.method_, env);
      assert Eval(m, ms.method_.specializers, env, s, fuel) == Done([Prim(ms.method_.specializers.literal)], s);
      assert EvalMethod(m, ms.method_, env, s, fuel) == Done([c], s);
      s' := MethodsMade(m, ms.rest, loc + 1, env, Store(s, loc, c), fuel);
      forall i | 0 <= i < Count(ms) ensures s'.mem[loc + i] == Closure(Nth(ms, i), env) {
        if i > 0 { assert s'.mem[loc + 1 + (i - 1)] == Closure(Nth(ms.rest, i - 1), env); }
      }
    }
  }

  /** Each local method is known by its name, to the others and to what follows. */
  lemma LocalBinds(m: Meaning, b: Body, env: seq<Entry>, s: State, fuel: nat) returns (env': seq<Entry>, s': State)
    requires b.Local? && NoDup(Names(b.methods)) && PlainTypes(b.methods)
    ensures EvalBody(m, b, env, s, fuel) == EvalBody(m, b.body, env', s', fuel)
    ensures s'.globals == s.globals && s'.world == s.world && s.mem <= s'.mem
    ensures forall i :: 0 <= i < Count(b.methods) ==>
              ValueOf(env', s', Nth(b.methods, i).name) == Some(Closure(Nth(b.methods, i), env'))
    ensures forall id :: id !in Names(b.methods) ==> Lookup(env', id) == Lookup(env, id)
  {
    hide Lookup, EvalMethods;
    var ids, n := Names(b.methods), Count(b.methods);
    NamesCounted(b.methods);
    var new_ := EntriesUp(ids, |s.mem|);
    env' := new_ + env;
    var s1 := s.(mem := s.mem + seq(|ids|, _ => Unset));
    s' := MethodsMade(m, b.methods, |s.mem|, env', s1, fuel);
    forall i | 0 <= i < n ensures ValueOf(env', s', Nth(b.methods, i).name) == Some(Closure(Nth(b.methods, i), env')) {
      EntryFound(new_, env, i);
      assert new_[i].id == ids[i] == Nth(b.methods, i).name;
    }
    forall id | id !in ids ensures Lookup(env', id) == Lookup(env, id) { EntryNotFound(new_, env, id); }
  }
}
