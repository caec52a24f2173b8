/**
 The expander for calls of & and |, and for conditionals whose condition is a conditional.

 Expanding keeps the meaning of an expression, and it stops although both arms of a conditional
 may be duplicated and expanded again.
 */
module IfExpansion {
  import opened Wrappers
  import opened Syntax
  import opened Duplication

  // A conditional counts its condition once for each arm: a nested condition weighs more than
  // the same conditions one after the other.
  function Weight(e: Expr): (n: nat)
    ensures n >= 1
    decreases e
  {
    match e
    case Var(_) => 1
    case Temp(_) => 1
    case Literal(_) => 1
    case Call(f, args) => Weight(f) + ArgsWeight(args) + 1
    case Dot(a, f) => Weight(a) + Weight(f)
    case BodyExpr(b) => BodyWeight(b)
    case If(c, a, b) => IfWeight(Weight(c), BodyWeight(a) + BodyWeight(b))
    case Set(_, v) => Weight(v)
    case And(args) => AndWeight(args)
    case Or(args) => OrWeight(args)
    case Form(_) => 1
  }

  function IfWeight(cond: nat, arms: nat): (n: nat)
    ensures cond >= 1 ==> n >= 1
  {
    assert cond >= 1 ==> cond * (1 + arms) >= 1;
    cond * (1 + arms)
  }

  function ArgsWeight(args: Exprs): nat
    decreases args
  {
    match args
    case NoArgs => 0
    case Arg(e, rest) => Weight(e) + ArgsWeight(rest)
  }

  function AndWeight(args: Exprs): (n: nat)
    ensures n >= 1
    decreases args
  {
    match args
    case NoArgs => 2
    case Arg(e, rest) => 1 + IfWeight(Weight(e), AndWeight(rest) + 1)
  }

  function OrWeight(args: Exprs): (n: nat)
    ensures n >= 1
    decreases args
  {
    match args
    case NoArgs => 2
    case Arg(e, rest) => 3 + Weight(e) + OrWeight(rest)
  }

  function BodyWeight(b: Body): (n: nat)
    ensures n >= 1
    decreases b
  {
    match b
    case Empty => 1
    case Then(e, rest) => Weight(e) + (if rest.Empty? then 0 else BodyWeight(rest))
    case Let(_, init, body) => Weight(init) + BodyWeight(body)
    case Other(_) => 1
  }

  /** Nothing is left to expand: no calls of & and |, no empty bodies, no literal conditions, and
      a condition is itself a conditional only if an arm cannot be copied. */
  predicate Expanded(e: Expr)
    decreases e
  {
    match e
    case Var(_) => true
    case Temp(_) => true
    case Literal(_) => true
    case Call(f, args) => Expanded(f) && ExpandedArgs(args)
    case Dot(a, f) => Expanded(a) && Expanded(f)
    case BodyExpr(b) => ExpandedBody(b)
    case If(c, a, b) =>
      && Expanded(c) && ExpandedBody(a) && ExpandedBody(b)
      && !c.Literal?
      && (c.If? ==> !CopyableBody(a) || !CopyableBody(b))
    case Set(_, v) => Expanded(v)
    case And(_) => false
    case Or(_) => false
    case Form(_) => true
  }

  predicate ExpandedArgs(args: Exprs)
    decreases args
  {
    args.Arg? ==> Expanded(args.expr) && ExpandedArgs(args.rest)
  }

  predicate ExpandedBody(b: Body)
    decreases b
  {
    match b
    case Empty => false
    case Then(e, rest) => Expanded(e) && (rest.Empty? || ExpandedBody(rest))
    case Let(_, init, body) => Expanded(init) && ExpandedBody(body)
    case Other(_) => true
  }

  // The literal that the body consists of.
  function ExtractLiteral(b: Body): Option<Value> {
    match b
    case Empty => Some(False)
    case Then(Literal(v), Empty) => Some(v)
    case _ => None
  }

  // What follows the condition.
  function Branch(m: Meaning, env: Env, o: Outcome<Value>, a: Body, b: Body): Outcome<Value> {
    match o
    case Exit(w) => Exit(w)
    case Done(v, w) => if v != False then EvalBody(m, env, a, w) else EvalBody(m, env, b, w)
  }

  lemma IfMeans(m: Meaning, env: Env, c: Expr, a: Body, b: Body, w: World)
    ensures Eval(m, env, If(c, a, b), w) == Branch(m, env, Eval(m, env, c, w), a, b)
  {
  }

  lemma SingleMeans(m: Meaning, env: Env, e: Expr, w: World)
    ensures EvalBody(m, env, Then(e, Empty), w) == Eval(m, env, e, w)
    ensures BodyWeight(Then(e, Empty)) == Weight(e)
  {
  }

  lemma BodyExprMeans(m: Meaning, env: Env, b: Body, w: World)
    ensures Eval(m, env, BodyExpr(b), w) == EvalBody(m, env, b, w)
    ensures Weight(BodyExpr(b)) == BodyWeight(b)
  {
  }

  lemma WeightOfIf(c: Expr, a: Body, b: Body)
    ensures Weight(If(c, a, b)) == IfWeight(Weight(c), BodyWeight(a) + BodyWeight(b))
  {
  }

  lemma LiteralMeans(m: Meaning, env: Env, v: Value, w: World)
    ensures Eval(m, env, Literal(v), w) == Done(v, w) && Weight(Literal(v)) == 1
  {
  }

  lemma MakeBodyExprMeans(m: Meaning, env: Env, b: Body, w: World)
    ensures Eval(m, env, MakeBodyExpr(b), w) == EvalBody(m, env, b, w)
    ensures Weight(MakeBodyExpr(b)) == BodyWeight(b)
  {
    hide Eval, EvalBody, Weight, BodyWeight;
    if b.Then? && b.rest.Empty? {
      SingleMeans(m, env, b.expr, w);
    } else {
      BodyExprMeans(m, env, b, w);
    }
  }

  lemma MakeBodyExprWeight(b: Body)
    ensures Weight(MakeBodyExpr(b)) == BodyWeight(b)
  {
    BodyExprWeight(b);
  }

  lemma MakeBodyExprBelow(b: Body, k: nat)
    requires BodyBelow(b, k)
    ensures Below(MakeBodyExpr(b), k)
  {
  }

  // A conditional whose condition is known.
  lemma KnownCondition(v: Value, a: Body, b: Body)
    ensures Same(If(Literal(v), a, b), MakeBodyExpr(if v == False then b else a))
    ensures BodyWeight(a) < Weight(If(Literal(v), a, b)) && BodyWeight(b) < Weight(If(Literal(v), a, b))
  {
    hide Eval, EvalBody, Weight, BodyWeight;
    var r := if v == False then b else a;
    forall m, env, w ensures Eval(m, env, If(Literal(v), a, b), w) == Eval(m, env, MakeBodyExpr(r), w) {
      IfMeans(m, env, Literal(v), a, b, w);
      MakeBodyExprMeans(m, env, r, w);
      LiteralMeans(m, env, v, w);
    }
    WeightOfIf(Literal(v), a, b);
    assert Weight(Literal(v)) == 1 by { WeightOfLiteral(v); }
  }

  lemma WeightOfLiteral(v: Value)
    ensures Weight(Literal(v)) == 1
  {
  }

  // The condition is a conditional with known arms. The arm that is chosen is not empty.
  lemma KnownArms(c: Expr, p: Body, q: Body, a: Body, b: Body)
    requires ExtractLiteral(p).Some? && ExtractLiteral(q).Some? && !a.Empty? && !b.Empty?
    ensures var r := WithKnownArms(c, ExtractLiteral(p).value, ExtractLiteral(q).value, a, b);
            Same(If(If(c, p, q), a, b), r) && Weight(r) <= Weight(If(If(c, p, q), a, b))
  {
    hide Eval, EvalBody, Weight, BodyWeight, ExtractLiteral;
    var before, r := If(If(c, p, q), a, b), WithKnownArms(c, ExtractLiteral(p).value, ExtractLiteral(q).value, a, b);
    forall m, env, w ensures Eval(m, env, before, w) == Eval(m, env, r, w) {
      KnownArmsEval(m, env, c, p, q, a, b, w);
    }
    WeightOfIf(If(c, p, q), a, b);
    WeightOfIf(c, p, q);
    WeightOfIf(c, a, b);
    WeightOfIf(c, b, a);
    WeightOfSequel(c, a);
    WeightOfSequel(c, b);
    KnownArmsWeight(Weight(c), BodyWeight(p) + BodyWeight(q), BodyWeight(a), BodyWeight(b));
  }

  lemma WeightOfSequel(c: Expr, b: Body)
    requires !b.Empty?
    ensures Weight(BodyExpr(Then(c, b))) == Weight(c) + BodyWeight(b)
  {
  }

  function WithKnownArms(c: Expr, p: Value, q: Value, a: Body, b: Body): Expr {
    if p != False then
      if q != False then BodyExpr(Then(c, a)) else If(c, a, b)
    else
      if q != False then If(c, b, a) else BodyExpr(Then(c, b))
  }

  lemma KnownArmsEval(m: Meaning, env: Env, c: Expr, p: Body, q: Body, a: Body, b: Body, w: World)
    requires ExtractLiteral(p).Some? && ExtractLiteral(q).Some? && !a.Empty? && !b.Empty?
    ensures Eval(m, env, If(If(c, p, q), a, b), w)
         == Eval(m, env, WithKnownArms(c, ExtractLiteral(p).value, ExtractLiteral(q).value, a, b), w)
  {
    hide Eval, EvalBody, ExtractLiteral;
    IfMeans(m, env, If(c, p, q), a, b, w);
    IfMeans(m, env, c, p, q, w);
    IfMeans(m, env, c, a, b, w);
    IfMeans(m, env, c, b, a, w);
    SequelMeans(m, env, c, a, w);
    SequelMeans(m, env, c, b, w);
    LiteralBody(m, env, p);
    LiteralBody(m, env, q);
  }

  lemma SequelMeans(m: Meaning, env: Env, c: Expr, b: Body, w: World)
    requires !b.Empty?
    ensures Eval(m, env, BodyExpr(Then(c, b)), w) == Branch(m, env, Eval(m, env, c, w), b, b)
  {
    assert EvalBody(m, env, Then(c, b), w) == Branch(m, env, Eval(m, env, c, w), b, b);
  }

  lemma LiteralBody(m: Meaning, env: Env, b: Body)
    requires ExtractLiteral(b).Some?
    ensures forall w :: EvalBody(m, env, b, w) == Done(ExtractLiteral(b).value, w)
  {
  }

  lemma KnownArmsWeight(c: nat, arms: nat, a: nat, b: nat)
    requires c >= 1 && arms >= 2 && a >= 1 && b >= 1
    ensures c + a <= IfWeight(IfWeight(c, arms), a + b) && c + b <= IfWeight(IfWeight(c, arms), a + b)
    ensures IfWeight(c, a + b) <= IfWeight(IfWeight(c, arms), a + b)
  {
    hide IfWeight;
    IfWeightGrows(c, arms);
    Product(c, IfWeight(c, arms), a + b, a + b);
    AtLeastSum(c, a + b);
  }

  lemma IfWeightGrows(c: nat, arms: nat)
    requires c >= 1
    ensures IfWeight(c, arms) >= c
  {
    assert c * arms >= 0 && c * (1 + arms) == c + c * arms;
  }

  lemma AtLeastSum(c: nat, n: nat)
    requires c >= 1
    ensures IfWeight(c, n) >= c + n
  {
    assert c * n >= n && c * (1 + n) == c + c * n;
  }

  // The condition is a conditional: its arms become conditions, with the arms for one of them and
  // their copies for the other.
  function Distributed(c: Expr, p: Body, q: Body, a: Body, b: Body, a': Body, b': Body): Expr {
    If(c, Then(If(MakeBodyExpr(p), a, b), Empty), Then(If(MakeBodyExpr(q), a', b'), Empty))
  }

  lemma Distributes(c: Expr, p: Body, q: Body, a: Body, b: Body, a': Body, b': Body)
    requires SameBody(a, a') && SameBody(b, b') && BodyWeight(a') == BodyWeight(a) && BodyWeight(b') == BodyWeight(b)
    ensures Same(If(If(c, p, q), a, b), Distributed(c, p, q, a, b, a', b'))
    ensures Weight(Distributed(c, p, q, a, b, a', b')) < Weight(If(If(c, p, q), a, b))
  {
    hide Eval, EvalBody, Weight, BodyWeight, MakeBodyExpr;
    var r := Distributed(c, p, q, a, b, a', b');
    forall m, env, w ensures Eval(m, env, If(If(c, p, q), a, b), w) == Eval(m, env, r, w) {
      DistributesEval(m, env, c, p, q, a, b, a', b', w);
    }
    WeightOfArm(p, a, b);
    WeightOfArm(q, a', b');
    WeightOfIf(c, Then(If(MakeBodyExpr(p), a, b), Empty), Then(If(MakeBodyExpr(q), a', b'), Empty));
    WeightOfIf(If(c, p, q), a, b);
    WeightOfIf(c, p, q);
    DistributedWeight(Weight(c), BodyWeight(p), BodyWeight(q), BodyWeight(a) + BodyWeight(b));
  }

  lemma WeightOfArm(x: Body, a: Body, b: Body)
    ensures BodyWeight(Then(If(MakeBodyExpr(x), a, b), Empty)) == IfWeight(BodyWeight(x), BodyWeight(a) + BodyWeight(b))
  {
    WeightOfIf(MakeBodyExpr(x), a, b);
  }

  lemma DistributesEval(m: Meaning, env: Env, c: Expr, p: Body, q: Body, a: Body, b: Body, a': Body, b': Body, w: World)
    requires SameBody(a, a') && SameBody(b, b')
    ensures Eval(m, env, If(If(c, p, q), a, b), w) == Eval(m, env, Distributed(c, p, q, a, b, a', b'), w)
  {
    hide Eval, EvalBody, MakeBodyExpr;
    var onP, onQ := If(MakeBodyExpr(p), a, b), If(MakeBodyExpr(q), a', b');
    IfMeans(m, env, If(c, p, q), a, b, w);
    IfMeans(m, env, c, p, q, w);
    IfMeans(m, env, c, Then(onP, Empty), Then(onQ, Empty), w);
    var o := Eval(m, env, c, w);
    SingleMeans(m, env, onP, o.world);
    SingleMeans(m, env, onQ, o.world);
    IfMeans(m, env, MakeBodyExpr(p), a, b, o.world);
    IfMeans(m, env, MakeBodyExpr(q), a', b', o.world);
    MakeBodyExprMeans(m, env, p, o.world);
    MakeBodyExprMeans(m, env, q, o.world);
  }

  lemma DistributedWeight(c: nat, p: nat, q: nat, arms: nat)
    requires c >= 1 && arms >= 1
    ensures IfWeight(c, IfWeight(p, arms) + IfWeight(q, arms)) < IfWeight(IfWeight(c, p + q), arms)
  {
    var n := 1 + arms;
    assert p * n + q * n == (p + q) * n;
    assert c * (1 + (p + q) * n) < c * (n + (p + q) * n);
    assert c * (n + (p + q) * n) == c * (1 + (p + q)) * n;
  }

  // A copy weighs what the original does, and mentions no other names.
  lemma {:induction false} DupWeight(e: Expr, k: nat)
    requires DupExpr(e).Some?
    ensures Weight(DupExpr(e).value) == Weight(e) && (Below(e, k) ==> Below(DupExpr(e).value, k))
    decreases e
  {
    match e
    case Call(f, args) => DupWeight(f, k); DupArgsWeight(args, k);
    case Dot(a, f) => DupWeight(a, k); DupWeight(f, k);
    case BodyExpr(b) =>
      DupBodyWeight(b, k);
      MakeBodyExprWeight(DupBody(b).value);
      if BodyBelow(b, k) { MakeBodyExprBelow(DupBody(b).value, k); }
    case If(c, a, b) => DupWeight(c, k); DupBodyWeight(a, k); DupBodyWeight(b, k);
    case Set(_, v) => DupWeight(v, k);
    case And(args) => DupArgsWeight(args, k);
    case Or(args) => DupArgsWeight(args, k);
    case _ =>
  }

  lemma {:induction false} DupArgsWeight(args: Exprs, k: nat)
    requires DupArgs(args).Some?
    ensures var r := DupArgs(args).value;
            && ArgsWeight(r) == ArgsWeight(args) && AndWeight(r) == AndWeight(args) && OrWeight(r) == OrWeight(args)
            && (ArgsBelow(args, k) ==> ArgsBelow(r, k))
    decreases args
  {
    if args.Arg? { DupWeight(args.expr, k); DupArgsWeight(args.rest, k); }
  }

  lemma {:induction false} DupBodyWeight(b: Body, k: nat)
    requires DupBody(b).Some?
    ensures BodyWeight(DupBody(b).value) == BodyWeight(b) && (BodyBelow(b, k) ==> BodyBelow(DupBody(b).value, k))
    decreases b
  {
    if b.Then? { DupWeight(b.expr, k); DupBodyWeight(b.rest, k); }
  }

  lemma CopyMeans(b: Body, k: nat)
    requires DupBody(b).Some? && BodyBelow(b, k)
    ensures var r := DupBody(b).value; SameBody(b, r) && BodyWeight(r) == BodyWeight(b) && BodyBelow(r, k)
  {
    hide EvalBody, DupBody;
    DupBodyWeight(b, k);
    DupBodySame(b);
  }

  // The forms of & and |.
  lemma NoOperands()
    ensures Same(And(NoArgs), Literal(False)) && Weight(Literal(False)) < Weight(And(NoArgs))
    ensures Same(Or(NoArgs), Literal(True)) && Weight(Literal(True)) < Weight(Or(NoArgs))
  {
  }

  lemma OneOperand(e: Expr)
    ensures Same(And(Arg(e, NoArgs)), e) && Weight(e) < Weight(And(Arg(e, NoArgs)))
    ensures Same(Or(Arg(e, NoArgs)), e) && Weight(e) < Weight(Or(Arg(e, NoArgs)))
  {
    assert AndWeight(Arg(e, NoArgs)) == 1 + IfWeight(Weight(e), AndWeight(NoArgs) + 1);
    assert Weight(e) * (1 + 3) >= Weight(e);
  }

  function AndStep(e: Expr, rest: Exprs): Expr {
    If(e, Then(And(rest), Empty), Then(Literal(False), Empty))
  }

  lemma AndMeans(e: Expr, rest: Exprs)
    requires rest.Arg?
    ensures Same(And(Arg(e, rest)), AndStep(e, rest)) && Weight(AndStep(e, rest)) < Weight(And(Arg(e, rest)))
  {
    hide EvalBody;
    forall m, env, w ensures Eval(m, env, And(Arg(e, rest)), w) == Eval(m, env, AndStep(e, rest), w) {
      var o := Eval(m, env, e, w);
      IfMeans(m, env, e, Then(And(rest), Empty), Then(Literal(False), Empty), w);
      SingleMeans(m, env, And(rest), o.world);
      SingleMeans(m, env, Literal(False), o.world);
    }
    WeightOfIf(e, Then(And(rest), Empty), Then(Literal(False), Empty));
  }

  function OrStep(e: Expr, rest: Exprs, k: nat): Expr {
    BodyExpr(Let(k, e, Then(OrChoice(rest, k), Empty)))
  }

  function OrChoice(rest: Exprs, k: nat): Expr {
    If(Temp(k), Then(Temp(k), Empty), Then(Or(rest), Empty))
  }

  // The generated name is not one that the other operands mention.
  lemma OrMeans(e: Expr, rest: Exprs, k: nat)
    requires rest.Arg? && ArgsBelow(rest, k)
    ensures Same(Or(Arg(e, rest)), OrStep(e, rest, k)) && Weight(OrStep(e, rest, k)) < Weight(Or(Arg(e, rest)))
  {
    forall m, env, w ensures Eval(m, env, Or(Arg(e, rest)), w) == Eval(m, env, OrStep(e, rest, k), w) {
      OrMeansEval(m, env, e, rest, k, w);
    }
    WeightOfIf(Temp(k), Then(Temp(k), Empty), Then(Or(rest), Empty));
    assert BodyWeight(Then(Temp(k), Empty)) == 1;
    assert BodyWeight(Then(Or(rest), Empty)) == OrWeight(rest);
    assert BodyWeight(Then(OrChoice(rest, k), Empty)) == Weight(OrChoice(rest, k));
  }

  lemma OrMeansEval(m: Meaning, env: Env, e: Expr, rest: Exprs, k: nat, w: World)
    requires rest.Arg? && ArgsBelow(rest, k)
    ensures Eval(m, env, Or(Arg(e, rest)), w) == Eval(m, env, OrStep(e, rest, k), w)
  {
    hide EvalBody;
    BodyExprMeans(m, env, Let(k, e, Then(OrChoice(rest, k), Empty)), w);
    var o := Eval(m, env, e, w);
    LetMeans(m, env, k, e, OrChoice(rest, k), w);
    if o.Done? {
      var env' := env[k := o.value];
      OrAgree(m, env, env', rest, o.world, k);
      IfMeans(m, env', Temp(k), Then(Temp(k), Empty), Then(Or(rest), Empty), o.world);
      SingleMeans(m, env', Temp(k), o.world);
      SingleMeans(m, env', Or(rest), o.world);
    }
  }

  lemma LetMeans(m: Meaning, env: Env, k: nat, init: Expr, e: Expr, w: World)
    ensures EvalBody(m, env, Let(k, init, Then(e, Empty)), w) ==
            match Eval(m, env, init, w)
            case Exit(w1) => Exit(w1)
            case Done(v, w1) => Eval(m, env[k := v], e, w1)
  {
    var o := Eval(m, env, init, w);
    if o.Done? { SingleMeans(m, env[k := o.value], e, o.world); }
  }

  // Replacing the parts by ones that mean the same.
  lemma SameIf(c: Expr, c': Expr, a: Body, a': Body, b: Body, b': Body)
    requires Same(c, c') && SameBody(a, a') && SameBody(b, b')
    ensures Same(If(c, a, b), If(c', a', b'))
  {
    hide Eval, EvalBody;
    forall m, env, w ensures Eval(m, env, If(c, a, b), w) == Eval(m, env, If(c', a', b'), w) {
      IfMeans(m, env, c, a, b, w);
      IfMeans(m, env, c', a', b', w);
    }
  }

  lemma {:induction false} LighterIf(c: Expr, c': Expr, a: Body, a': Body, b: Body, b': Body)
    requires Weight(c') <= Weight(c) && BodyWeight(a') <= BodyWeight(a) && BodyWeight(b') <= BodyWeight(b)
    ensures Weight(If(c', a', b')) <= Weight(If(c, a, b))
  {
    hide IfWeight;
    Product(Weight(c'), Weight(c), BodyWeight(a') + BodyWeight(b'), BodyWeight(a) + BodyWeight(b));
  }

  lemma Product(i: nat, j: nat, k: nat, l: nat)
    requires i <= j && k <= l
    ensures IfWeight(i, k) <= IfWeight(j, l)
  {
    assert i * (1 + k) <= j * (1 + k) <= j * (1 + l);
  }

  lemma SameCall(f: Expr, f': Expr, args: Exprs, args': Exprs)
    requires Same(f, f') && SameArgs(args, args')
    ensures Same(Call(f, args), Call(f', args'))
  {
  }

  lemma SameDot(a: Expr, a': Expr, f: Expr, f': Expr)
    requires Same(a, a') && Same(f, f')
    ensures Same(Dot(a, f), Dot(a', f'))
  {
  }

  lemma SameArg(e: Expr, e': Expr, rest: Exprs, rest': Exprs)
    requires Same(e, e') && SameArgs(rest, rest')
    ensures SameArgs(Arg(e, rest), Arg(e', rest'))
  {
  }

  lemma SameThen(e: Expr, e': Expr, rest: Body, rest': Body)
    requires Same(e, e') && SameBody(rest, rest') && (rest.Empty? <==> rest'.Empty?)
    ensures SameBody(Then(e, rest), Then(e', rest'))
  {
    forall m, env, w ensures EvalBody(m, env, Then(e, rest), w) == EvalBody(m, env, Then(e', rest'), w) {
      assert Eval(m, env, e, w) == Eval(m, env, e', w);
    }
  }

  lemma SameLet(t: nat, e: Expr, e': Expr, body: Body, body': Body)
    requires Same(e, e') && SameBody(body, body')
    ensures SameBody(Let(t, e, body), Let(t, e', body'))
  {
    forall m, env, w ensures EvalBody(m, env, Let(t, e, body), w) == EvalBody(m, env, Let(t, e', body'), w) {
      assert Eval(m, env, e, w) == Eval(m, env, e', w);
    }
  }

  lemma SameBodyExpr(b: Body, b': Body)
    requires SameBody(b, b')
    ensures Same(BodyExpr(b), BodyExpr(b'))
  {
    forall m, env, w ensures Eval(m, env, BodyExpr(b), w) == Eval(m, env, BodyExpr(b'), w) {
      assert EvalBody(m, env, b, w) == EvalBody(m, env, b', w);
    }
  }

  lemma SameSet(name: string, e: Expr, e': Expr)
    requires Same(e, e')
    ensures Same(Set(name, e), Set(name, e'))
  {
  }

  lemma SameTrans(e: Expr, f: Expr, g: Expr)
    requires Same(e, f) && Same(f, g)
    ensures Same(e, g)
  {
    hide Eval;
  }

  // The expression r may stand for e.
  ghost predicate Replaces(r: Expr, e: Expr, k: nat) {
    Same(e, r) && Weight(r) <= Weight(e) && Below(r, k)
  }

  // The subexpressions that are expanded weigh no more than the whole.
  lemma Parts(e: Expr)
    ensures e.If? ==> Weight(e.cond) <= Weight(e) && BodyWeight(e.consequent) <= Weight(e) && BodyWeight(e.alternate) <= Weight(e)
    ensures e.Call? ==> Weight(e.func) < Weight(e) && ArgsWeight(e.args) < Weight(e)
    ensures e.Dot? ==> Weight(e.func) < Weight(e) && Weight(e.arg) < Weight(e)
  {
    if e.If? {
      var c, n := Weight(e.cond), BodyWeight(e.consequent) + BodyWeight(e.alternate);
      assert c * (1 + n) == c + c * n;
      assert c * n >= n;
    }
  }

  class Expander {
    // The number of names generated so far.
    var gensyms: nat

    constructor ()
      ensures gensyms == 0
    {
      gensyms := 0;
    }

    /** Expands an expression until nothing is left to expand. */
    method ExpandExpr(e: Expr) returns (r: Expr)
      requires Below(e, gensyms)
      modifies this
      ensures old(gensyms) <= gensyms
      ensures Replaces(r, e, gensyms) && Expanded(r)
      decreases Weight(e), e, 2
    {
      hide Same, Weight, Expanded, Below;
      var again;
      r, again := ExpandOnce(e);
      while again
        invariant old(gensyms) <= gensyms && Replaces(r, e, gensyms)
        invariant if again then Weight(r) < Weight(e) else Expanded(r)
        decreases Weight(r), again
      {
        ghost var before := r;
        r, again := ExpandOnce(r);
        SameTrans(e, before, r);
      }
    }

    // One application of the expander for the kind of expression.
    method ExpandOnce(e: Expr) returns (r: Expr, again: bool)
      requires Below(e, gensyms)
      modifies this
      ensures old(gensyms) <= gensyms && Replaces(r, e, gensyms)
      ensures if again then Weight(r) < Weight(e) else Expanded(r)
      decreases Weight(e), e, 1
    {
      Parts(e);
      match e
      case Call(func, args) =>
        r := ExpandCall(e);
        again := false;
      case And(args) =>
        r := SrctranAnd(args);
        again := true;
      case Or(args) =>
        r := SrctranOr(args);
        again := true;
      case Dot(arg, func) =>
        r := ExpandDot(e);
        again := false;
      case BodyExpr(b) =>
        var b' := ExpandBody(b);
        r := BodyExpr(b');
        SameBodyExpr(b, b');
        again := false;
      case If(_, _, _) =>
        r, again := ExpandIf(e);
      case Set(name, value) =>
        var v := ExpandExpr(value);
        r := Set(name, v);
        SameSet(name, value, v);
        again := false;
      case _ =>
        r := e;
        again := false;
    }

    method ExpandCall(e: Expr) returns (r: Expr)
      requires e.Call? && Below(e, gensyms)
      modifies this
      ensures old(gensyms) <= gensyms && Replaces(r, e, gensyms) && Expanded(r)
      decreases Weight(e), e, 0
    {
      Parts(e);
      var f := ExpandExpr(e.func);
      ArgsBelowMore(e.args, old(gensyms), gensyms);
      ghost var k := gensyms;
      var args := ExpandArgs(e.args);
      BelowMore(f, k, gensyms);
      r := Call(f, args);
      SameCall(e.func, f, e.args, args);
    }

    method ExpandDot(e: Expr) returns (r: Expr)
      requires e.Dot? && Below(e, gensyms)
      modifies this
      ensures old(gensyms) <= gensyms && Replaces(r, e, gensyms) && Expanded(r)
      decreases Weight(e), e, 0
    {
      Parts(e);
      var a := ExpandExpr(e.arg);
      BelowMore(e.func, old(gensyms), gensyms);
      ghost var k := gensyms;
      var f := ExpandExpr(e.func);
      BelowMore(a, k, gensyms);
      r := Dot(a, f);
      SameDot(e.arg, a, e.func, f);
    }

    method ExpandArgs(args: Exprs) returns (r: Exprs)
      requires ArgsBelow(args, gensyms)
      modifies this
      ensures old(gensyms) <= gensyms && ArgsBelow(r, gensyms)
      ensures SameArgs(args, r) && ArgsWeight(r) <= ArgsWeight(args) && ExpandedArgs(r)
      decreases ArgsWeight(args), args, 3
    {
      if args.NoArgs? {
        return NoArgs;
      }
      var e := ExpandExpr(args.expr);
      ArgsBelowMore(args.rest, old(gensyms), gensyms);
      ghost var k := gensyms;
      var rest := ExpandArgs(args.rest);
      BelowMore(e, k, gensyms);
      r := Arg(e, rest);
      SameArg(args.expr, e, args.rest, rest);
    }

    // An empty body becomes #f; the constituents are expanded in turn.
    method ExpandBody(b: Body) returns (r: Body)
      requires BodyBelow(b, gensyms)
      modifies this
      ensures old(gensyms) <= gensyms && BodyBelow(r, gensyms)
      ensures SameBody(b, r) && BodyWeight(r) <= BodyWeight(b) && ExpandedBody(r)
      decreases BodyWeight(b), b, 3
    {
      match b
      case Empty =>
        r := Then(Literal(False), Empty);
      case Then(e, rest) =>
        r := ExpandThen(b);
      case Let(t, init, body) =>
        r := ExpandLet(b);
      case Other(n) =>
        r := b;
    }

    method ExpandThen(b: Body) returns (r: Body)
      requires b.Then? && BodyBelow(b, gensyms)
      modifies this
      ensures old(gensyms) <= gensyms && BodyBelow(r, gensyms)
      ensures SameBody(b, r) && BodyWeight(r) <= BodyWeight(b) && ExpandedBody(r)
      decreases BodyWeight(b), b, 2
    {
      var e := ExpandExpr(b.expr);
      if b.rest.Empty? {
        SameThen(b.expr, e, Empty, Empty);
        return Then(e, Empty);
      }
      BodyBelowMore(b.rest, old(gensyms), gensyms);
      ghost var k := gensyms;
      var rest := ExpandBody(b.rest);
      BelowMore(e, k, gensyms);
      SameThen(b.expr, e, b.rest, rest);
      r := Then(e, rest);
    }

    method ExpandLet(b: Body) returns (r: Body)
      requires b.Let? && BodyBelow(b, gensyms)
      modifies this
      ensures old(gensyms) <= gensyms && BodyBelow(r, gensyms)
      ensures SameBody(b, r) && BodyWeight(r) <= BodyWeight(b) && ExpandedBody(r)
      decreases BodyWeight(b), b, 2
    {
      var init := ExpandExpr(b.init);
      BodyBelowMore(b.body, old(gensyms), gensyms);
      ghost var k := gensyms;
      var body := ExpandBody(b.body);
      BelowMore(init, k, gensyms);
      SameLet(b.temp, b.init, init, b.body, body);
      r := Let(b.temp, init, body);
    }

    method SrctranAnd(args: Exprs) returns (r: Expr)
      requires ArgsBelow(args, gensyms)
      ensures Replaces(r, And(args), gensyms) && Weight(r) < Weight(And(args))
    {
      match args
      case NoArgs =>
        NoOperands();
        r := Literal(False);
      case Arg(e, NoArgs) =>
        OneOperand(e);
        r := e;
      case Arg(e, rest) =>
        AndMeans(e, rest);
        r := If(e, Then(And(rest), Empty), Then(Literal(False), Empty));
        SingleBelow(And(rest), gensyms);
        SingleBelow(Literal(False), gensyms);
    }

    method SrctranOr(args: Exprs) returns (r: Expr)
      requires ArgsBelow(args, gensyms)
      modifies this
      ensures old(gensyms) <= gensyms
      ensures Replaces(r, Or(args), gensyms) && Weight(r) < Weight(Or(args))
    {
      match args
      case NoArgs =>
        NoOperands();
        r := Literal(True);
      case Arg(e, NoArgs) =>
        OneOperand(e);
        r := e;
      case Arg(e, rest) =>
        var temp := gensyms;
        gensyms := gensyms + 1;
        OrMeans(e, rest, temp);
        ArgsBelowMore(args, temp, gensyms);
        r := BodyExpr(Let(temp, e, Then(If(Temp(temp), Then(Temp(temp), Empty), Then(Or(rest), Empty)), Empty)));
        SingleBelow(Temp(temp), gensyms);
        SingleBelow(Or(rest), gensyms);
        SingleBelow(OrChoice(rest, temp), gensyms);
    }

    method ExpandIf(e: Expr) returns (r: Expr, again: bool)
      requires e.If? && Below(e, gensyms)
      modifies this
      ensures old(gensyms) <= gensyms && Replaces(r, e, gensyms)
      ensures if again then Weight(r) < Weight(e) else Expanded(r)
      decreases Weight(e), e, 0
    {
      hide Same, SameBody, Weight, BodyWeight;
      Parts(e);
      var cond := ExpandExpr(e.cond);
      BodyBelowMore(e.consequent, old(gensyms), gensyms);
      BodyBelowMore(e.alternate, old(gensyms), gensyms);
      if cond.Literal? {
        SameIf(e.cond, cond, e.consequent, e.consequent, e.alternate, e.alternate) by { SameItself(e); }
        LighterIf(e.cond, cond, e.consequent, e.consequent, e.alternate, e.alternate);
        KnownCondition(cond.value, e.consequent, e.alternate);
        r := MakeBodyExpr(if cond.value == False then e.alternate else e.consequent);
        MakeBodyExprWeight(e.consequent);
        MakeBodyExprWeight(e.alternate);
        MakeBodyExprBelow(e.consequent, gensyms);
        MakeBodyExprBelow(e.alternate, gensyms);
        SameTrans(e, If(cond, e.consequent, e.alternate), r);
        return r, true;
      }
      ghost var k := gensyms;
      var consequent := ExpandBody(e.consequent);
      BodyBelowMore(e.alternate, k, gensyms);
      ghost var k' := gensyms;
      var alternate := ExpandBody(e.alternate);
      BelowMore(cond, k, gensyms);
      BodyBelowMore(consequent, k', gensyms);
      SameIf(e.cond, cond, e.consequent, consequent, e.alternate, alternate);
      LighterIf(e.cond, cond, e.consequent, consequent, e.alternate, alternate);
      r, again := NestedIf(cond, consequent, alternate);
      SameTrans(e, If(cond, consequent, alternate), r);
    }

    // The condition and both arms have been expanded.
    method NestedIf(cond: Expr, consequent: Body, alternate: Body) returns (r: Expr, again: bool)
      requires Expanded(cond) && !cond.Literal? && ExpandedBody(consequent) && ExpandedBody(alternate)
      requires Below(cond, gensyms) && BodyBelow(consequent, gensyms) && BodyBelow(alternate, gensyms)
      ensures Replaces(r, If(cond, consequent, alternate), gensyms)
      ensures if again then Weight(r) < Weight(If(cond, consequent, alternate)) else Expanded(r)
    {
      hide Weight, BodyWeight, Eval;
      r, again := If(cond, consequent, alternate), false;
      if cond.If? {
        var innerConsequent, innerAlternate := ExtractLiteral(cond.consequent), ExtractLiteral(cond.alternate);
        if innerConsequent.Some? && innerAlternate.Some? {
          KnownArms(cond.cond, cond.consequent, cond.alternate, consequent, alternate);
          KnownArmsExpanded(cond, consequent, alternate);
          WithKnownArmsBelow(cond.cond, innerConsequent.value, innerAlternate.value, consequent, alternate, gensyms);
          if innerConsequent.value != False {
            if innerAlternate.value != False {
              r := BodyExpr(Then(cond.cond, consequent));
            } else {
              r := If(cond.cond, consequent, alternate);
            }
          } else {
            if innerAlternate.value != False {
              r := If(cond.cond, alternate, consequent);
            } else {
              r := BodyExpr(Then(cond.cond, alternate));
            }
          }
        } else {
          DupBodyCopyable(consequent);
          DupBodyCopyable(alternate);
          var consequentCopy, alternateCopy := DupBody(consequent), DupBody(alternate);
          if consequentCopy.Some? && alternateCopy.Some? {
            CopyMeans(consequent, gensyms);
            CopyMeans(alternate, gensyms);
            Distributes(cond.cond, cond.consequent, cond.alternate, consequent, alternate, consequentCopy.value, alternateCopy.value);
            r := If(cond.cond, Then(If(MakeBodyExpr(cond.consequent), consequent, alternate), Empty),
                               Then(If(MakeBodyExpr(cond.alternate), consequentCopy.value, alternateCopy.value), Empty));
            again := true;
            DistributedBelow(cond.cond, cond.consequent, cond.alternate, consequent, alternate,
                             consequentCopy.value, alternateCopy.value, gensyms);
          }
        }
      }
    }
  }

  lemma SameItself(e: Expr)
    requires e.If?
    ensures SameBody(e.consequent, e.consequent) && SameBody(e.alternate, e.alternate)
  {
  }

  lemma SingleBelow(e: Expr, k: nat)
    requires Below(e, k)
    ensures BodyBelow(Then(e, Empty), k)
  {
  }

  lemma DistributedBelow(c: Expr, p: Body, q: Body, a: Body, b: Body, a': Body, b': Body, k: nat)
    requires Below(If(c, p, q), k) && BodyBelow(a, k) && BodyBelow(b, k) && BodyBelow(a', k) && BodyBelow(b', k)
    ensures Below(Distributed(c, p, q, a, b, a', b'), k)
  {
    MakeBodyExprBelow(p, k);
    MakeBodyExprBelow(q, k);
    SingleBelow(If(MakeBodyExpr(p), a, b), k);
    SingleBelow(If(MakeBodyExpr(q), a', b'), k);
  }

  lemma WithKnownArmsBelow(c: Expr, p: Value, q: Value, a: Body, b: Body, k: nat)
    requires Below(c, k) && BodyBelow(a, k) && BodyBelow(b, k)
    ensures Below(WithKnownArms(c, p, q, a, b), k)
  {
    assert BodyBelow(Then(c, a), k) && BodyBelow(Then(c, b), k);
  }

  lemma BodyExprWeight(b: Body)
    ensures Weight(BodyExpr(b)) == BodyWeight(b)
  {
  }

  // An expanded conditional with literal arms has no conditional as its condition.
  lemma KnownArmsExpanded(cond: Expr, a: Body, b: Body)
    requires cond.If? && Expanded(cond) && ExpandedBody(a) && ExpandedBody(b)
    requires ExtractLiteral(cond.consequent).Some? && ExtractLiteral(cond.alternate).Some?
    ensures Expanded(cond.cond) && !cond.cond.If? && !cond.cond.Literal?
    ensures Expanded(If(cond.cond, a, b)) && Expanded(If(cond.cond, b, a))
    ensures Expanded(BodyExpr(Then(cond.cond, a))) && Expanded(BodyExpr(Then(cond.cond, b)))
  {
    LiteralCopyable(cond.consequent);
    LiteralCopyable(cond.alternate);
    assert ExpandedBody(Then(cond.cond, a)) && ExpandedBody(Then(cond.cond, b));
  }

  lemma LiteralCopyable(b: Body)
    requires ExtractLiteral(b).Some?
    ensures CopyableBody(b)
  {
    if b.Then? { assert CopyableBody(Empty); }
  }
}
