/** The main results on flattening whole bodies. */
module FlattenBodies {
  import opened Syntax
  import opened Semantics
  import opened LocalVars
  import opened Flatten
  import opened FlattenMeaning

  /** A non-negated expression without modifiers, made of well-formed terms. */
  ghost predicate Ok(w: World, e: Expr) {
    !e.negated && e.withs == [] && WfForm(w, e.form)
  }

  ghost predicate OkBody(w: World, body: seq<Expr>) {
    forall i | 0 <= i < |body| :: Ok(w, body[i])
  }

  // The result of the first pass is again a body the second pass accepts.

  lemma {:induction false} WfConcat(w: World, xs: seq<Term>, ys: seq<Term>)
    requires WfSeq(w, xs) && WfSeq(w, ys)
    ensures WfSeq(w, xs + ys)
  {
    if xs == [] {
      assert xs + ys == ys;
    } else {
      WfConcat(w, xs[1..], ys);
      assert (xs + ys)[1..] == xs[1..] + ys;
    }
  }

  lemma {:induction false} OkDefinition(w: World, x: Name, t: Term)
    requires Wf(w, t)
    ensures OkBody(w, [Equality(Var(x), t)])
  {
    assert [Var(x), t][1..] == [t] && [t][1..] == [];
    assert WfSeq(w, [t]) && WfSeq(w, [Var(x), t]);
  }

  lemma {:induction false} LiftWf(w: World, m: Mode, g: Generator, n: nat, t: Term)
    requires Wf(w, t)
    ensures var x := Lift(m, g, n, t); Wf(w, x.term) && OkBody(w, x.support)
    decreases t, 0
  {
    match t
    case Const(_) =>
    case Var(_) =>
    case Call(op, args) =>
      if m.Calls? {
        var xs := LiftSeq(Calls, g, n, args);
        var x := Local(g, FirstFree(g, xs.next));
        LiftSeqWf(w, Calls, g, n, args);
        assert [Var(x)][1..] == [] && Wf(w, [Var(x)][0]) && WfSeq(w, []);
        assert WfSeq(w, [Var(x)]);
        WfConcat(w, xs.terms, [Var(x)]);
        assert Ok(w, Capture(op, xs.terms, x));
      }
    case Ref(parts) => LiftRefWf(w, m, g, n, parts);
    case Array(elems) => LiftSeqWf(w, Inner(m), g, n, elems);
    case Object(items) => LiftItemsWf(w, Inner(m), g, n, items);
    case Set(members) => LiftSeqWf(w, Inner(m), g, n, members);
  }

  lemma {:induction false} LiftRefWf(w: World, m: Mode, g: Generator, n: nat, parts: seq<Term>)
    requires WfSeq(w, parts)
    ensures var x := Lift(m, g, n, Ref(parts)); Wf(w, x.term) && OkBody(w, x.support)
    decreases parts, 1
  {
    if m.Calls? {
      var xs := LiftSeq(Calls, g, n, parts);
      LiftSeqWf(w, Calls, g, n, parts);
      if xs.terms != [] && Composite(xs.terms[0]) {
        var x := Local(g, FirstFree(g, xs.next));
        OkDefinition(w, x, xs.terms[0]);
        assert ([Var(x)] + xs.terms[1..])[1..] == xs.terms[1..];
      }
    } else {
      var xs := LiftSeq(Refs, g, n, Tail(parts));
      LiftSeqWf(w, Refs, g, n, Tail(parts));
      if parts != [] {
        assert parts[..1][1..] == [] && parts[..1][0] == parts[0] && WfSeq(w, parts[..1]);
      }
      WfConcat(w, Head(parts), xs.terms);
      OkDefinition(w, Local(g, FirstFree(g, xs.next)), Ref(Head(parts) + xs.terms));
    }
  }

  lemma {:induction false} LiftSeqWf(w: World, m: Mode, g: Generator, n: nat, ts: seq<Term>)
    requires WfSeq(w, ts)
    ensures var xs := LiftSeq(m, g, n, ts); WfSeq(w, xs.terms) && |xs.terms| == |ts| && OkBody(w, xs.support)
    decreases ts, 0
  {
    if ts != [] {
      var x := Lift(m, g, n, ts[0]);
      LiftWf(w, m, g, n, ts[0]);
      LiftSeqWf(w, m, g, x.next, ts[1..]);
      assert ([x.term] + LiftSeq(m, g, x.next, ts[1..]).terms)[1..] == LiftSeq(m, g, x.next, ts[1..]).terms;
    }
  }

  lemma {:induction false} LiftItemsWf(w: World, m: Mode, g: Generator, n: nat, items: seq<Item>)
    requires WfItems(w, items)
    ensures var xs := LiftItems(m, g, n, items); WfItems(w, xs.items) && OkBody(w, xs.support)
    decreases items, 0
  {
    if items != [] {
      var x := LiftItem(m, g, n, items[0]);
      LiftItemWf(w, m, g, n, items[0]);
      LiftItemsWf(w, m, g, x.next, items[1..]);
      var xs := LiftItems(m, g, x.next, items[1..]);
      assert (x.items + xs.items)[0] == x.items[0] && (x.items + xs.items)[1..] == xs.items;
    }
  }

  lemma {:induction false} LiftItemWf(w: World, m: Mode, g: Generator, n: nat, item: Item)
    requires WfItem(w, item)
    ensures var x := LiftItem(m, g, n, item); |x.items| == 1 && WfItem(w, x.items[0]) && OkBody(w, x.support)
    decreases item, 0
  {
    LiftWf(w, m, g, n, item.key);
    LiftWf(w, m, g, Lift(m, g, n, item.key).next, item.value);
  }

  // One expression. Its lifted form is its support followed by the expression with lifted operands.

  ghost function Operands(f: Form): seq<Term> {
    match f
    case Single(t) => [t]
    case Operation(_, operands) => operands
  }

  ghost function WithOperands(f: Form, ts: seq<Term>): Form
    requires |ts| == |Operands(f)|
  {
    match f
    case Single(_) => Single(ts[0])
    case Operation(op, _) => Operation(op, ts)
  }

  predicate Untouched(m: Mode, f: Form) {
    m.Refs? && f.Operation? && f.op == EQUALITY && |f.operands| != 2
  }

  lemma {:induction false} LiftExprShape(w: World, m: Mode, g: Generator, n: nat, e: Expr)
    requires !Untouched(m, e.form) && WfForm(w, e.form)
    ensures var xs := LiftSeq(OperandMode(m, e.form), g, n, Operands(e.form));
            && WfSeq(w, Operands(e.form)) && |xs.terms| == |Operands(e.form)|
            && LiftExpr(m, g, n, e) == LiftedBody(xs.support + [e.(form := WithOperands(e.form, xs.terms))], xs.next)
  {
    if e.form.Single? {
      var t := e.form.term;
      assert [t][1..] == [] && WfSeq(w, [t]);
      var x := Lift(OperandMode(m, e.form), g, n, t);
      var xs := LiftSeq(OperandMode(m, e.form), g, n, [t]);
      assert LiftSeq(OperandMode(m, e.form), g, x.next, []) == LiftedSeq([], [], x.next);
      assert xs.support == x.support + [] && xs.terms == [x.term] + [];
      assert x.support + [] == x.support;
    } else {
      LiftSeqWf(w, OperandMode(m, e.form), g, n, Operands(e.form));
    }
  }

  lemma {:induction false} SameOperandValues(w: World, env: Env, f: Form, ts: seq<Term>)
    requires |ts| == |Operands(f)| && EvalSeq(w, env, ts) == EvalSeq(w, env, Operands(f))
    ensures HoldsForm(w, env, WithOperands(f, ts)) == HoldsForm(w, env, f)
  {
    if f.Single? {
      SingleValue(w, env, f.term);
      SingleValue(w, env, ts[0]);
      assert ts == [ts[0]];
    }
  }

  lemma {:induction false} SingleValue(w: World, env: Env, t: Term)
    ensures EvalSeq(w, env, [t]) == match Eval(w, env, t) case None => None case Some(v) => Some([v])
  {
    assert [t][1..] == [];
    if Eval(w, env, t).Some? { assert [Eval(w, env, t).value] + [] == [Eval(w, env, t).value]; }
  }

  lemma {:induction false} ExprMeaning(w: World, m: Mode, g: Generator, n: nat, e: Expr, env: Env)
    requires Ok(w, e) && HoldsBody(w, env, LiftExpr(m, g, n, e).body)
    ensures Holds(w, env, e)
  {
    if Untouched(m, e.form) {
      assert Holds(w, env, [e][0]);
    } else {
      LiftExprShape(w, m, g, n, e);
      var ts := Operands(e.form);
      var xs := LiftSeq(OperandMode(m, e.form), g, n, ts);
      var e' := e.(form := WithOperands(e.form, xs.terms));
      HoldsBodyConcat(w, env, xs.support, [e']);
      assert Holds(w, env, [e'][0]);
      LiftSeqEval(w, OperandMode(m, e.form), g, n, ts, env);
      SameOperandValues(w, env, e.form, xs.terms);
    }
  }

  lemma {:induction false} ExprWithin(w: World, m: Mode, g: Generator, n: nat, e: Expr)
    requires Ok(w, e)
    ensures var r := LiftExpr(m, g, n, e); Within(g, n, ExprVars(OPERANDS, e), r.body, {}, r.next) && OkBody(w, r.body)
  {
    var r := LiftExpr(m, g, n, e);
    if Untouched(m, e.form) {
      assert BodyVars(OPERANDS, [e]) == ExprVars(OPERANDS, e) + BodyVars(OPERANDS, []);
    } else {
      LiftExprShape(w, m, g, n, e);
      var ts := Operands(e.form);
      var xs := LiftSeq(OperandMode(m, e.form), g, n, ts);
      var e' := e.(form := WithOperands(e.form, xs.terms));
      LiftSeqWithin(OperandMode(m, e.form), g, n, ts);
      LiftSeqWf(w, OperandMode(m, e.form), g, n, ts);
      OperandVars(e, ts);
      OperandVars(e', xs.terms);
      BodyVarsConcat(OPERANDS, xs.support, [e']);
      assert BodyVars(OPERANDS, [e']) == ExprVars(OPERANDS, e') + BodyVars(OPERANDS, []);
      MentionedWider(g, n, xs.next, SeqVars(OPERANDS, ts), BodyVars(OPERANDS, xs.support) + SeqVars(OPERANDS, xs.terms),
                     n, xs.next, ExprVars(OPERANDS, e));
    }
  }

  ghost function OperatorPart(f: Form): set<Name> {
    if f.Operation? then OperatorVars(OPERANDS, f.op) else {}
  }

  lemma {:induction false} OperandVars(e: Expr, ts: seq<Term>)
    requires e.withs == [] && ts == Operands(e.form)
    ensures ExprVars(OPERANDS, e) == OperatorPart(e.form) + SeqVars(OPERANDS, ts)
  {
  }

  lemma {:induction false} ExtendExpr(w: World, m: Mode, g: Generator, n: nat, e: Expr, env: Env) returns (env': Env)
    requires Lexical(w) && Ok(w, e) && Stale(g, n, ExprVars(OPERANDS, e)) && Holds(w, env, e)
    ensures var r := LiftExpr(m, g, n, e); Extends(w, g, n, r.next, r.body, env, env')
  {
    if Untouched(m, e.form) {
      env' := env;
    } else {
      LiftExprShape(w, m, g, n, e);
      var ts := Operands(e.form);
      var xs := LiftSeq(OperandMode(m, e.form), g, n, ts);
      var e' := e.(form := WithOperands(e.form, xs.terms));
      OperandVars(e, ts);
      if e.form.Single? { SingleValue(w, env, e.form.term); }
      env' := ExtendSeq(w, OperandMode(m, e.form), g, n, ts, env);
      SameOffStale(g, n, xs.next, env, env', SeqVars(OPERANDS, ts));
      EvalSeqLocal(w, env, env', ts);
      LiftSeqEval(w, OperandMode(m, e.form), g, n, ts, env');
      SameOperandValues(w, env', e.form, xs.terms);
      HoldsLocal(w, env, env', e) by { SameOffStale(g, n, xs.next, env, env', ExprVars(OPERANDS, e)); }
      assert HoldsBody(w, env', [e']);
      HoldsBodyConcat(w, env', xs.support, [e']);
    }
  }

  lemma {:induction false} UniqueExpr(w: World, m: Mode, g: Generator, n: nat, e: Expr, e1: Env, e2: Env)
    requires Lexical(w) && Ok(w, e) && Agree(e1, e2, ExprVars(OPERANDS, e)) && BothHold(w, e1, e2, LiftExpr(m, g, n, e).body)
    ensures SameOn(g, n, LiftExpr(m, g, n, e).next, e1, e2)
  {
    if !Untouched(m, e.form) {
      LiftExprShape(w, m, g, n, e);
      var ts := Operands(e.form);
      var xs := LiftSeq(OperandMode(m, e.form), g, n, ts);
      OperandVars(e, ts);
      BothSplit(w, e1, e2, xs.support, [e.(form := WithOperands(e.form, xs.terms))]);
      UniqueSeq(w, OperandMode(m, e.form), g, n, ts, e1, e2);
    }
  }

  // One pass over a body.

  lemma {:induction false} PassWithin(w: World, m: Mode, g: Generator, n: nat, body: seq<Expr>)
    requires OkBody(w, body)
    ensures var r := LiftBody(m, g, n, body); Within(g, n, BodyVars(OPERANDS, body), r.body, {}, r.next) && OkBody(w, r.body)
    decreases body
  {
    if body != [] {
      var x := LiftExpr(m, g, n, body[0]);
      var xs := LiftBody(m, g, x.next, body[1..]);
      ExprWithin(w, m, g, n, body[0]);
      PassWithin(w, m, g, x.next, body[1..]);
      WithinJoin(g, n, x.next, xs.next, ExprVars(OPERANDS, body[0]), x.body, {}, BodyVars(OPERANDS, body[1..]), xs.body, {});
      var none: set<Name> := {};
      assert none + none == none;
    }
  }

  lemma {:induction false} PassMeaning(w: World, m: Mode, g: Generator, n: nat, body: seq<Expr>, env: Env)
    requires OkBody(w, body) && HoldsBody(w, env, LiftBody(m, g, n, body).body)
    ensures HoldsBody(w, env, body)
    decreases body
  {
    if body != [] {
      var x := LiftExpr(m, g, n, body[0]);
      HoldsBodyConcat(w, env, x.body, LiftBody(m, g, x.next, body[1..]).body);
      ExprMeaning(w, m, g, n, body[0], env);
      PassMeaning(w, m, g, x.next, body[1..], env);
      SplitBody(w, env, body);
    }
  }

  lemma {:induction false} ExtendPass(w: World, m: Mode, g: Generator, n: nat, body: seq<Expr>, env: Env) returns (env': Env)
    requires Lexical(w) && OkBody(w, body) && Stale(g, n, BodyVars(OPERANDS, body)) && HoldsBody(w, env, body)
    ensures var r := LiftBody(m, g, n, body); Extends(w, g, n, r.next, r.body, env, env')
    decreases body
  {
    if body == [] {
      env' := env;
    } else {
      var x := LiftExpr(m, g, n, body[0]);
      var e1 := ExtendExpr(w, m, g, n, body[0], env);
      ExprWithin(w, m, g, n, body[0]);
      WithinStale(g, n, ExprVars(OPERANDS, body[0]), x.body, {}, x.next);
      SameOffStale(g, n, x.next, env, e1, BodyVars(OPERANDS, body[1..]));
      SplitBody(w, env, body);
      HoldsBodyLocal(w, env, e1, body[1..]);
      StaleLater(g, n, x.next, BodyVars(OPERANDS, body[1..]));
      env' := ExtendPass(w, m, g, x.next, body[1..], e1);
      PassWithin(w, m, g, x.next, body[1..]);
      var xs := LiftBody(m, g, x.next, body[1..]);
      ExtendsJoin(w, g, n, x.next, xs.next, x.body, xs.body, env, e1, env');
    }
  }

  lemma {:induction false} UniquePass(w: World, m: Mode, g: Generator, n: nat, body: seq<Expr>, e1: Env, e2: Env)
    requires Lexical(w) && OkBody(w, body) && Agree(e1, e2, BodyVars(OPERANDS, body)) && BothHold(w, e1, e2, LiftBody(m, g, n, body).body)
    ensures SameOn(g, n, LiftBody(m, g, n, body).next, e1, e2)
    decreases body
  {
    if body != [] {
      var x := LiftExpr(m, g, n, body[0]);
      var xs := LiftBody(m, g, x.next, body[1..]);
      BothSplit(w, e1, e2, x.body, xs.body);
      UniqueExpr(w, m, g, n, body[0], e1, e2);
      UniquePass(w, m, g, x.next, body[1..], e1, e2);
      ExprWithin(w, m, g, n, body[0]);
      PassWithin(w, m, g, x.next, body[1..]);
      UniqueJoin(g, n, x.next, xs.next, e1, e2);
    }
  }

  // Both passes.

  /** Every solution of the flattened body is a solution of the body. */
  lemma {:induction false} FlattenSound(w: World, g: Generator, n: nat, body: seq<Expr>, env: Env)
    requires OkBody(w, body) && HoldsBody(w, env, FlattenBody(g, n, body).body)
    ensures HoldsBody(w, env, body)
  {
    var calls := LiftBody(Calls, g, n, body);
    PassWithin(w, Calls, g, n, body);
    PassMeaning(w, Refs, g, calls.next, calls.body, env);
    PassMeaning(w, Calls, g, n, body, env);
  }

  /** Every solution of the body extends to the generated variables. */
  lemma {:induction false} FlattenExtends(w: World, g: Generator, n: nat, body: seq<Expr>, env: Env) returns (env': Env)
    requires Lexical(w) && OkBody(w, body) && Stale(g, n, BodyVars(OPERANDS, body)) && HoldsBody(w, env, body)
    ensures var r := FlattenBody(g, n, body); SameOff(g, n, r.next, env, env') && HoldsBody(w, env', r.body)
  {
    var calls := LiftBody(Calls, g, n, body);
    var r := LiftBody(Refs, g, calls.next, calls.body);
    PassWithin(w, Calls, g, n, body);
    WithinStale(g, n, BodyVars(OPERANDS, body), calls.body, {}, calls.next);
    var e1 := ExtendPass(w, Calls, g, n, body, env);
    env' := ExtendPass(w, Refs, g, calls.next, calls.body, e1);
    PassWithin(w, Refs, g, calls.next, calls.body);
    SameOffJoin(g, n, calls.next, r.next, env, e1, env');
  }

  /** It extends in only one way. */
  lemma {:induction false} FlattenUnique(w: World, g: Generator, n: nat, body: seq<Expr>, e1: Env, e2: Env)
    requires Lexical(w) && OkBody(w, body) && Stale(g, n, BodyVars(OPERANDS, body))
    requires var r := FlattenBody(g, n, body); SameOff(g, n, r.next, e1, e2) && BothHold(w, e1, e2, r.body)
    ensures forall x :: e1(x) == e2(x)
  {
    var calls := LiftBody(Calls, g, n, body);
    var r := LiftBody(Refs, g, calls.next, calls.body);
    PassWithin(w, Calls, g, n, body);
    PassWithin(w, Refs, g, calls.next, calls.body);
    PassMeaning(w, Refs, g, calls.next, calls.body, e1);
    PassMeaning(w, Refs, g, calls.next, calls.body, e2);
    SameOffStale(g, n, r.next, e1, e2, BodyVars(OPERANDS, body));
    UniquePass(w, Calls, g, n, body, e1, e2);
    forall x | x in BodyVars(OPERANDS, calls.body) ensures e1(x) == e2(x) {
      assert Mentioned(g, n, calls.next, BodyVars(OPERANDS, body), x);
    }
    UniquePass(w, Refs, g, calls.next, calls.body, e1, e2);
    UniqueJoin(g, n, calls.next, r.next, e1, e2);
  }

  /**
    The solutions of a body are exactly the restrictions of the solutions of its flattened form, and
    each has exactly one extension.
   */
  lemma {:induction false} FlattenPreserves(w: World, g: Generator, n: nat, body: seq<Expr>, env: Env)
    requires Lexical(w) && OkBody(w, body) && Stale(g, n, BodyVars(OPERANDS, body))
    ensures var r := FlattenBody(g, n, body);
            && (HoldsBody(w, env, body) <==> exists env' :: Extends(w, g, n, r.next, r.body, env, env'))
            && (forall e1, e2 | Extends(w, g, n, r.next, r.body, env, e1) && Extends(w, g, n, r.next, r.body, env, e2) ::
                  forall x :: e1(x) == e2(x))
  {
    var r := FlattenBody(g, n, body);
    if HoldsBody(w, env, body) {
      var env' := FlattenExtends(w, g, n, body, env);
      assert Extends(w, g, n, r.next, r.body, env, env');
    }
    forall env' | Extends(w, g, n, r.next, r.body, env, env') ensures HoldsBody(w, env, body) {
      FlattenSound(w, g, n, body, env');
      SameOffStale(g, n, r.next, env, env', BodyVars(OPERANDS, body));
      HoldsBodyLocal(w, env, env', body);
    }
    forall e1, e2 | Extends(w, g, n, r.next, r.body, env, e1) && Extends(w, g, n, r.next, r.body, env, e2)
      ensures forall x :: e1(x) == e2(x)
    {
      FlattenUnique(w, g, n, body, e1, e2);
    }
  }

  /** A generator that excludes every variable of the body cannot hand one out. */
  lemma {:induction false} ExcludedIsStale(g: Generator, n: nat, body: seq<Expr>)
    requires BodyVars(EVERYTHING, body) <= g.exclude
    ensures Stale(g, n, BodyVars(OPERANDS, body))
  {
    BodyVarsFewer(OPERANDS, body);
  }
}
