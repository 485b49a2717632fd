/** The index never drops a rule whose body can hold. */
module IndexMeaning {
  import opened Syntax
  import opened Semantics
  import opened IndexTrie
  import opened RuleIndex

  /** What is known about a term does not contradict its value. */
  ghost predicate Honest(w: World, env: Env, t: Term, r: Resolution) {
    match r
    case Unknown => true
    case Undefined => Eval(w, env, t) == None
    case Known(v) => Eval(w, env, t) == Some(v)
  }

  /**
    The resolver answers for the documents the body is evaluated against, and for the arguments the
    rule is called with; `equal` compares its operands.
   */
  ghost predicate Resolves(w: World, env: Env, res: Resolver, args: seq<Term>) {
    && (forall ref: Term | ref.Ref? && ref.parts != [] && ref.parts[0] in ROOTS :: Honest(w, env, ref, res(ref)))
    && (forall i: nat | i < |args| :: Honest(w, env, args[i], res(ArgRef(i))))
    && w.arity(EQUAL) == 2
    && (forall a: Value, b: Value :: w.call(EQUAL, [a, b]) == Some(VScalar(Boolean(a == b))))
  }

  lemma {:induction false} EvalSeqAt(w: World, env: Env, ts: seq<Term>, i: nat)
    requires EvalSeq(w, env, ts).Some? && i < |ts|
    ensures Eval(w, env, ts[i]) == Some(EvalSeq(w, env, ts).value[i])
  {
    if i > 0 {
      EvalSeqAt(w, env, ts[1..], i - 1);
    }
  }

  /** A term that is turned into a pattern only evaluates to values of that pattern. */
  lemma {:induction false} PatternCovers(w: World, env: Env, t: Term, v: Value)
    requires IndexValue(t).Some? && Eval(w, env, t) == Some(v)
    ensures Matches(IndexValue(t).value, Known(v))
  {
    if t.Array? {
      var slots := IndexValue(t).value.slots;
      forall i | 0 <= i < |slots| ensures SlotMatches(slots[i], v.elems[i]) {
        EvalSeqAt(w, env, t.elems, i);
      }
    }
  }

  lemma {:induction false} OperandsSound(w: World, env: Env, res: Resolver, isVirtual: Term -> bool, args: seq<Term>, a: Term, b: Term)
    requires Resolves(w, env, res, args)
    requires OperandsConstraint(isVirtual, args, a, b).Some?
    requires Eval(w, env, a).Some? && Eval(w, env, a) == Eval(w, env, b)
    ensures var c := OperandsConstraint(isVirtual, args, a, b).value; Matches(c.pattern, res(c.ref))
  {
    PatternCovers(w, env, b, Eval(w, env, b).value);
    if a.Var? {
      assert Honest(w, env, a, res(ArgRef(ArgIndex(args, a).value)));
    } else {
      assert Honest(w, env, a, res(a));
    }
  }

  lemma {:induction false} EqualOperands(w: World, env: Env, res: Resolver, isVirtual: Term -> bool, args: seq<Term>, e: Expr)
    requires Resolves(w, env, res, args) && ExprConstraint(isVirtual, args, e).Some? && Holds(w, env, e)
    ensures var a, b := e.form.operands[0], e.form.operands[1];
            Eval(w, env, a).Some? && Eval(w, env, a) == Eval(w, env, b)
  {
    var operands := e.form.operands;
    EvalSeqAt(w, env, operands, 0);
    EvalSeqAt(w, env, operands, 1);
    var vs := EvalSeq(w, env, operands).value;
    if e.form.op == EQUAL {
      assert vs == [vs[0], vs[1]];
    }
  }

  lemma {:induction false} ExprSound(w: World, env: Env, res: Resolver, isVirtual: Term -> bool, args: seq<Term>, e: Expr)
    requires Resolves(w, env, res, args) && ExprConstraint(isVirtual, args, e).Some? && Holds(w, env, e)
    ensures var c := ExprConstraint(isVirtual, args, e).value; Matches(c.pattern, res(c.ref))
  {
    EqualOperands(w, env, res, isVirtual, args, e);
    var a, b := e.form.operands[0], e.form.operands[1];
    if OperandsConstraint(isVirtual, args, a, b).Some? {
      OperandsSound(w, env, res, isVirtual, args, a, b);
    } else {
      OperandsSound(w, env, res, isVirtual, args, b, a);
    }
  }

  lemma {:induction false} BodySound(w: World, env: Env, res: Resolver, isVirtual: Term -> bool, args: seq<Term>, body: seq<Expr>)
    requires Resolves(w, env, res, args) && HoldsBody(w, env, body)
    ensures Selected(res, BodyConstraints(isVirtual, args, body))
  {
    if body != [] {
      var n := |body| - 1;
      BodySound(w, env, res, isVirtual, args, body[..n]);
      if ExprConstraint(isVirtual, args, body[n]).Some? {
        ExprSound(w, env, res, isVirtual, args, body[n]);
      }
    }
  }

  /** A rule whose body holds for some assignment is kept by the filter, so every lookup reports it. */
  lemma {:induction false} NeverDropsARule(w: World, env: Env, res: Resolver, isVirtual: Term -> bool, rule: Rule)
    requires Resolves(w, env, res, rule.args) && HoldsBody(w, env, rule.body)
    ensures Selected(res, Constraints(isVirtual, rule))
  {
    if !Prints(rule.body) {
      BodySound(w, env, res, isVirtual, rule.args, rule.body);
    }
  }

  // What is indexed at all.

  /** How an expression constrains a reference, if it does. */
  type Reader = Expr -> Option<Constraint>

  ghost predicate About(read: Reader, e: Expr, ref: Term) {
    read(e).Some? && read(e).value.ref == ref
  }

  /** This expression of the body constrains the reference, and no later one does. */
  ghost predicate Last(read: Reader, body: seq<Expr>, i: nat, ref: Term)
    requires i < |body|
  {
    About(read, body[i], ref) && forall j | i < j < |body| :: !About(read, body[j], ref)
  }

  ghost predicate LastDemands(read: Reader, body: seq<Expr>, ref: Term, p: Pattern) {
    exists i | 0 <= i < |body| :: Last(read, body, i, ref) && read(body[i]).value.pattern == p
  }

  lemma {:induction false} LastSnoc(read: Reader, body: seq<Expr>, e: Expr, ref: Term, p: Pattern)
    ensures LastDemands(read, body + [e], ref, p) <==>
            if About(read, e, ref) then read(e).value.pattern == p else LastDemands(read, body, ref, p)
  {
    var all := body + [e];
    if About(read, e, ref) {
      assert Last(read, all, |body|, ref);
      forall i | 0 <= i < |all| && Last(read, all, i, ref) ensures i == |body| {
        assert About(read, all[|body|], ref);
      }
    } else {
      forall i | 0 <= i < |body| ensures Last(read, all, i, ref) <==> Last(read, body, i, ref) {
        LastEarlier(read, body, e, i, ref);
      }
      if i :| 0 <= i < |body| && Last(read, body, i, ref) && read(body[i]).value.pattern == p {
        assert all[i] == body[i] && Last(read, all, i, ref);
      }
    }
  }

  lemma {:induction false} LastEarlier(read: Reader, body: seq<Expr>, e: Expr, i: nat, ref: Term)
    requires i < |body| && !About(read, e, ref)
    ensures Last(read, body + [e], i, ref) <==> Last(read, body, i, ref)
  {
    var all := body + [e];
    if Last(read, all, i, ref) {
      forall j | i < j < |body| ensures !About(read, body[j], ref) {
        assert all[j] == body[j];
      }
    }
  }

  /** A rule is indexed by a reference and a pattern exactly if its last constraint on the reference says so. */
  lemma {:induction false} LastConstraintWins(isVirtual: Term -> bool, args: seq<Term>, read: Reader, body: seq<Expr>, ref: Term, p: Pattern)
    requires forall e :: read(e) == ExprConstraint(isVirtual, args, e)
    ensures var cs := BodyConstraints(isVirtual, args, body);
            ref in cs && cs[ref] == p <==> LastDemands(read, body, ref, p)
  {
    if body != [] {
      var n := |body| - 1;
      LastConstraintWins(isVirtual, args, read, body[..n], ref, p);
      LastSnoc(read, body[..n], body[n], ref, p);
      assert body == body[..n] + [body[n]];
    }
  }

  /** A reference into a base document that the index can look up. */
  predicate Lookable(isVirtual: Term -> bool, ref: Term) {
    ref.Ref? && ref.parts != [] && ref.parts[0] in ROOTS && !isVirtual(ref) && !IsNested(ref.parts) && AllGround(Tail(ref.parts))
  }

  /** This expression is the last to constrain some reference, and what is known of the reference contradicts it. */
  ghost predicate Excludes(read: Reader, body: seq<Expr>, res: Resolver, i: nat)
    requires i < |body|
  {
    read(body[i]).Some? && var c := read(body[i]).value; Last(read, body, i, c.ref) && !Matches(c.pattern, res(c.ref))
  }

  /** The filter drops a rule exactly if the last constraint on some reference is contradicted. */
  lemma {:induction false} DroppedExactly(isVirtual: Term -> bool, read: Reader, rule: Rule, res: Resolver)
    requires forall e :: read(e) == ExprConstraint(isVirtual, rule.args, e)
    ensures !Selected(res, Constraints(isVirtual, rule)) <==>
            !Prints(rule.body) && exists i | 0 <= i < |rule.body| :: Excludes(read, rule.body, res, i)
  {
    var body, cs := rule.body, BodyConstraints(isVirtual, rule.args, rule.body);
    forall ref, p: Pattern ensures ref in cs && cs[ref] == p <==> LastDemands(read, body, ref, p) {
      LastConstraintWins(isVirtual, rule.args, read, body, ref, p);
    }
    if ref :| ref in cs && !Matches(cs[ref], res(ref)) {
      assert LastDemands(read, body, ref, cs[ref]);
      var i :| 0 <= i < |body| && Last(read, body, i, ref) && read(body[i]).value.pattern == cs[ref];
      assert Excludes(read, body, res, i);
    }
    if i :| 0 <= i < |body| && Excludes(read, body, res, i) {
      var c := read(body[i]).value;
      assert LastDemands(read, body, c.ref, c.pattern);
    }
  }

  ghost predicate Compares(e: Expr, a: Term, s: Scalar) {
    exists op | op == EQUALITY || op == EQUAL ::
      e == Expr(false, Operation(op, [a, Const(s)]), []) || e == Expr(false, Operation(op, [Const(s), a]), [])
  }

  lemma {:induction false} ReferenceCompared(isVirtual: Term -> bool, args: seq<Term>, e: Expr, ref: Term, s: Scalar)
    requires Lookable(isVirtual, ref) && Compares(e, ref, s)
    ensures ExprConstraint(isVirtual, args, e) == Some(Constraint(ref, Exactly(s)))
  {
  }

  /** A rule that last constrains such a reference by comparing it with a scalar is dropped for every other known value. */
  lemma {:induction false} ScalarComparisonIndexed(isVirtual: Term -> bool, read: Reader, rule: Rule, res: Resolver, i: nat, ref: Term, s: Scalar)
    requires (forall e :: read(e) == ExprConstraint(isVirtual, rule.args, e)) && !Prints(rule.body)
    requires Lookable(isVirtual, ref) && i < |rule.body| && Compares(rule.body[i], ref, s) && Last(read, rule.body, i, ref)
    requires res(ref) != Unknown && res(ref) != Known(VScalar(s))
    ensures !Selected(res, Constraints(isVirtual, rule))
  {
    ReferenceCompared(isVirtual, rule.args, rule.body[i], ref, s);
    assert Excludes(read, rule.body, res, i);
    DroppedExactly(isVirtual, read, rule, res);
  }

  lemma {:induction false} ArgumentCompared(isVirtual: Term -> bool, args: seq<Term>, e: Expr, i: nat, s: Scalar)
    requires i < |args| && args[i].Var? && args[i] !in args[..i] && Compares(e, args[i], s)
    ensures ExprConstraint(isVirtual, args, e) == Some(Constraint(ArgRef(i), Exactly(s)))
  {
    FirstIndex(args, i);
  }

  /** So does comparing a function argument. */
  lemma {:induction false} ArgumentComparisonIndexed(isVirtual: Term -> bool, read: Reader, rule: Rule, res: Resolver, i: nat, k: nat, s: Scalar)
    requires (forall e :: read(e) == ExprConstraint(isVirtual, rule.args, e)) && !Prints(rule.body)
    requires k < |rule.args| && rule.args[k].Var? && rule.args[k] !in rule.args[..k]
    requires i < |rule.body| && Compares(rule.body[i], rule.args[k], s) && Last(read, rule.body, i, ArgRef(k))
    requires res(ArgRef(k)) != Unknown && res(ArgRef(k)) != Known(VScalar(s))
    ensures !Selected(res, Constraints(isVirtual, rule))
  {
    ArgumentCompared(isVirtual, rule.args, rule.body[i], k, s);
    assert Excludes(read, rule.body, res, i);
    DroppedExactly(isVirtual, read, rule, res);
  }

  lemma {:induction false} FirstIndex(args: seq<Term>, i: nat)
    requires i < |args| && args[i] !in args[..i]
    ensures ArgIndex(args, args[i]) == Some(i)
  {
    if i > 0 {
      assert args[0] in args[..i];
      assert args[1..][i - 1] == args[i];
      assert forall t | t in args[1..][..i - 1] :: t in args[..i];
      FirstIndex(args[1..], i - 1);
    }
  }
}
