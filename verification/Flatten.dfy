/** Flattening: nested calls, and then nested references, are bound to generated variables first. */
module Flatten {
  import opened Syntax
  import opened Semantics
  import opened LocalVars

  /**
    `Calls` expands calls in term position; `Refs` binds references; `Top` is `Refs` for an operand whose
    own reference may stay in place.
   */
  datatype Mode = Calls | Refs | Top

  datatype Lifted = Lifted(support: seq<Expr>, term: Term, next: nat)
  datatype LiftedSeq = LiftedSeq(support: seq<Expr>, terms: seq<Term>, next: nat)
  datatype LiftedItems = LiftedItems(support: seq<Expr>, items: seq<Item>, next: nat)
  datatype LiftedBody = LiftedBody(body: seq<Expr>, next: nat)

  function Inner(m: Mode): Mode {
    if m.Top? then Refs else m
  }

  function Head(ts: seq<Term>): seq<Term> {
    if ts == [] then [] else ts[..1]
  }

  /** The call with its result captured in a variable. */
  function Capture(op: Term, args: seq<Term>, x: Name): Expr {
    Expr(false, Operation(op, args + [Var(x)]), [])
  }

  predicate Composite(t: Term) {
    t.Array? || t.Object? || t.Set? || t.Comprehension? || t.Call?
  }

  function Lift(m: Mode, g: Generator, n: nat, t: Term): Lifted
    decreases t, 0
  {
    match t
    case Call(op, args) =>
      if m.Calls? then
        var xs := LiftSeq(Calls, g, n, args);
        var k := FirstFree(g, xs.next);
        Lifted(xs.support + [Capture(op, xs.terms, Local(g, k))], Var(Local(g, k)), k + 1)
      else Lifted([], t, n)
    case Ref(parts) =>
      if m.Calls? then
        var xs := LiftSeq(Calls, g, n, parts);
        if xs.terms != [] && Composite(xs.terms[0]) then
          var k := FirstFree(g, xs.next);
          Lifted(xs.support + [Equality(Var(Local(g, k)), xs.terms[0])], Ref([Var(Local(g, k))] + xs.terms[1..]), k + 1)
        else Lifted(xs.support, Ref(xs.terms), xs.next)
      else
        var xs := LiftSeq(Refs, g, n, Tail(parts));
        var ref := Ref(Head(parts) + xs.terms);
        if m.Top? then Lifted(xs.support, ref, xs.next)
        else
          var k := FirstFree(g, xs.next);
          Lifted(xs.support + [Equality(Var(Local(g, k)), ref)], Var(Local(g, k)), k + 1)
    case Array(elems) => var xs := LiftSeq(Inner(m), g, n, elems); Lifted(xs.support, Array(xs.terms), xs.next)
    case Object(items) => var xs := LiftItems(Inner(m), g, n, items); Lifted(xs.support, Object(xs.items), xs.next)
    case Set(members) => var xs := LiftSeq(Inner(m), g, n, members); Lifted(xs.support, Set(xs.terms), xs.next)
    case _ => Lifted([], t, n)
  }

  function LiftSeq(m: Mode, g: Generator, n: nat, ts: seq<Term>): LiftedSeq
    decreases ts, 0
  {
    if ts == [] then LiftedSeq([], [], n)
    else
      var x := Lift(m, g, n, ts[0]);
      var xs := LiftSeq(m, g, x.next, ts[1..]);
      LiftedSeq(x.support + xs.support, [x.term] + xs.terms, xs.next)
  }

  function LiftItems(m: Mode, g: Generator, n: nat, items: seq<Item>): LiftedItems
    decreases items, 0
  {
    if items == [] then LiftedItems([], [], n)
    else
      var x := LiftItem(m, g, n, items[0]);
      var xs := LiftItems(m, g, x.next, items[1..]);
      LiftedItems(x.support + xs.support, x.items + xs.items, xs.next)
  }

  function LiftItem(m: Mode, g: Generator, n: nat, item: Item): LiftedItems
    decreases item, 0
  {
    var k := Lift(m, g, n, item.key);
    var v := Lift(m, g, k.next, item.value);
    LiftedItems(k.support + v.support, [Item(k.term, v.term)], v.next)
  }

  /** The mode for the operands of an expression: references there may stay if they stand alone. */
  function OperandMode(m: Mode, f: Form): Mode {
    if m.Calls? || (f.Operation? && f.op != EQUALITY) then Inner(m) else Top
  }

  function LiftExpr(m: Mode, g: Generator, n: nat, e: Expr): LiftedBody {
    match e.form
    case Single(t) =>
      var x := Lift(OperandMode(m, e.form), g, n, t);
      LiftedBody(x.support + [e.(form := Single(x.term))], x.next)
    case Operation(op, operands) =>
      if m.Refs? && op == EQUALITY && |operands| != 2 then LiftedBody([e], n)
      else
        var xs := LiftSeq(OperandMode(m, e.form), g, n, operands);
        LiftedBody(xs.support + [e.(form := Operation(op, xs.terms))], xs.next)
  }

  function LiftBody(m: Mode, g: Generator, n: nat, body: seq<Expr>): LiftedBody
    decreases body
  {
    if body == [] then LiftedBody([], n)
    else
      var x := LiftExpr(m, g, n, body[0]);
      var xs := LiftBody(m, g, x.next, body[1..]);
      LiftedBody(x.body + xs.body, xs.next)
  }

  /** Both passes, one after the other, with the same generator. */
  function FlattenBody(g: Generator, n: nat, body: seq<Expr>): LiftedBody {
    var calls := LiftBody(Calls, g, n, body);
    LiftBody(Refs, g, calls.next, calls.body)
  }

  // Terms the claims are about: no comprehensions, and calls supply exactly the inputs of their operator.

  ghost predicate Wf(w: World, t: Term)
    decreases t, 0
  {
    match t
    case Const(_) => true
    case Var(_) => true
    case Ref(parts) => WfSeq(w, parts)
    case Call(op, args) => op != EQUALITY && |args| == w.arity(op) && WfSeq(w, args)
    case Array(elems) => WfSeq(w, elems)
    case Object(items) => WfItems(w, items)
    case Set(members) => WfSeq(w, members)
    case Comprehension(_, _, _) => false
  }

  ghost predicate WfSeq(w: World, ts: seq<Term>)
    decreases ts, 0
  {
    ts == [] || (Wf(w, ts[0]) && WfSeq(w, ts[1..]))
  }

  ghost predicate WfItems(w: World, items: seq<Item>)
    decreases items, 0
  {
    items == [] || (WfItem(w, items[0]) && WfItems(w, items[1..]))
  }

  ghost predicate WfItem(w: World, item: Item)
    decreases item, 0
  {
    Wf(w, item.key) && Wf(w, item.value)
  }

  ghost predicate WfForm(w: World, f: Form) {
    match f
    case Single(t) => Wf(w, t)
    case Operation(_, operands) => WfSeq(w, operands)
  }

  // Where the support holds, the lifted term has the value of the original.

  lemma {:induction false} EvalSnoc(w: World, env: Env, ts: seq<Term>, x: Name)
    ensures EvalSeq(w, env, ts + [Var(x)]) ==
            match EvalSeq(w, env, ts) case None => None case Some(vs) => Some(vs + [env(x)])
  {
    if ts == [] {
      assert ts + [Var(x)] == [Var(x)];
      assert EvalSeq(w, env, [Var(x)]) == Some([env(x)] + []) by { assert [Var(x)][1..] == []; }
      assert [env(x)] + [] == [] + [env(x)];
    } else {
      EvalSnoc(w, env, ts[1..], x);
      assert (ts + [Var(x)])[0] == ts[0] && (ts + [Var(x)])[1..] == ts[1..] + [Var(x)];
      if EvalSeq(w, env, ts).Some? {
        var v, vs := Eval(w, env, ts[0]).value, EvalSeq(w, env, ts[1..]).value;
        assert [v] + vs + [env(x)] == [v] + (vs + [env(x)]);
      }
    }
  }

  lemma {:induction false} EqualityHolds(w: World, env: Env, a: Term, b: Term)
    ensures Holds(w, env, Equality(a, b)) <==> Eval(w, env, a).Some? && Eval(w, env, a) == Eval(w, env, b)
  {
    assert [a, b][1..] == [b] && [b][1..] == [];
    assert EvalSeq(w, env, [b]) == match Eval(w, env, b) case None => None case Some(v) => Some([v] + []);
  }

  lemma {:induction false} CaptureHolds(w: World, env: Env, op: Term, args: seq<Term>, x: Name)
    requires op != EQUALITY && |args| == w.arity(op)
    ensures Holds(w, env, Capture(op, args, x)) <==>
            EvalSeq(w, env, args).Some? && Apply(w, op, EvalSeq(w, env, args).value) == Some(env(x))
  {
    EvalSnoc(w, env, args, x);
    if EvalSeq(w, env, args).Some? {
      var vs := EvalSeq(w, env, args).value;
      assert (vs + [env(x)])[..|vs|] == vs;
    }
  }

  lemma {:induction false} EvalSeqParts(w: World, env: Env, xs: seq<Term>, ys: seq<Term>)
    requires |xs| == |ys| > 0
    requires Eval(w, env, xs[0]) == Eval(w, env, ys[0]) && EvalSeq(w, env, xs[1..]) == EvalSeq(w, env, ys[1..])
    ensures EvalSeq(w, env, xs) == EvalSeq(w, env, ys)
  {
  }

  lemma {:induction false} LiftEval(w: World, m: Mode, g: Generator, n: nat, t: Term, env: Env)
    requires Wf(w, t) && HoldsBody(w, env, Lift(m, g, n, t).support)
    ensures Eval(w, env, Lift(m, g, n, t).term) == Eval(w, env, t)
    decreases t, 0
  {
    match t
    case Const(_) =>
    case Var(_) =>
    case Call(op, args) =>
      if m.Calls? {
        var xs := LiftSeq(Calls, g, n, args);
        var x := Local(g, FirstFree(g, xs.next));
        HoldsBodyConcat(w, env, xs.support, [Capture(op, xs.terms, x)]);
        LiftSeqEval(w, Calls, g, n, args, env);
        assert Holds(w, env, [Capture(op, xs.terms, x)][0]);
        CaptureHolds(w, env, op, xs.terms, x);
      }
    case Ref(parts) => LiftRefEval(w, m, g, n, parts, env);
    case Array(elems) => LiftSeqEval(w, Inner(m), g, n, elems, env);
    case Object(items) => LiftItemsEval(w, Inner(m), g, n, items, env);
    case Set(members) => LiftSeqEval(w, Inner(m), g, n, members, env);
  }

  lemma {:induction false} LiftRefEval(w: World, m: Mode, g: Generator, n: nat, parts: seq<Term>, env: Env)
    requires WfSeq(w, parts) && HoldsBody(w, env, Lift(m, g, n, Ref(parts)).support)
    ensures Eval(w, env, Lift(m, g, n, Ref(parts)).term) == Eval(w, env, Ref(parts))
    decreases parts, 1
  {
    if m.Calls? {
      var xs := LiftSeq(Calls, g, n, parts);
      if xs.terms != [] && Composite(xs.terms[0]) {
        var x := Local(g, FirstFree(g, xs.next));
        var eq := Equality(Var(x), xs.terms[0]);
        HoldsBodyConcat(w, env, xs.support, [eq]);
        LiftSeqEval(w, Calls, g, n, parts, env);
        assert Holds(w, env, [eq][0]);
        EqualityHolds(w, env, Var(x), xs.terms[0]);
        EvalSeqParts(w, env, [Var(x)] + xs.terms[1..], xs.terms);
      } else {
        LiftSeqEval(w, Calls, g, n, parts, env);
      }
    } else {
      var xs := LiftSeq(Refs, g, n, Tail(parts));
      var ref := Ref(Head(parts) + xs.terms);
      var x := Local(g, FirstFree(g, xs.next));
      if !m.Top? { HoldsBodyConcat(w, env, xs.support, [Equality(Var(x), ref)]); }
      LiftSeqEval(w, Refs, g, n, Tail(parts), env);
      if parts != [] { EvalSeqParts(w, env, Head(parts) + xs.terms, parts); }
      assert Eval(w, env, ref) == Eval(w, env, Ref(parts));
      if !m.Top? {
        assert Holds(w, env, [Equality(Var(x), ref)][0]);
        EqualityHolds(w, env, Var(x), ref);
      }
    }
  }

  lemma {:induction false} LiftSeqEval(w: World, m: Mode, g: Generator, n: nat, ts: seq<Term>, env: Env)
    requires WfSeq(w, ts) && HoldsBody(w, env, LiftSeq(m, g, n, ts).support)
    ensures |LiftSeq(m, g, n, ts).terms| == |ts|
    ensures EvalSeq(w, env, LiftSeq(m, g, n, ts).terms) == EvalSeq(w, env, ts)
    decreases ts, 0
  {
    if ts != [] {
      var x := Lift(m, g, n, ts[0]);
      var xs := LiftSeq(m, g, x.next, ts[1..]);
      HoldsBodyConcat(w, env, x.support, xs.support);
      LiftEval(w, m, g, n, ts[0], env);
      LiftSeqEval(w, m, g, x.next, ts[1..], env);
      assert ([x.term] + xs.terms)[1..] == xs.terms;
    }
  }

  lemma {:induction false} LiftItemsEval(w: World, m: Mode, g: Generator, n: nat, items: seq<Item>, env: Env)
    requires WfItems(w, items) && HoldsBody(w, env, LiftItems(m, g, n, items).support)
    ensures EvalItems(w, env, LiftItems(m, g, n, items).items) == EvalItems(w, env, items)
    decreases items, 0
  {
    if items != [] {
      var x := LiftItem(m, g, n, items[0]);
      var xs := LiftItems(m, g, x.next, items[1..]);
      HoldsBodyConcat(w, env, x.support, xs.support);
      LiftItemEval(w, m, g, n, items[0], env);
      LiftItemsEval(w, m, g, x.next, items[1..], env);
      assert (x.items + xs.items)[0] == x.items[0] && (x.items + xs.items)[1..] == xs.items;
    }
  }

  lemma {:induction false} LiftItemEval(w: World, m: Mode, g: Generator, n: nat, item: Item, env: Env)
    requires WfItem(w, item) && HoldsBody(w, env, LiftItem(m, g, n, item).support)
    ensures EvalItem(w, env, LiftItem(m, g, n, item).items[0]) == EvalItem(w, env, item)
    decreases item, 0
  {
    var k := Lift(m, g, n, item.key);
    HoldsBodyConcat(w, env, k.support, Lift(m, g, k.next, item.value).support);
    LiftEval(w, m, g, n, item.key, env);
    LiftEval(w, m, g, k.next, item.value, env);
  }

  // What lifting mentions: the variables of the original, and generated ones.

  /** `x` occurs in the original, or was generated in between. */
  ghost predicate Mentioned(g: Generator, n: nat, m: nat, original: set<Name>, x: Name) {
    x in original || Generated(g, n, m, x)
  }

  ghost predicate AllMentioned(g: Generator, n: nat, m: nat, original: set<Name>, names: set<Name>) {
    forall x | x in names :: Mentioned(g, n, m, original, x)
  }

  lemma {:induction false} MentionedWider(g: Generator, n: nat, m: nat, original: set<Name>, names: set<Name>,
                                          n': nat, m': nat, original': set<Name>)
    requires n' <= n <= m <= m' && original <= original'
    requires AllMentioned(g, n, m, original, names)
    ensures AllMentioned(g, n', m', original', names)
  {
    forall x | x in names ensures Mentioned(g, n', m', original', x) {
      if Generated(g, n, m, x) {
        GeneratedSplits(g, n', n, m', x);
        GeneratedSplits(g, n, m, m', x);
      }
    }
  }

  ghost predicate Within(g: Generator, n: nat, original: set<Name>, support: seq<Expr>, names: set<Name>, next: nat) {
    n <= next && AllMentioned(g, n, next, original, BodyVars(OPERANDS, support) + names)
  }

  lemma {:induction false} WithinJoin(g: Generator, n: nat, k: nat, m: nat, o1: set<Name>, s1: seq<Expr>, v1: set<Name>,
                                      o2: set<Name>, s2: seq<Expr>, v2: set<Name>)
    requires Within(g, n, o1, s1, v1, k) && Within(g, k, o2, s2, v2, m)
    ensures Within(g, n, o1 + o2, s1 + s2, v1 + v2, m)
  {
    BodyVarsConcat(OPERANDS, s1, s2);
    MentionedWider(g, n, k, o1, BodyVars(OPERANDS, s1) + v1, n, m, o1 + o2);
    MentionedWider(g, k, m, o2, BodyVars(OPERANDS, s2) + v2, n, m, o1 + o2);
  }

  /** Binding a fresh name to something made of mentioned variables. */
  lemma {:induction false} WithinBind(g: Generator, n: nat, next: nat, original: set<Name>, support: seq<Expr>, names: set<Name>, e: Expr)
    requires Within(g, n, original, support, names, next)
    requires var k := FirstFree(g, next); ExprVars(OPERANDS, e) <= original + names + {Local(g, k)}
    ensures var k := FirstFree(g, next); Within(g, n, original, support + [e], names + {Local(g, k)}, k + 1)
  {
    var k := FirstFree(g, next);
    BodyVarsConcat(OPERANDS, support, [e]);
    assert BodyVars(OPERANDS, [e]) == ExprVars(OPERANDS, e) + BodyVars(OPERANDS, []);
    MentionedWider(g, n, next, original, BodyVars(OPERANDS, support) + names, n, k + 1, original);
    GeneratedOnce(g, next, Local(g, k));
    GeneratedSplits(g, n, next, k + 1, Local(g, k));
  }

  lemma {:induction false} EqualityVars(x: Name, t: Term)
    ensures ExprVars(OPERANDS, Equality(Var(x), t)) == {x} + Vars(OPERANDS, t)
  {
    assert [Var(x), t][1..] == [t] && [t][1..] == [];
    assert SeqVars(OPERANDS, [t]) == Vars(OPERANDS, t) + SeqVars(OPERANDS, []);
    assert SeqVars(OPERANDS, [Var(x), t]) == {x} + SeqVars(OPERANDS, [t]);
    assert Tail(EQUALITY.parts) == [];
  }

  lemma {:induction false} CaptureVars(op: Term, args: seq<Term>, x: Name)
    ensures ExprVars(OPERANDS, Capture(op, args, x)) == OperatorVars(OPERANDS, op) + SeqVars(OPERANDS, args) + {x}
  {
    SeqVarsConcat(OPERANDS, args, [Var(x)]);
    assert SeqVars(OPERANDS, [Var(x)]) == {x} + SeqVars(OPERANDS, []);
  }

  lemma {:induction false} LiftWithin(m: Mode, g: Generator, n: nat, t: Term)
    ensures var x := Lift(m, g, n, t); Within(g, n, Vars(OPERANDS, t), x.support, Vars(OPERANDS, x.term), x.next)
    decreases t, 0
  {
    match t
    case Call(op, args) =>
      if m.Calls? {
        var xs := LiftSeq(Calls, g, n, args);
        var k := FirstFree(g, xs.next);
        LiftSeqWithin(Calls, g, n, args);
        MentionedWider(g, n, xs.next, SeqVars(OPERANDS, args), BodyVars(OPERANDS, xs.support) + SeqVars(OPERANDS, xs.terms),
                       n, xs.next, Vars(OPERANDS, t));
        CaptureVars(op, xs.terms, Local(g, k));
        WithinBind(g, n, xs.next, Vars(OPERANDS, t), xs.support, SeqVars(OPERANDS, xs.terms), Capture(op, xs.terms, Local(g, k)));
      }
    case Ref(parts) => LiftRefWithin(m, g, n, parts);
    case Array(elems) => LiftSeqWithin(Inner(m), g, n, elems);
    case Object(items) => LiftItemsWithin(Inner(m), g, n, items);
    case Set(members) => LiftSeqWithin(Inner(m), g, n, members);
    case _ =>
  }

  lemma {:induction false} LiftRefWithin(m: Mode, g: Generator, n: nat, parts: seq<Term>)
    ensures var x := Lift(m, g, n, Ref(parts));
            Within(g, n, Vars(OPERANDS, Ref(parts)), x.support, Vars(OPERANDS, x.term), x.next)
    decreases parts, 1
  {
    if m.Calls? {
      var xs := LiftSeq(Calls, g, n, parts);
      LiftSeqWithin(Calls, g, n, parts);
      if xs.terms != [] && Composite(xs.terms[0]) {
        var x := Local(g, FirstFree(g, xs.next));
        EqualityVars(x, xs.terms[0]);
        WithinBind(g, n, xs.next, SeqVars(OPERANDS, parts), xs.support, SeqVars(OPERANDS, xs.terms), Equality(Var(x), xs.terms[0]));
        assert ([Var(x)] + xs.terms[1..])[1..] == xs.terms[1..];
      }
    } else {
      KeptRefWithin(g, n, parts);
      if !m.Top? {
        var xs := LiftSeq(Refs, g, n, Tail(parts));
        var x, ref := Local(g, FirstFree(g, xs.next)), Ref(Head(parts) + xs.terms);
        EqualityVars(x, ref);
        WithinBind(g, n, xs.next, SeqVars(OPERANDS, parts), xs.support, Vars(OPERANDS, ref), Equality(Var(x), ref));
      }
    }
  }

  lemma {:induction false} KeptRefWithin(g: Generator, n: nat, parts: seq<Term>)
    ensures var xs := LiftSeq(Refs, g, n, Tail(parts));
            Within(g, n, SeqVars(OPERANDS, parts), xs.support, Vars(OPERANDS, Ref(Head(parts) + xs.terms)), xs.next)
    decreases parts, 0
  {
    var xs := LiftSeq(Refs, g, n, Tail(parts));
    if parts == [] {
      assert Head(parts) + xs.terms == [];
    } else {
      LiftSeqWithin(Refs, g, n, parts[1..]);
      SeqVarsConcat(OPERANDS, parts[..1], xs.terms);
      assert parts[..1][1..] == [] && parts[..1][0] == parts[0];
      assert SeqVars(OPERANDS, parts[..1]) == Vars(OPERANDS, parts[0]) + SeqVars(OPERANDS, []);
      MentionedWider(g, n, xs.next, SeqVars(OPERANDS, parts[1..]), BodyVars(OPERANDS, xs.support) + SeqVars(OPERANDS, xs.terms),
                     n, xs.next, SeqVars(OPERANDS, parts));
    }
  }

  lemma {:induction false} LiftSeqWithin(m: Mode, g: Generator, n: nat, ts: seq<Term>)
    ensures var xs := LiftSeq(m, g, n, ts); Within(g, n, SeqVars(OPERANDS, ts), xs.support, SeqVars(OPERANDS, xs.terms), xs.next)
    decreases ts, 0
  {
    if ts != [] {
      var x := Lift(m, g, n, ts[0]);
      var xs := LiftSeq(m, g, x.next, ts[1..]);
      LiftWithin(m, g, n, ts[0]);
      LiftSeqWithin(m, g, x.next, ts[1..]);
      WithinJoin(g, n, x.next, xs.next, Vars(OPERANDS, ts[0]), x.support, Vars(OPERANDS, x.term),
                 SeqVars(OPERANDS, ts[1..]), xs.support, SeqVars(OPERANDS, xs.terms));
      assert ([x.term] + xs.terms)[1..] == xs.terms;
    }
  }

  lemma {:induction false} LiftItemsWithin(m: Mode, g: Generator, n: nat, items: seq<Item>)
    ensures var xs := LiftItems(m, g, n, items); Within(g, n, ItemsVars(OPERANDS, items), xs.support, ItemsVars(OPERANDS, xs.items), xs.next)
    decreases items, 0
  {
    if items != [] {
      var x := LiftItem(m, g, n, items[0]);
      var xs := LiftItems(m, g, x.next, items[1..]);
      LiftItemWithin(m, g, n, items[0]);
      LiftItemsWithin(m, g, x.next, items[1..]);
      WithinJoin(g, n, x.next, xs.next, ItemVars(OPERANDS, items[0]), x.support, ItemVars(OPERANDS, x.items[0]),
                 ItemsVars(OPERANDS, items[1..]), xs.support, ItemsVars(OPERANDS, xs.items));
      assert (x.items + xs.items)[0] == x.items[0] && (x.items + xs.items)[1..] == xs.items;
    }
  }

  lemma {:induction false} LiftItemWithin(m: Mode, g: Generator, n: nat, item: Item)
    ensures var x := LiftItem(m, g, n, item);
            |x.items| == 1 && Within(g, n, ItemVars(OPERANDS, item), x.support, ItemVars(OPERANDS, x.items[0]), x.next)
    decreases item, 0
  {
    var k := Lift(m, g, n, item.key);
    var v := Lift(m, g, k.next, item.value);
    LiftWithin(m, g, n, item.key);
    LiftWithin(m, g, k.next, item.value);
    WithinJoin(g, n, k.next, v.next, Vars(OPERANDS, item.key), k.support, Vars(OPERANDS, k.term),
               Vars(OPERANDS, item.value), v.support, Vars(OPERANDS, v.term));
  }
}
