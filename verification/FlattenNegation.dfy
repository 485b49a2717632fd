/** When flattening preserves the meaning of a negated expression. */
module FlattenNegation {
  import opened Syntax
  import opened Semantics
  import opened LocalVars
  import opened Flatten
  import opened FlattenMeaning
  import opened FlattenBodies
  import opened FlattenShape

  /** The expression holds exactly when the assignment extends to a solution of its flattened form. */
  ghost predicate FaithfulAt(w: World, g: Generator, n: nat, e: Expr, env: Env) {
    var r := FlattenBody(g, n, [e]);
    Holds(w, env, e) <==> exists env' :: Extends(w, g, n, r.next, r.body, env, env')
  }

  /** Flattening preserves the solutions of the expression, whatever the documents and functions are. */
  ghost predicate Faithful(w: World, g: Generator, n: nat, e: Expr) {
    forall w': World, env: Env | Lexical(w') && w'.arity == w.arity :: FaithfulAt(w', g, n, e, env)
  }

  /** Without calls, and where a literal is the subject of a reference, it is plain. */
  predicate Harmless(t: Term)
    decreases t, 0
  {
    match t
    case Call(_, _) => false
    case Ref(parts) =>
      && AllHarmless(parts)
      && (parts != [] && Composite(parts[0]) ==> Plain(parts[0]))
    case Array(elems) => AllHarmless(elems)
    case Object(items) => ItemsHarmless(items)
    case Set(members) => AllHarmless(members)
    case _ => true
  }

  predicate AllHarmless(ts: seq<Term>)
    decreases ts, 0
  {
    ts == [] || (Harmless(ts[0]) && AllHarmless(ts[1..]))
  }

  predicate ItemsHarmless(items: seq<Item>)
    decreases items, 0
  {
    items == [] || (ItemHarmless(items[0]) && ItemsHarmless(items[1..]))
  }

  predicate ItemHarmless(item: Item)
    decreases item, 0
  {
    Harmless(item.key) && Harmless(item.value)
  }

  lemma {:induction false} OneHarmless(t: Term)
    ensures AllHarmless([t]) == Harmless(t) && AllPlain([t]) == Plain(t)
  {
    assert [t][1..] == [];
  }

  // Plain terms are left alone, and only they are.

  lemma {:induction false} PlainUnlifted(m: Mode, g: Generator, n: nat, t: Term)
    requires Plain(t)
    ensures Lift(m, g, n, t) == Lifted([], t, n)
    decreases t, 0
  {
    match t
    case Array(elems) => PlainSeqUnlifted(Inner(m), g, n, elems);
    case Object(items) => PlainItemsUnlifted(Inner(m), g, n, items);
    case Set(members) => PlainSeqUnlifted(Inner(m), g, n, members);
    case _ =>
  }

  lemma {:induction false} PlainSeqUnlifted(m: Mode, g: Generator, n: nat, ts: seq<Term>)
    requires AllPlain(ts)
    ensures LiftSeq(m, g, n, ts) == LiftedSeq([], ts, n)
    decreases ts, 0
  {
    if ts != [] {
      PlainUnlifted(m, g, n, ts[0]);
      PlainSeqUnlifted(m, g, n, ts[1..]);
    }
  }

  lemma {:induction false} PlainItemsUnlifted(m: Mode, g: Generator, n: nat, items: seq<Item>)
    requires ItemsPlain(items)
    ensures LiftItems(m, g, n, items) == LiftedItems([], items, n)
    decreases items, 0
  {
    if items != [] {
      PlainItemUnlifted(m, g, n, items[0]);
      PlainItemsUnlifted(m, g, n, items[1..]);
    }
  }

  lemma {:induction false} PlainItemUnlifted(m: Mode, g: Generator, n: nat, item: Item)
    requires ItemPlain(item)
    ensures LiftItem(m, g, n, item) == LiftedItems([], [item], n)
    decreases item, 0
  {
    PlainUnlifted(m, g, n, item.key);
    PlainUnlifted(m, g, n, item.value);
  }

  lemma {:induction false} UnliftedPlain(g: Generator, n: nat, t: Term)
    requires NoCalls(t)
    ensures Lift(Refs, g, n, t).support == [] <==> Plain(t)
    decreases t, 0
  {
    match t
    case Array(elems) => UnliftedSeqPlain(g, n, elems);
    case Object(items) => UnliftedItemsPlain(g, n, items);
    case Set(members) => UnliftedSeqPlain(g, n, members);
    case _ =>
  }

  lemma {:induction false} UnliftedSeqPlain(g: Generator, n: nat, ts: seq<Term>)
    requires AllNoCalls(ts)
    ensures LiftSeq(Refs, g, n, ts).support == [] <==> AllPlain(ts)
    decreases ts, 0
  {
    if ts != [] {
      UnliftedPlain(g, n, ts[0]);
      UnliftedSeqPlain(g, Lift(Refs, g, n, ts[0]).next, ts[1..]);
    }
  }

  lemma {:induction false} UnliftedItemsPlain(g: Generator, n: nat, items: seq<Item>)
    requires ItemsNoCalls(items)
    ensures LiftItems(Refs, g, n, items).support == [] <==> ItemsPlain(items)
    decreases items, 0
  {
    if items != [] {
      UnliftedItemPlain(g, n, items[0]);
      UnliftedItemsPlain(g, LiftItem(Refs, g, n, items[0]).next, items[1..]);
    }
  }

  lemma {:induction false} UnliftedItemPlain(g: Generator, n: nat, item: Item)
    requires ItemNoCalls(item)
    ensures LiftItem(Refs, g, n, item).support == [] <==> ItemPlain(item)
    decreases item, 0
  {
    UnliftedPlain(g, n, item.key);
    UnliftedPlain(g, Lift(Refs, g, n, item.key).next, item.value);
  }

  lemma {:induction false} UnliftedAlone(g: Generator, n: nat, t: Term)
    requires NoCalls(t)
    ensures Lift(Top, g, n, t).support == [] <==> Alone(t)
  {
    match t
    case Ref(parts) => UnliftedSeqPlain(g, n, Tail(parts));
    case Array(elems) => UnliftedSeqPlain(g, n, elems);
    case Object(items) => UnliftedItemsPlain(g, n, items);
    case Set(members) => UnliftedSeqPlain(g, n, members);
    case _ =>
  }

  lemma {:induction false} UnliftedAllAlone(g: Generator, n: nat, ts: seq<Term>)
    requires AllNoCalls(ts)
    ensures LiftSeq(Top, g, n, ts).support == [] <==> AllAlone(ts)
    decreases ts
  {
    if ts != [] {
      UnliftedAlone(g, n, ts[0]);
      UnliftedAllAlone(g, Lift(Top, g, n, ts[0]).next, ts[1..]);
    }
  }

  /** The second pass lifts nothing out of an expression exactly when it is flat already. */
  lemma {:induction false} UnliftedFlat(g: Generator, n: nat, e: Expr)
    requires ExprNoCalls(e) && !Untouched(Refs, e.form)
    ensures LiftSeq(OperandMode(Refs, e.form), g, n, Operands(e.form)).support == [] <==> ExprFlat(e)
  {
    match e.form
    case Single(t) =>
      assert [t][1..] == [] && AllNoCalls([t]);
      UnliftedAllAlone(g, n, [t]);
      assert AllAlone([t]) == Alone(t);
    case Operation(op, operands) =>
      if op == EQUALITY {
        UnliftedAllAlone(g, n, operands);
      } else {
        UnliftedSeqPlain(g, n, operands);
      }
  }

  // The first pass keeps the shape of a harmless term.

  lemma {:induction false} KeepsPlain(g: Generator, n: nat, t: Term)
    requires Harmless(t)
    ensures Plain(Lift(Calls, g, n, t).term) <==> Plain(t)
    decreases t, 0
  {
    match t
    case Array(elems) => KeepsSeqPlain(g, n, elems);
    case Object(items) => KeepsItemsPlain(g, n, items);
    case Set(members) => KeepsSeqPlain(g, n, members);
    case _ =>
  }

  lemma {:induction false} KeepsSeqPlain(g: Generator, n: nat, ts: seq<Term>)
    requires AllHarmless(ts)
    ensures AllPlain(LiftSeq(Calls, g, n, ts).terms) <==> AllPlain(ts)
    decreases ts, 0
  {
    if ts != [] {
      KeepsPlain(g, n, ts[0]);
      var x := Lift(Calls, g, n, ts[0]);
      KeepsSeqPlain(g, x.next, ts[1..]);
      assert ([x.term] + LiftSeq(Calls, g, x.next, ts[1..]).terms)[1..] == LiftSeq(Calls, g, x.next, ts[1..]).terms;
    }
  }

  lemma {:induction false} KeepsItemsPlain(g: Generator, n: nat, items: seq<Item>)
    requires ItemsHarmless(items)
    ensures ItemsPlain(LiftItems(Calls, g, n, items).items) <==> ItemsPlain(items)
    decreases items, 0
  {
    if items != [] {
      KeepsItemPlain(g, n, items[0]);
      var x := LiftItem(Calls, g, n, items[0]);
      KeepsItemsPlain(g, x.next, items[1..]);
      ConsItems(x.items[0], LiftItems(Calls, g, x.next, items[1..]).items);
    }
  }

  lemma {:induction false} KeepsItemPlain(g: Generator, n: nat, item: Item)
    requires ItemHarmless(item)
    ensures var x := LiftItem(Calls, g, n, item); |x.items| == 1 && (ItemPlain(x.items[0]) <==> ItemPlain(item))
    decreases item, 0
  {
    KeepsPlain(g, n, item.key);
    KeepsPlain(g, Lift(Calls, g, n, item.key).next, item.value);
  }

  lemma {:induction false} KeepsAlone(g: Generator, n: nat, t: Term)
    requires Harmless(t)
    ensures Alone(Lift(Calls, g, n, t).term) <==> Alone(t)
  {
    KeepsPlain(g, n, t);
    if t.Ref? && t.parts != [] {
      var parts, xs := t.parts, LiftSeq(Calls, g, n, t.parts);
      var x := Lift(Calls, g, n, parts[0]);
      KeepsSeqPlain(g, x.next, parts[1..]);
      assert xs.terms[1..] == LiftSeq(Calls, g, x.next, parts[1..]).terms;
      var k := Var(Local(g, FirstFree(g, xs.next)));
      assert ([k] + xs.terms[1..])[1..] == xs.terms[1..];
    }
  }

  lemma {:induction false} KeepsAllAlone(g: Generator, n: nat, ts: seq<Term>)
    requires AllHarmless(ts)
    ensures AllAlone(LiftSeq(Calls, g, n, ts).terms) <==> AllAlone(ts)
    decreases ts
  {
    if ts != [] {
      KeepsAlone(g, n, ts[0]);
      var x := Lift(Calls, g, n, ts[0]);
      KeepsAllAlone(g, x.next, ts[1..]);
      assert ([x.term] + LiftSeq(Calls, g, x.next, ts[1..]).terms)[1..] == LiftSeq(Calls, g, x.next, ts[1..]).terms;
    }
  }

  // What the first pass lifts: results of calls, and literals that are subjects of references.

  /** The expression gives a variable the value of a term. */
  predicate Defines(e: Expr) {
    && e.form.Operation? && |e.form.operands| == 2 && e.form.operands[0].Var?
    && e == Equality(e.form.operands[0], e.form.operands[1])
  }

  function Defined(e: Expr): Term
    requires Defines(e)
  {
    e.form.operands[1]
  }

  predicate Introduces(e: Expr) {
    e.form.Operation? && (e.form.op == EQUALITY ==> Defines(e) && Composite(Defined(e)))
  }

  predicate Introduced(support: seq<Expr>) {
    forall i | 0 <= i < |support| :: Introduces(support[i])
  }

  /** The expression defines a variable by a plain literal. */
  predicate DefinesSurely(e: Expr) {
    Defines(e) && Plain(Defined(e))
  }

  predicate Sure(support: seq<Expr>) {
    forall i | 0 <= i < |support| :: DefinesSurely(support[i])
  }

  lemma {:induction false} SureConcat(xs: seq<Expr>, ys: seq<Expr>)
    ensures Sure(xs + ys) <==> Sure(xs) && Sure(ys)
    ensures Introduced(xs) && Introduced(ys) ==> Introduced(xs + ys)
  {
    if Sure(xs + ys) {
      forall i | 0 <= i < |xs| ensures DefinesSurely(xs[i]) {
        assert (xs + ys)[i] == xs[i];
      }
      forall i | 0 <= i < |ys| ensures DefinesSurely(ys[i]) {
        assert (xs + ys)[|xs| + i] == ys[i];
      }
    }
  }

  lemma {:induction false} SureOne(x: Name, t: Term)
    ensures Sure([Equality(Var(x), t)]) <==> Plain(t)
  {
    var e := Equality(Var(x), t);
    assert Defines(e) && Defined(e) == t && [e][0] == e;
  }

  /** The first pass lifts only plain literals exactly when the term is harmless. */
  lemma {:induction false} SureHarmless(w: World, g: Generator, n: nat, t: Term)
    requires Wf(w, t)
    ensures var x := Lift(Calls, g, n, t); Introduced(x.support) && (Sure(x.support) <==> Harmless(t))
    decreases t, 0
  {
    match t
    case Const(_) =>
    case Var(_) =>
    case Call(op, args) =>
      SureSeqHarmless(w, g, n, args);
      var xs := LiftSeq(Calls, g, n, args);
      var capture := Capture(op, xs.terms, Local(g, FirstFree(g, xs.next)));
      SureConcat(xs.support, [capture]);
      assert !Defines([capture][0]);
    case Ref(parts) => SureRefHarmless(w, g, n, parts);
    case Array(elems) => SureSeqHarmless(w, g, n, elems);
    case Object(items) => SureItemsHarmless(w, g, n, items);
    case Set(members) => SureSeqHarmless(w, g, n, members);
  }

  lemma {:induction false} SureRefHarmless(w: World, g: Generator, n: nat, parts: seq<Term>)
    requires WfSeq(w, parts)
    ensures var x := Lift(Calls, g, n, Ref(parts)); Introduced(x.support) && (Sure(x.support) <==> Harmless(Ref(parts)))
    decreases parts, 1
  {
    SureSeqHarmless(w, g, n, parts);
    var xs := LiftSeq(Calls, g, n, parts);
    if xs.terms != [] && Composite(xs.terms[0]) {
      var x := Local(g, FirstFree(g, xs.next));
      var def := Equality(Var(x), xs.terms[0]);
      SureConcat(xs.support, [def]);
      assert Defines([def][0]) && Defined([def][0]) == xs.terms[0];
      SureOne(x, xs.terms[0]);
      assert xs.terms[0] == Lift(Calls, g, n, parts[0]).term;
      if AllHarmless(parts) {
        KeepsPlain(g, n, parts[0]);
        if Plain(parts[0]) { PlainUnlifted(Calls, g, n, parts[0]); }
      }
    }
  }

  lemma {:induction false} SureSeqHarmless(w: World, g: Generator, n: nat, ts: seq<Term>)
    requires WfSeq(w, ts)
    ensures var xs := LiftSeq(Calls, g, n, ts); Introduced(xs.support) && (Sure(xs.support) <==> AllHarmless(ts))
    decreases ts, 0
  {
    if ts != [] {
      var x := Lift(Calls, g, n, ts[0]);
      SureHarmless(w, g, n, ts[0]);
      SureSeqHarmless(w, g, x.next, ts[1..]);
      SureConcat(x.support, LiftSeq(Calls, g, x.next, ts[1..]).support);
    }
  }

  lemma {:induction false} SureItemsHarmless(w: World, g: Generator, n: nat, items: seq<Item>)
    requires WfItems(w, items)
    ensures var xs := LiftItems(Calls, g, n, items); Introduced(xs.support) && (Sure(xs.support) <==> ItemsHarmless(items))
    decreases items, 0
  {
    if items != [] {
      var x := LiftItem(Calls, g, n, items[0]);
      SureItemHarmless(w, g, n, items[0]);
      SureItemsHarmless(w, g, x.next, items[1..]);
      SureConcat(x.support, LiftItems(Calls, g, x.next, items[1..]).support);
    }
  }

  lemma {:induction false} SureItemHarmless(w: World, g: Generator, n: nat, item: Item)
    requires WfItem(w, item)
    ensures var x := LiftItem(Calls, g, n, item); Introduced(x.support) && (Sure(x.support) <==> ItemHarmless(item))
    decreases item, 0
  {
    var k := Lift(Calls, g, n, item.key);
    SureHarmless(w, g, n, item.key);
    SureHarmless(w, g, k.next, item.value);
    SureConcat(k.support, Lift(Calls, g, k.next, item.value).support);
  }

  // A plain term always has a value.

  lemma {:induction false} PlainDefined(w: World, env: Env, t: Term)
    requires Wf(w, t) && Plain(t)
    ensures Eval(w, env, t).Some?
    decreases t, 0
  {
    match t
    case Const(_) =>
    case Var(_) =>
    case Array(elems) => PlainSeqDefined(w, env, elems);
    case Object(items) => PlainItemsDefined(w, env, items);
    case Set(members) => PlainSeqDefined(w, env, members);
  }

  lemma {:induction false} PlainSeqDefined(w: World, env: Env, ts: seq<Term>)
    requires WfSeq(w, ts) && AllPlain(ts)
    ensures EvalSeq(w, env, ts).Some?
    decreases ts, 0
  {
    if ts != [] {
      PlainDefined(w, env, ts[0]);
      PlainSeqDefined(w, env, ts[1..]);
    }
  }

  lemma {:induction false} PlainItemsDefined(w: World, env: Env, items: seq<Item>)
    requires WfItems(w, items) && ItemsPlain(items)
    ensures EvalItems(w, env, items).Some?
    decreases items, 0
  {
    if items != [] {
      PlainItemDefined(w, env, items[0]);
      PlainItemsDefined(w, env, items[1..]);
    }
  }

  lemma {:induction false} PlainItemDefined(w: World, env: Env, item: Item)
    requires WfItem(w, item) && ItemPlain(item)
    ensures EvalItem(w, env, item).Some?
    decreases item, 0
  {
    PlainDefined(w, env, item.key);
    PlainDefined(w, env, item.value);
  }

  // What is lifted out of a harmless term can always be solved.

  lemma {:induction false} ExtendHarmless(w: World, g: Generator, n: nat, t: Term, env: Env) returns (env': Env)
    requires Lexical(w) && Wf(w, t) && Stale(g, n, Vars(OPERANDS, t)) && Harmless(t)
    ensures var x := Lift(Calls, g, n, t); Extends(w, g, n, x.next, x.support, env, env')
    decreases t, 0
  {
    match t
    case Const(_) => env' := env;
    case Var(_) => env' := env;
    case Ref(parts) => env' := ExtendHarmlessRef(w, g, n, parts, env);
    case Array(elems) => env' := ExtendHarmlessSeq(w, g, n, elems, env);
    case Object(items) => env' := ExtendHarmlessItems(w, g, n, items, env);
    case Set(members) => env' := ExtendHarmlessSeq(w, g, n, members, env);
  }

  lemma {:induction false} ExtendHarmlessRef(w: World, g: Generator, n: nat, parts: seq<Term>, env: Env) returns (env': Env)
    requires Lexical(w) && WfSeq(w, parts) && Stale(g, n, SeqVars(OPERANDS, parts)) && Harmless(Ref(parts))
    ensures var x := Lift(Calls, g, n, Ref(parts)); Extends(w, g, n, x.next, x.support, env, env')
    decreases parts, 1
  {
    var xs := LiftSeq(Calls, g, n, parts);
    env' := ExtendHarmlessSeq(w, g, n, parts, env);
    if xs.terms != [] && Composite(xs.terms[0]) {
      PlainUnlifted(Calls, g, n, parts[0]);
      PlainDefined(w, env', parts[0]);
      var k := FirstFree(g, xs.next);
      var x, v := Local(g, k), Eval(w, env', parts[0]).value;
      SeqAfter(w, Calls, g, n, parts, env, env', v);
      var e2 := Update(env', x, v);
      UpdateFresh(g, xs.next, env', v);
      SameOffStale(g, xs.next, k + 1, env', e2, Vars(OPERANDS, parts[0]));
      EvalLocal(w, env', e2, parts[0]);
      EqualityHolds(w, e2, Var(x), parts[0]);
      ExtendsBind(w, g, n, xs.next, xs.support, env, env', v, Equality(Var(x), parts[0]));
      env' := e2;
    }
  }

  lemma {:induction false} ExtendHarmlessSeq(w: World, g: Generator, n: nat, ts: seq<Term>, env: Env) returns (env': Env)
    requires Lexical(w) && WfSeq(w, ts) && Stale(g, n, SeqVars(OPERANDS, ts)) && AllHarmless(ts)
    ensures var xs := LiftSeq(Calls, g, n, ts); Extends(w, g, n, xs.next, xs.support, env, env')
    decreases ts, 0
  {
    if ts == [] {
      env' := env;
    } else {
      var x := Lift(Calls, g, n, ts[0]);
      var e1 := ExtendHarmless(w, g, n, ts[0], env);
      LiftWithin(Calls, g, n, ts[0]);
      WithinStale(g, n, Vars(OPERANDS, ts[0]), x.support, Vars(OPERANDS, x.term), x.next);
      StaleLater(g, n, x.next, SeqVars(OPERANDS, ts[1..]));
      env' := ExtendHarmlessSeq(w, g, x.next, ts[1..], e1);
      LiftSeqWithin(Calls, g, x.next, ts[1..]);
      var xs := LiftSeq(Calls, g, x.next, ts[1..]);
      ExtendsJoin(w, g, n, x.next, xs.next, x.support, xs.support, env, e1, env');
    }
  }

  lemma {:induction false} ExtendHarmlessItems(w: World, g: Generator, n: nat, items: seq<Item>, env: Env) returns (env': Env)
    requires Lexical(w) && WfItems(w, items) && Stale(g, n, ItemsVars(OPERANDS, items)) && ItemsHarmless(items)
    ensures var xs := LiftItems(Calls, g, n, items); Extends(w, g, n, xs.next, xs.support, env, env')
    decreases items, 0
  {
    if items == [] {
      env' := env;
    } else {
      var x := LiftItem(Calls, g, n, items[0]);
      var e1 := ExtendHarmlessItem(w, g, n, items[0], env);
      LiftItemWithin(Calls, g, n, items[0]);
      WithinStale(g, n, ItemVars(OPERANDS, items[0]), x.support, ItemVars(OPERANDS, x.items[0]), x.next);
      StaleLater(g, n, x.next, ItemsVars(OPERANDS, items[1..]));
      env' := ExtendHarmlessItems(w, g, x.next, items[1..], e1);
      LiftItemsWithin(Calls, g, x.next, items[1..]);
      var xs := LiftItems(Calls, g, x.next, items[1..]);
      ExtendsJoin(w, g, n, x.next, xs.next, x.support, xs.support, env, e1, env');
    }
  }

  lemma {:induction false} ExtendHarmlessItem(w: World, g: Generator, n: nat, item: Item, env: Env) returns (env': Env)
    requires Lexical(w) && WfItem(w, item) && Stale(g, n, ItemVars(OPERANDS, item)) && ItemHarmless(item)
    ensures var x := LiftItem(Calls, g, n, item); Extends(w, g, n, x.next, x.support, env, env')
    decreases item, 0
  {
    var k := Lift(Calls, g, n, item.key);
    var e1 := ExtendHarmless(w, g, n, item.key, env);
    LiftWithin(Calls, g, n, item.key);
    WithinStale(g, n, Vars(OPERANDS, item.key), k.support, Vars(OPERANDS, k.term), k.next);
    StaleLater(g, n, k.next, Vars(OPERANDS, item.value));
    env' := ExtendHarmless(w, g, k.next, item.value, e1);
    LiftWithin(Calls, g, k.next, item.value);
    var v := Lift(Calls, g, k.next, item.value);
    ExtendsJoin(w, g, n, k.next, v.next, k.support, v.support, env, e1, env');
  }

  // In a world without documents and results, no call and no reference that was lifted has a value.

  /** Everything the second pass adds binds a reference. */
  ghost predicate BindsRefs(support: seq<Expr>) {
    forall i | 0 <= i < |support| :: exists x, parts :: support[i] == Equality(Var(x), Ref(parts))
  }

  lemma {:induction false} RefsSupport(m: Mode, g: Generator, n: nat, t: Term)
    requires !m.Calls?
    ensures BindsRefs(Lift(m, g, n, t).support)
    decreases t, 0
  {
    match t
    case Ref(parts) => RefsSupportSeq(Refs, g, n, Tail(parts));
    case Array(elems) => RefsSupportSeq(Refs, g, n, elems);
    case Object(items) => RefsSupportItems(g, n, items);
    case Set(members) => RefsSupportSeq(Refs, g, n, members);
    case _ =>
  }

  lemma {:induction false} RefsSupportSeq(m: Mode, g: Generator, n: nat, ts: seq<Term>)
    requires !m.Calls?
    ensures BindsRefs(LiftSeq(m, g, n, ts).support)
    decreases ts, 0
  {
    if ts != [] {
      RefsSupport(m, g, n, ts[0]);
      RefsSupportSeq(m, g, Lift(m, g, n, ts[0]).next, ts[1..]);
    }
  }

  lemma {:induction false} RefsSupportItems(g: Generator, n: nat, items: seq<Item>)
    ensures BindsRefs(LiftItems(Refs, g, n, items).support)
    decreases items, 0
  {
    if items != [] {
      RefsSupportItem(g, n, items[0]);
      RefsSupportItems(g, LiftItem(Refs, g, n, items[0]).next, items[1..]);
    }
  }

  lemma {:induction false} RefsSupportItem(g: Generator, n: nat, item: Item)
    ensures BindsRefs(LiftItem(Refs, g, n, item).support)
    decreases item, 0
  {
    RefsSupport(Refs, g, n, item.key);
    RefsSupport(Refs, g, Lift(Refs, g, n, item.key).next, item.value);
  }

  /** A world without documents, where no function has a result. */
  ghost predicate Silent(w: World) {
    (forall vs :: w.deref(vs) == None) && (forall op, vs :: w.call(op, vs) == None)
  }

  /** With no documents at all, a binding of a reference cannot hold. */
  lemma {:induction false} NoDocuments(w: World, env: Env, support: seq<Expr>)
    requires BindsRefs(support) && support != [] && Silent(w)
    ensures !HoldsBody(w, env, support)
  {
    var x, parts :| support[0] == Equality(Var(x), Ref(parts));
    EqualityHolds(w, env, Var(x), Ref(parts));
  }

  lemma {:induction false} SilentCall(w: World, env: Env, f: Form)
    requires Silent(w) && f.Operation? && f.op != EQUALITY
    ensures !HoldsForm(w, env, f)
  {
  }

  lemma {:induction false} SilentDefinition(w: World, g: Generator, n: nat, e: Expr, env: Env)
    requires Silent(w) && Ok(w, e) && ExprNoCalls(e) && Introduces(e) && HoldsBody(w, env, LiftExpr(Refs, g, n, e).body)
    ensures DefinesSurely(e)
  {
    ExprMeaning(w, Refs, g, n, e, env);
    assert e.form.op == EQUALITY by {
      if e.form.op != EQUALITY {
        SilentCall(w, env, e.form);
        assert false;
      }
    }
    var ts := e.form.operands;
    LiftExprShape(w, Refs, g, n, e);
    var xs := LiftSeq(Top, g, n, ts);
    RefsSupportSeq(Top, g, n, ts);
    HoldsBodyConcat(w, env, xs.support, [e.(form := WithOperands(e.form, xs.terms))]);
    if xs.support != [] { NoDocuments(w, env, xs.support); }
    UnliftedAllAlone(g, n, ts);
    assert Alone(ts[1]) by { assert AllAlone(ts[1..]) && ts[1..][0] == ts[1]; }
  }

  lemma {:induction false} SilentPass(w: World, g: Generator, n: nat, body: seq<Expr>, env: Env)
    requires Silent(w) && OkBody(w, body) && BodyNoCalls(body) && Introduced(body)
    requires HoldsBody(w, env, LiftBody(Refs, g, n, body).body)
    ensures Sure(body)
    decreases body
  {
    if body != [] {
      var x := LiftExpr(Refs, g, n, body[0]);
      HoldsBodyConcat(w, env, x.body, LiftBody(Refs, g, x.next, body[1..]).body);
      SilentDefinition(w, g, n, body[0], env);
      SilentPass(w, g, x.next, body[1..], env);
      forall i | 0 <= i < |body| ensures DefinesSurely(body[i]) {
        if i > 0 { assert body[i] == body[1..][i - 1]; }
      }
    }
  }

  // The two passes over one expression.

  lemma {:induction false} PassConcat(m: Mode, g: Generator, n: nat, xs: seq<Expr>, e: Expr)
    ensures var d := LiftBody(m, g, n, xs); var r := LiftExpr(m, g, d.next, e);
            LiftBody(m, g, n, xs + [e]) == LiftedBody(d.body + r.body, r.next)
    decreases xs
  {
    if xs == [] {
      assert xs + [e] == [e] && [e][1..] == [];
    } else {
      assert (xs + [e])[1..] == xs[1..] + [e];
      PassConcat(m, g, LiftExpr(m, g, n, xs[0]).next, xs[1..], e);
    }
  }

  /** The expression with what the first pass leaves of its operands. */
  ghost function AfterCalls(g: Generator, n: nat, e: Expr): Expr {
    var xs := LiftSeq(Calls, g, n, Operands(e.form));
    if |xs.terms| == |Operands(e.form)| then e.(form := WithOperands(e.form, xs.terms)) else e
  }

  /** What the second pass makes of the definitions the first one adds. */
  ghost function Definitions(g: Generator, n: nat, e: Expr): LiftedBody {
    var xs := LiftSeq(Calls, g, n, Operands(e.form));
    LiftBody(Refs, g, xs.next, xs.support)
  }

  /** What the second pass adds for the expression itself. */
  ghost function Bindings(g: Generator, n: nat, e: Expr): LiftedSeq {
    if Untouched(Refs, e.form) then LiftedSeq([], Operands(e.form), n)
    else LiftSeq(OperandMode(Refs, e.form), g, n, Operands(e.form))
  }

  lemma {:induction false} FirstPass(w: World, g: Generator, n: nat, e: Expr)
    requires WfForm(w, e.form)
    ensures var xs := LiftSeq(Calls, g, n, Operands(e.form)); var e1 := AfterCalls(g, n, e);
            && WfSeq(w, Operands(e.form)) && |xs.terms| == |Operands(e.form)| && OkBody(w, xs.support)
            && WfForm(w, e1.form) && e1 == e.(form := WithOperands(e.form, xs.terms)) && Operands(e1.form) == xs.terms
            && LiftBody(Calls, g, n, [e]) == LiftedBody(xs.support + [e1], xs.next)
  {
    var xs := LiftSeq(Calls, g, n, Operands(e.form));
    LiftExprShape(w, Calls, g, n, e);
    LiftSeqWf(w, Calls, g, n, Operands(e.form));
    assert [e][1..] == [];
    assert xs.support + [AfterCalls(g, n, e)] + [] == xs.support + [AfterCalls(g, n, e)];
  }

  lemma {:induction false} SecondPass(w: World, g: Generator, n: nat, e: Expr)
    requires WfForm(w, e.form)
    ensures var b := Bindings(g, n, e);
            && |b.terms| == |Operands(e.form)| && BindsRefs(b.support)
            && LiftExpr(Refs, g, n, e) == LiftedBody(b.support + [e.(form := WithOperands(e.form, b.terms))], b.next)
  {
    if Untouched(Refs, e.form) {
      assert [] + [e] == [e];
    } else {
      LiftExprShape(w, Refs, g, n, e);
      RefsSupportSeq(OperandMode(Refs, e.form), g, n, Operands(e.form));
    }
  }

  /** What is left of the expression. */
  ghost function Rest(g: Generator, n: nat, e: Expr): Expr {
    var e1 := AfterCalls(g, n, e);
    var b := Bindings(g, Definitions(g, n, e).next, e1);
    if |b.terms| == |Operands(e1.form)| then e1.(form := WithOperands(e1.form, b.terms)) else e
  }

  /** What is put in front of it. */
  ghost function Added(g: Generator, n: nat, e: Expr): LiftedBody {
    var d := Definitions(g, n, e);
    var b := Bindings(g, d.next, AfterCalls(g, n, e));
    LiftedBody(d.body + b.support, b.next)
  }

  lemma {:induction false} FlattenOne(w: World, g: Generator, n: nat, e: Expr)
    requires WfForm(w, e.form)
    ensures FlattenBody(g, n, [e]) == LiftedBody(Added(g, n, e).body + [Rest(g, n, e)], Added(g, n, e).next)
  {
    FirstPass(w, g, n, e);
    var xs, e1, d := LiftSeq(Calls, g, n, Operands(e.form)), AfterCalls(g, n, e), Definitions(g, n, e);
    PassConcat(Refs, g, xs.next, xs.support, e1);
    SecondPass(w, g, d.next, e1);
    Regroup(d.body, Bindings(g, d.next, e1).support, [Rest(g, n, e)]);
  }

  /** Where what was added holds, the rest of the expression means what the expression means. */
  lemma {:induction false} RestMeaning(w: World, g: Generator, n: nat, e: Expr, env: Env)
    requires WfForm(w, e.form) && HoldsBody(w, env, Added(g, n, e).body)
    ensures Holds(w, env, Rest(g, n, e)) == Holds(w, env, e)
  {
    var xs, e1, d := LiftSeq(Calls, g, n, Operands(e.form)), AfterCalls(g, n, e), Definitions(g, n, e);
    var b := Bindings(g, d.next, e1);
    FirstPass(w, g, n, e);
    SecondPass(w, g, d.next, e1);
    HoldsBodyConcat(w, env, d.body, b.support);
    PassMeaning(w, Refs, g, xs.next, xs.support, env);
    LiftSeqEval(w, Calls, g, n, Operands(e.form), env);
    SameOperandValues(w, env, e.form, xs.terms);
    if !Untouched(Refs, e1.form) {
      LiftSeqEval(w, OperandMode(Refs, e1.form), g, d.next, Operands(e1.form), env);
    }
    SameOperandValues(w, env, e1.form, b.terms);
  }

  lemma {:induction false} WfSameArity(w: World, w': World, f: Form)
    requires w'.arity == w.arity && WfForm(w, f)
    ensures WfForm(w', f)
  {
    match f
    case Single(t) => WfTermSameArity(w, w', t);
    case Operation(_, operands) => WfSeqSameArity(w, w', operands);
  }

  lemma {:induction false} WfTermSameArity(w: World, w': World, t: Term)
    requires w'.arity == w.arity && Wf(w, t)
    ensures Wf(w', t)
    decreases t, 0
  {
    match t
    case Const(_) =>
    case Var(_) =>
    case Ref(parts) => WfSeqSameArity(w, w', parts);
    case Call(_, args) => WfSeqSameArity(w, w', args);
    case Array(elems) => WfSeqSameArity(w, w', elems);
    case Object(items) => WfItemsSameArity(w, w', items);
    case Set(members) => WfSeqSameArity(w, w', members);
  }

  lemma {:induction false} WfSeqSameArity(w: World, w': World, ts: seq<Term>)
    requires w'.arity == w.arity && WfSeq(w, ts)
    ensures WfSeq(w', ts)
    decreases ts, 0
  {
    if ts != [] {
      WfTermSameArity(w, w', ts[0]);
      WfSeqSameArity(w, w', ts[1..]);
    }
  }

  lemma {:induction false} WfItemsSameArity(w: World, w': World, items: seq<Item>)
    requires w'.arity == w.arity && WfItems(w, items)
    ensures WfItems(w', items)
    decreases items, 0
  {
    if items != [] {
      WfItemSameArity(w, w', items[0]);
      WfItemsSameArity(w, w', items[1..]);
    }
  }

  lemma {:induction false} WfItemSameArity(w: World, w': World, item: Item)
    requires w'.arity == w.arity && WfItem(w, item)
    ensures WfItem(w', item)
    decreases item, 0
  {
    WfTermSameArity(w, w', item.key);
    WfTermSameArity(w, w', item.value);
  }

  // A negated expression keeps its meaning exactly when what is added always has a solution.

  ghost predicate Solved(w: World, g: Generator, n: nat, added: LiftedBody, env: Env) {
    exists env' :: Extends(w, g, n, added.next, added.body, env, env')
  }

  ghost predicate Solvable(w: World, g: Generator, n: nat, added: LiftedBody) {
    forall w': World, env: Env | Lexical(w') && w'.arity == w.arity :: Solved(w', g, n, added, env)
  }

  ghost predicate Negated(w: World, g: Generator, n: nat, e: Expr) {
    Lexical(w) && e.negated && e.withs == [] && WfForm(w, e.form) && Stale(g, n, ExprVars(OPERANDS, e))
  }

  /** Where the negation fails, what is added has a solution. */
  lemma {:induction false} SolvedWhereDefined(w: World, g: Generator, n: nat, e: Expr, env: Env) returns (env': Env)
    requires Negated(w, g, n, e) && !Holds(w, env, e)
    ensures Extends(w, g, n, Added(g, n, e).next, Added(g, n, e).body, env, env')
  {
    var pos := e.(negated := false);
    assert BodyVars(OPERANDS, [pos]) == ExprVars(OPERANDS, e) by { assert [pos][1..] == []; }
    env' := FlattenExtends(w, g, n, [pos], env);
    FlattenOne(w, g, n, pos);
    assert Added(g, n, pos) == Added(g, n, e);
    HoldsBodyConcat(w, env', Added(g, n, e).body, [Rest(g, n, pos)]);
  }

  lemma {:induction false} RestWhere(w: World, g: Generator, n: nat, e: Expr, env: Env, env': Env)
    requires Negated(w, g, n, e) && Extends(w, g, n, Added(g, n, e).next, Added(g, n, e).body, env, env')
    ensures var r := FlattenBody(g, n, [e]); Extends(w, g, n, r.next, r.body, env, env') <==> Holds(w, env, e)
  {
    FlattenOne(w, g, n, e);
    HoldsBodyConcat(w, env', Added(g, n, e).body, [Rest(g, n, e)]);
    RestMeaning(w, g, n, e, env');
    SameOffStale(g, n, Added(g, n, e).next, env, env', ExprVars(OPERANDS, e));
    HoldsLocal(w, env, env', e);
    assert HoldsBody(w, env', [Rest(g, n, e)]) == Holds(w, env', Rest(g, n, e)) by {
      if HoldsBody(w, env', [Rest(g, n, e)]) { assert Holds(w, env', [Rest(g, n, e)][0]); }
    }
  }

  lemma {:induction false} AddedHolds(w: World, g: Generator, n: nat, e: Expr, env: Env, env': Env)
    requires WfForm(w, e.form)
    requires var r := FlattenBody(g, n, [e]); Extends(w, g, n, r.next, r.body, env, env')
    ensures Extends(w, g, n, Added(g, n, e).next, Added(g, n, e).body, env, env')
  {
    FlattenOne(w, g, n, e);
    HoldsBodyConcat(w, env', Added(g, n, e).body, [Rest(g, n, e)]);
  }

  lemma {:induction false} SolvableHere(w: World, g: Generator, n: nat, e: Expr, env: Env)
    requires Negated(w, g, n, e)
    ensures FaithfulAt(w, g, n, e, env) <==> Solved(w, g, n, Added(g, n, e), env)
  {
    var r, a := FlattenBody(g, n, [e]), Added(g, n, e);
    forall env' | Extends(w, g, n, a.next, a.body, env, env')
      ensures Extends(w, g, n, r.next, r.body, env, env') <==> Holds(w, env, e)
    {
      RestWhere(w, g, n, e, env, env');
    }
    forall env' | Extends(w, g, n, r.next, r.body, env, env') ensures Extends(w, g, n, a.next, a.body, env, env') {
      AddedHolds(w, g, n, e, env, env');
    }
    if !Holds(w, env, e) {
      var env' := SolvedWhereDefined(w, g, n, e, env);
      assert Solved(w, g, n, a, env);
    }
  }

  lemma {:induction false} FaithfulSolvable(w: World, g: Generator, n: nat, e: Expr)
    requires Negated(w, g, n, e)
    ensures Faithful(w, g, n, e) <==> Solvable(w, g, n, Added(g, n, e))
  {
    forall w': World, env: Env | Lexical(w') && w'.arity == w.arity
      ensures FaithfulAt(w', g, n, e, env) <==> Solved(w', g, n, Added(g, n, e), env)
    {
      WfSameArity(w, w', e.form);
      SolvableHere(w', g, n, e, env);
    }
  }

  // It always has a solution exactly when nothing was lifted that can lack a value.

  lemma {:induction false} SurePass(g: Generator, n: nat, body: seq<Expr>)
    requires Sure(body)
    ensures LiftBody(Refs, g, n, body) == LiftedBody(body, n)
    decreases body
  {
    if body != [] {
      var ts := body[0].form.operands;
      OneHarmless(ts[1]);
      assert ts[1..] == [ts[1]] && Plain(ts[0]);
      PlainSeqUnlifted(Top, g, n, ts);
      assert LiftExpr(Refs, g, n, body[0]) == LiftedBody([body[0]], n);
      SurePass(g, n, body[1..]);
    }
  }

  lemma {:induction false} KeepsFlat(w: World, g: Generator, n: nat, e: Expr)
    requires WfForm(w, e.form) && AllHarmless(Operands(e.form))
    ensures ExprFlat(AfterCalls(g, n, e)) <==> ExprFlat(e)
  {
    FirstPass(w, g, n, e);
    match e.form
    case Single(t) =>
      KeepsAlone(g, n, t);
      assert LiftSeq(Calls, g, n, [t]).terms[0] == Lift(Calls, g, n, t).term;
    case Operation(op, operands) =>
      if op == EQUALITY {
        KeepsAllAlone(g, n, operands);
      } else {
        KeepsSeqPlain(g, n, operands);
      }
  }

  lemma {:induction false} AfterCallsFlat(w: World, g: Generator, n: nat, k: nat, e: Expr)
    requires WfForm(w, e.form)
    ensures Bindings(g, k, AfterCalls(g, n, e)).support == [] <==> ExprFlat(AfterCalls(g, n, e))
  {
    FirstPass(w, g, n, e);
    SeqCallsLifted(g, n, Operands(e.form));
    var e1 := AfterCalls(g, n, e);
    assert ExprNoCalls(e1) by {
      if e1.form.Single? { assert Operands(e1.form)[0] == e1.form.term; }
    }
    if !Untouched(Refs, e1.form) { UnliftedFlat(g, k, e1); }
  }

  /** A flat expression of harmless terms: what is lifted always has a value. */
  lemma {:induction false} InertSolvable(w: World, g: Generator, n: nat, e: Expr)
    requires Negated(w, g, n, e) && ExprFlat(e) && AllHarmless(Operands(e.form))
    ensures Solvable(w, g, n, Added(g, n, e))
  {
    var ts, a := Operands(e.form), Added(g, n, e);
    var xs, e1 := LiftSeq(Calls, g, n, ts), AfterCalls(g, n, e);
    FirstPass(w, g, n, e);
    OperandVars(e, ts);
    SureSeqHarmless(w, g, n, ts);
    SurePass(g, xs.next, xs.support);
    KeepsFlat(w, g, n, e);
    AfterCallsFlat(w, g, n, xs.next, e);
    assert a.body == xs.support;
    LiftSeqWithin(Calls, g, n, ts);
    assert xs.next <= a.next by { LiftSeqWithin(OperandMode(Refs, e1.form), g, xs.next, Operands(e1.form)); }
    forall w': World, env: Env | Lexical(w') && w'.arity == w.arity
      ensures Solved(w', g, n, a, env)
    {
      WfSeqSameArity(w, w', ts);
      var env' := ExtendHarmlessSeq(w', g, n, ts, env);
      SameOffJoin(g, n, xs.next, a.next, env, env', env');
      assert Extends(w', g, n, a.next, a.body, env, env');
    }
  }

  ghost function Silenced(w: World): World {
    w.(deref := _ => None, call := (_, _) => None)
  }

  /** In a silent world a solution shows that nothing but plain literals was lifted. */
  lemma {:induction false} SilentSolution(w: World, g: Generator, n: nat, e: Expr, env: Env)
    requires Silent(w) && WfForm(w, e.form) && HoldsBody(w, env, Added(g, n, e).body)
    ensures ExprFlat(AfterCalls(g, n, e)) && Sure(LiftSeq(Calls, g, n, Operands(e.form)).support)
  {
    var ts, d, e1 := Operands(e.form), Definitions(g, n, e), AfterCalls(g, n, e);
    var xs, b := LiftSeq(Calls, g, n, ts), Bindings(g, d.next, e1);
    FirstPass(w, g, n, e);
    HoldsBodyConcat(w, env, d.body, b.support);
    SecondPass(w, g, d.next, e1);
    if b.support != [] { NoDocuments(w, env, b.support); }
    AfterCallsFlat(w, g, n, d.next, e);
    SeqCallsLifted(g, n, ts);
    SureSeqHarmless(w, g, n, ts);
    SilentPass(w, g, xs.next, xs.support, env);
  }

  lemma {:induction false} SolvableInert(w: World, g: Generator, n: nat, e: Expr)
    requires Negated(w, g, n, e) && Solvable(w, g, n, Added(g, n, e))
    ensures ExprFlat(e) && AllHarmless(Operands(e.form))
  {
    var w', a, env: Env := Silenced(w), Added(g, n, e), _ => VScalar(Null);
    assert Lexical(w') && Silent(w');
    WfSameArity(w, w', e.form);
    assert Solved(w', g, n, a, env);
    var env' :| Extends(w', g, n, a.next, a.body, env, env');
    SilentSolution(w', g, n, e, env');
    FirstPass(w, g, n, e);
    SureSeqHarmless(w, g, n, Operands(e.form));
    KeepsFlat(w, g, n, e);
  }

  /**
    Flattening preserves a negated expression exactly when it contains no call, references only as its one
    term or as sides of an equation, and neither inside a literal that is the subject of a reference.
   */
  lemma {:induction false} NegatedExact(w: World, g: Generator, n: nat, e: Expr)
    requires Negated(w, g, n, e)
    ensures Faithful(w, g, n, e) <==> ExprFlat(e) && AllHarmless(Operands(e.form))
  {
    FaithfulSolvable(w, g, n, e);
    if ExprFlat(e) && AllHarmless(Operands(e.form)) { InertSolvable(w, g, n, e); }
    if Solvable(w, g, n, Added(g, n, e)) { SolvableInert(w, g, n, e); }
  }

  /** `not h(f(x))` changes its meaning: where `f(x)` has no value, the expression holds and its flattened form does not. */
  lemma {:induction false} NestedCallNegated(w: World, g: Generator, n: nat, h: Term, f: Term, x: Name)
    requires var e := Expr(true, Operation(h, [Call(f, [Var(x)])]), []); Negated(w, g, n, e)
    ensures !Faithful(w, g, n, Expr(true, Operation(h, [Call(f, [Var(x)])]), []))
  {
    var e := Expr(true, Operation(h, [Call(f, [Var(x)])]), []);
    NegatedExact(w, g, n, e);
    assert !Harmless(Operands(e.form)[0]);
  }

  lemma {:induction false} PlainHarmless(t: Term)
    requires Plain(t)
    ensures Harmless(t)
    decreases t, 0
  {
    match t
    case Array(elems) => AllPlainHarmless(elems);
    case Object(items) => ItemsPlainHarmless(items);
    case Set(members) => AllPlainHarmless(members);
    case _ =>
  }

  lemma {:induction false} AllPlainHarmless(ts: seq<Term>)
    requires AllPlain(ts)
    ensures AllHarmless(ts)
    decreases ts, 0
  {
    if ts != [] {
      PlainHarmless(ts[0]);
      AllPlainHarmless(ts[1..]);
    }
  }

  lemma {:induction false} ItemsPlainHarmless(items: seq<Item>)
    requires ItemsPlain(items)
    ensures ItemsHarmless(items)
    decreases items, 0
  {
    if items != [] {
      ItemPlainHarmless(items[0]);
      ItemsPlainHarmless(items[1..]);
    }
  }

  lemma {:induction false} ItemPlainHarmless(item: Item)
    requires ItemPlain(item)
    ensures ItemHarmless(item)
    decreases item, 0
  {
    PlainHarmless(item.key);
    PlainHarmless(item.value);
  }

  /** A lookup in a plain literal, such as `not {x: 1, y: 2}[i]`, keeps its meaning although the literal is lifted. */
  lemma {:induction false} LiteralSubjectNegated(w: World, g: Generator, n: nat, t: Term, i: Name)
    requires Plain(t) && var e := Expr(true, Single(Ref([t, Var(i)])), []); Negated(w, g, n, e)
    ensures Faithful(w, g, n, Expr(true, Single(Ref([t, Var(i)])), []))
  {
    var parts := [t, Var(i)];
    PlainHarmless(t);
    OneHarmless(Var(i));
    assert AllHarmless(parts) && Alone(Ref(parts)) by { assert parts[1..] == [Var(i)]; }
    OneHarmless(Ref(parts));
    NegatedExact(w, g, n, Expr(true, Single(Ref(parts)), []));
  }
}
