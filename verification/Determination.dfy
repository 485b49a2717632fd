/** The variables `Unify` returns are functions of the safe ones. */
module Determination {
  import opened Syntax
  import opened Semantics
  import opened UnifierSpec

  /** `a = b` holds: both sides have the same value. */
  ghost predicate Satisfies(w: World, env: Env, a: Term, b: Term) {
    Eval(w, env, a).Some? && Eval(w, env, a) == Eval(w, env, b)
  }

  /**
    Variables inside references, calls, sets, comprehensions and object keys are inputs of an equality:
    they cannot be solved for, so they have to be safe beforehand.
   */
  predicate Transparent(safe: set<Name>, t: Term)
    decreases t, 0
  {
    match t
    case Const(_) => true
    case Var(_) => true
    case Array(elems) => TransparentSeq(safe, elems)
    case Object(items) => TransparentItems(safe, items)
    case _ => Vars(OPERANDS, t) <= safe
  }

  predicate TransparentSeq(safe: set<Name>, ts: seq<Term>)
    decreases ts, 0
  {
    ts == [] || (Transparent(safe, ts[0]) && TransparentSeq(safe, ts[1..]))
  }

  predicate TransparentItems(safe: set<Name>, items: seq<Item>)
    decreases items, 0
  {
    items == [] || (TransparentItem(safe, items[0]) && TransparentItems(safe, items[1..]))
  }

  predicate TransparentItem(safe: set<Name>, item: Item)
    decreases item, 0
  {
    Vars(OPERANDS, item.key) <= safe && Transparent(safe, item.value)
  }

  /**
    The keys of an object have different values, wherever the unifier looks into one: of two items with equal
    keys only one would be left.
   */
  ghost predicate KeysApart(w: World, env: Env, t: Term)
    decreases t, 0
  {
    match t
    case Array(elems) => KeysApartSeq(w, env, elems)
    case Object(items) => KeysApartItems(w, env, items)
    case _ => true
  }

  ghost predicate KeysApartSeq(w: World, env: Env, ts: seq<Term>)
    decreases ts, 0
  {
    ts == [] || (KeysApart(w, env, ts[0]) && KeysApartSeq(w, env, ts[1..]))
  }

  ghost predicate KeysApartItems(w: World, env: Env, items: seq<Item>)
    decreases items, 0
  {
    items == [] ||
    (&& KeysApartItem(w, env, items[0]) && KeysApartItems(w, env, items[1..])
     && forall item | item in items[1..] :: Eval(w, env, item.key) != Eval(w, env, items[0].key))
  }

  ghost predicate KeysApartItem(w: World, env: Env, item: Item)
    decreases item, 0
  {
    KeysApart(w, env, item.value)
  }

  /** Two assignments agreeing on the safe variables, and what a unifier state claims about them. */
  ghost predicate Consistent(e1: Env, e2: Env, st: State) {
    && Agree(e1, e2, st.unified)
    && forall a | a in st.unknown :: e1(a) == e2(a) <==> Agree(e1, e2, st.unknown[a])
  }

  lemma CloseConsistent(e1: Env, e2: Env, st: State, xs: set<Name>)
    requires Consistent(e1, e2, st) && Agree(e1, e2, xs)
    ensures Consistent(e1, e2, Close(st, xs))
  {
    var known := st.unified + xs;
    var d := set v | v in Universe(known, st.unknown) && e1(v) == e2(v);
    CloseMeets(st, xs);
    forall a | a in st.unknown
      ensures (a in d ==> st.unknown[a] <= d) && (st.unknown[a] <= d ==> a in d)
    {
      assert a in Universe(known, st.unknown);
      assert forall v | v in st.unknown[a] :: v in Universe(known, st.unknown);
    }
    assert Closed(d, st.unknown);
    assert known <= d;
  }

  // The variables the unifier sees in a transparent term determine its value, and are determined by it.

  lemma {:induction false} VisibleVars(safe: set<Name>, t: Term)
    requires Transparent(safe, t)
    ensures Vars(OPERANDS, t) <= Vars(UNIFIER_PARAMS, t) + safe
    ensures t.Var? || t.Array? || t.Object? || Vars(UNIFIER_PARAMS, t) <= safe
    decreases t, 0
  {
    match t
    case Const(_) =>
    case Var(_) =>
    case Array(elems) => VisibleVarsSeq(safe, elems);
    case Object(items) => VisibleVarsItems(safe, items);
    case _ => FewerVars(t);
  }

  lemma {:induction false} VisibleVarsSeq(safe: set<Name>, ts: seq<Term>)
    requires TransparentSeq(safe, ts)
    ensures SeqVars(OPERANDS, ts) <= SeqVars(UNIFIER_PARAMS, ts) + safe
    decreases ts, 0
  {
    if ts != [] {
      VisibleVars(safe, ts[0]);
      VisibleVarsSeq(safe, ts[1..]);
    }
  }

  lemma {:induction false} VisibleVarsItems(safe: set<Name>, items: seq<Item>)
    requires TransparentItems(safe, items)
    ensures ItemsVars(OPERANDS, items) <= ItemsVars(UNIFIER_PARAMS, items) + safe
    decreases items, 0
  {
    if items != [] {
      VisibleVarsItem(safe, items[0]);
      VisibleVarsItems(safe, items[1..]);
    }
  }

  lemma VisibleVarsItem(safe: set<Name>, item: Item)
    requires TransparentItem(safe, item)
    ensures ItemVars(OPERANDS, item) <= ItemVars(UNIFIER_PARAMS, item) + safe
    decreases item, 0
  {
    VisibleVars(safe, item.value);
  }

  lemma {:induction false} FewerVars(t: Term)
    ensures Vars(UNIFIER_PARAMS, t) <= Vars(OPERANDS, t)
    decreases t, 1
  {
    match t
    case Const(_) =>
    case Var(_) =>
    case Ref(parts) =>
      FewerSeqVars(Tail(parts));
    case Call(op, args) =>
      FewerVars(op);
      if op.Ref? {
        FewerSeqVars(Tail(op.parts));
        assert Vars(UNIFIER_PARAMS, op) == SeqVars(UNIFIER_PARAMS, Tail(op.parts));
      }
      FewerSeqVars(args);
    case Array(elems) => FewerSeqVars(elems);
    case Object(items) => FewerItemsVars(items);
    case Set(members) => FewerSeqVars(members);
    case Comprehension(_, _, _) =>
  }

  lemma {:induction false} FewerSeqVars(ts: seq<Term>)
    ensures SeqVars(UNIFIER_PARAMS, ts) <= SeqVars(OPERANDS, ts)
    decreases ts, 0
  {
    if ts != [] {
      FewerVars(ts[0]);
      FewerSeqVars(ts[1..]);
    }
  }

  lemma {:induction false} FewerItemsVars(items: seq<Item>)
    ensures ItemsVars(UNIFIER_PARAMS, items) <= ItemsVars(OPERANDS, items)
    decreases items, 0
  {
    if items != [] {
      FewerItemVars(items[0]);
      FewerItemsVars(items[1..]);
    }
  }

  lemma FewerItemVars(item: Item)
    ensures ItemVars(UNIFIER_PARAMS, item) <= ItemVars(OPERANDS, item)
    decreases item, 0
  {
    FewerVars(item.value);
  }

  ghost predicate Comparable(w: World, e1: Env, e2: Env, safe: set<Name>) {
    Lexical(w) && Agree(e1, e2, safe)
  }

  lemma ValueFromVars(w: World, e1: Env, e2: Env, safe: set<Name>, t: Term)
    requires Comparable(w, e1, e2, safe) && Transparent(safe, t) && Agree(e1, e2, Vars(UNIFIER_PARAMS, t))
    ensures Eval(w, e1, t) == Eval(w, e2, t)
  {
    VisibleVars(safe, t);
    EvalLocal(w, e1, e2, t);
  }

  lemma {:induction false} VarsFromValue(w: World, e1: Env, e2: Env, safe: set<Name>, t: Term)
    requires Comparable(w, e1, e2, safe) && Transparent(safe, t)
    requires KeysApart(w, e1, t) && KeysApart(w, e2, t)
    requires Eval(w, e1, t).Some? && Eval(w, e1, t) == Eval(w, e2, t)
    ensures Agree(e1, e2, Vars(UNIFIER_PARAMS, t))
    decreases t, 0
  {
    match t
    case Const(_) =>
    case Var(_) =>
    case Array(elems) => VarsFromValues(w, e1, e2, safe, elems);
    case Object(items) => VarsFromFields(w, e1, e2, safe, items);
    case _ => VisibleVars(safe, t);
  }

  lemma {:induction false} VarsFromValues(w: World, e1: Env, e2: Env, safe: set<Name>, ts: seq<Term>)
    requires Comparable(w, e1, e2, safe) && TransparentSeq(safe, ts)
    requires KeysApartSeq(w, e1, ts) && KeysApartSeq(w, e2, ts)
    requires EvalSeq(w, e1, ts).Some? && EvalSeq(w, e1, ts) == EvalSeq(w, e2, ts)
    ensures Agree(e1, e2, SeqVars(UNIFIER_PARAMS, ts))
    decreases ts, 0
  {
    if ts != [] {
      var v1, v2 := EvalSeq(w, e1, ts).value, EvalSeq(w, e2, ts).value;
      assert v1[0] == v2[0] && v1[1..] == v2[1..];
      assert v1[1..] == EvalSeq(w, e1, ts[1..]).value && v2[1..] == EvalSeq(w, e2, ts[1..]).value;
      VarsFromValue(w, e1, e2, safe, ts[0]);
      VarsFromValues(w, e1, e2, safe, ts[1..]);
    }
  }

  lemma {:induction false} KeysOf(w: World, env: Env, items: seq<Item>, k: Value)
    requires EvalItems(w, env, items).Some?
    ensures k in EvalItems(w, env, items).value <==> exists item | item in items :: Eval(w, env, item.key) == Some(k)
  {
    if items != [] {
      KeysOf(w, env, items[1..], k);
      assert items == [items[0]] + items[1..];
    }
  }

  /** The first of several items with different keys adds a field. */
  lemma {:induction false} KeyAbsent(w: World, env: Env, items: seq<Item>)
    requires items != [] && KeysApartItems(w, env, items) && EvalItems(w, env, items).Some?
    ensures Eval(w, env, items[0].key).Some? && EvalItems(w, env, items[1..]).Some?
    ensures Eval(w, env, items[0].key).value !in EvalItems(w, env, items[1..]).value
  {
    KeysOf(w, env, items[1..], Eval(w, env, items[0].key).value);
  }

  lemma {:induction false} VarsFromFields(w: World, e1: Env, e2: Env, safe: set<Name>, items: seq<Item>)
    requires Comparable(w, e1, e2, safe) && TransparentItems(safe, items)
    requires KeysApartItems(w, e1, items) && KeysApartItems(w, e2, items)
    requires EvalItems(w, e1, items).Some? && EvalItems(w, e1, items) == EvalItems(w, e2, items)
    ensures Agree(e1, e2, ItemsVars(UNIFIER_PARAMS, items))
    decreases items, 0
  {
    if items != [] {
      EvalLocal(w, e1, e2, items[0].key);
      var k := Eval(w, e1, items[0].key).value;
      var m1, m2 := EvalItems(w, e1, items[1..]).value, EvalItems(w, e2, items[1..]).value;
      var m := EvalItems(w, e1, items).value;
      KeyAbsent(w, e1, items);
      KeyAbsent(w, e2, items);
      assert m1 == m - {k} && m2 == m - {k};
      assert m[k] == Eval(w, e1, items[0].value).value == Eval(w, e2, items[0].value).value;
      VarsFromField(w, e1, e2, safe, items[0]);
      VarsFromFields(w, e1, e2, safe, items[1..]);
    }
  }

  lemma VarsFromField(w: World, e1: Env, e2: Env, safe: set<Name>, item: Item)
    requires Comparable(w, e1, e2, safe) && TransparentItem(safe, item)
    requires KeysApartItem(w, e1, item) && KeysApartItem(w, e2, item)
    requires Eval(w, e1, item.value).Some? && Eval(w, e1, item.value) == Eval(w, e2, item.value)
    ensures Agree(e1, e2, ItemVars(UNIFIER_PARAMS, item))
    decreases item, 0
  {
    VarsFromValue(w, e1, e2, safe, item.value);
  }

  /** The premises under which a step of the unifier keeps its claims. */
  ghost predicate Premises(w: World, e1: Env, e2: Env, safe: set<Name>, a: Term, b: Term, st: State) {
    && Comparable(w, e1, e2, safe) && Transparent(safe, a) && Transparent(safe, b)
    && KeysApart(w, e1, a) && KeysApart(w, e1, b) && KeysApart(w, e2, a) && KeysApart(w, e2, b)
    && Satisfies(w, e1, a, b) && Satisfies(w, e2, a, b)
    && Consistent(e1, e2, st)
  }

  lemma UnifyAllSound(w: World, e1: Env, e2: Env, safe: set<Name>, x: Name, b: Term, st: State)
    requires Premises(w, e1, e2, safe, Var(x), b, st)
    ensures Consistent(e1, e2, UnifyAll(safe, x, b, st))
  {
    var vars := Vars(UNIFIER_PARAMS, b);
    if e1(x) == e2(x) {
      VarsFromValue(w, e1, e2, safe, b);
    }
    if Agree(e1, e2, vars) {
      ValueFromVars(w, e1, e2, safe, b);
    }
    assert e1(x) == e2(x) <==> Agree(e1, e2, vars);
    assert Agree(e1, e2, vars) <==> Agree(e1, e2, Pending(safe, st, b));
    if IsSafe(safe, st, x) {
      CloseConsistent(e1, e2, st, vars);
    } else if Pending(safe, st, b) == {} {
      CloseConsistent(e1, e2, st, {x});
    }
  }

  lemma KnownOperandSound(w: World, e1: Env, e2: Env, safe: set<Name>, a: Term, b: Term, st: State)
    requires Premises(w, e1, e2, safe, a, b, st)
    requires Vars(OPERANDS, a) <= safe
    ensures Consistent(e1, e2, MarkOperand(b, st))
  {
    EvalLocal(w, e1, e2, a);
    VarsFromValue(w, e1, e2, safe, b);
    CloseConsistent(e1, e2, st, Vars(UNIFIER_PARAMS, b));
  }

  lemma UnifyVarsSound(e1: Env, e2: Env, safe: set<Name>, x: Name, y: Name, st: State)
    requires Agree(e1, e2, safe) && e1(x) == e1(y) && e2(x) == e2(y)
    requires Consistent(e1, e2, st)
    ensures Consistent(e1, e2, UnifyTerms(safe, Var(x), Var(y), st))
  {
    if IsSafe(safe, st, y) {
      CloseConsistent(e1, e2, st, {x});
    } else if IsSafe(safe, st, x) {
      CloseConsistent(e1, e2, st, {y});
    }
  }

  lemma {:induction false} UnifyStepSound(w: World, e1: Env, e2: Env, safe: set<Name>, a: Term, b: Term, st: State)
    requires Premises(w, e1, e2, safe, a, b, st)
    ensures Consistent(e1, e2, UnifyTerms(safe, a, b, st))
    decreases a, 0
  {
    if a.Var? && b.Var? {
      UnifyVarsSound(e1, e2, safe, a.name, b.name, st);
    } else if a.Var? && (b.Array? || b.Object?) {
      UnifyAllSound(w, e1, e2, safe, a.name, b, st);
    } else if b.Var? && (a.Array? || a.Object?) {
      UnifyAllSound(w, e1, e2, safe, b.name, a, st);
    } else if a.Array? && b.Array? {
      if |a.elems| == |b.elems| { UnifyElemsSound(w, e1, e2, safe, a.elems, b.elems, st); }
    } else if a.Object? && b.Object? {
      if |a.items| == |b.items| { UnifyItemsSound(w, e1, e2, safe, a.items, b.items, st); }
    } else if a.Var? || a.Array? || a.Object? {
      if Vars(OPERANDS, b) <= safe { KnownOperandSound(w, e1, e2, safe, b, a, st); }
    } else {
      KnownOperandSound(w, e1, e2, safe, a, b, st);
    }
  }

  lemma {:induction false} UnifyElemsSound(w: World, e1: Env, e2: Env, safe: set<Name>, xs: seq<Term>, ys: seq<Term>, st: State)
    requires |xs| == |ys| && Comparable(w, e1, e2, safe) && Consistent(e1, e2, st)
    requires TransparentSeq(safe, xs) && TransparentSeq(safe, ys)
    requires KeysApartSeq(w, e1, xs) && KeysApartSeq(w, e1, ys) && KeysApartSeq(w, e2, xs) && KeysApartSeq(w, e2, ys)
    requires EvalSeq(w, e1, xs).Some? && EvalSeq(w, e1, xs) == EvalSeq(w, e1, ys)
    requires EvalSeq(w, e2, xs).Some? && EvalSeq(w, e2, xs) == EvalSeq(w, e2, ys)
    ensures Consistent(e1, e2, UnifyElems(safe, xs, ys, st))
    decreases xs, 0
  {
    if xs != [] {
      SplitEqual(w, e1, xs, ys);
      SplitEqual(w, e2, xs, ys);
      UnifyStepSound(w, e1, e2, safe, xs[0], ys[0], st);
      UnifyElemsSound(w, e1, e2, safe, xs[1..], ys[1..], UnifyTerms(safe, xs[0], ys[0], st));
    }
  }

  lemma SplitEqual(w: World, env: Env, xs: seq<Term>, ys: seq<Term>)
    requires |xs| == |ys| != 0
    requires EvalSeq(w, env, xs).Some? && EvalSeq(w, env, xs) == EvalSeq(w, env, ys)
    ensures Satisfies(w, env, xs[0], ys[0])
    ensures EvalSeq(w, env, xs[1..]).Some? && EvalSeq(w, env, xs[1..]) == EvalSeq(w, env, ys[1..])
  {
  }

  /** Each item of an object literal with different keys is a field of its value. */
  lemma {:induction false} FieldOf(w: World, env: Env, items: seq<Item>, i: nat)
    requires i < |items| && EvalItems(w, env, items).Some? && KeysApartItems(w, env, items)
    ensures Eval(w, env, items[i].key).Some? && Eval(w, env, items[i].value).Some?
    ensures Eval(w, env, items[i].key).value in EvalItems(w, env, items).value
    ensures EvalItems(w, env, items).value[Eval(w, env, items[i].key).value] == Eval(w, env, items[i].value).value
  {
    KeyAbsent(w, env, items);
    if i > 0 {
      FieldOf(w, env, items[1..], i - 1);
      assert items[i] == items[1..][i - 1];
    }
  }

  lemma TransparentItemsAt(safe: set<Name>, items: seq<Item>, i: nat)
    requires i < |items| && TransparentItems(safe, items)
    ensures TransparentItem(safe, items[i])
  {
    if i > 0 { TransparentItemsAt(safe, items[1..], i - 1); }
  }

  /** `items` is a part of an object literal that equals `others` under both assignments. */
  ghost predicate FieldsMatch(w: World, env: Env, items: seq<Item>, others: seq<Item>) {
    && EvalItems(w, env, others).Some?
    && forall i | 0 <= i < |items| ::
      && Eval(w, env, items[i].key).Some? && Eval(w, env, items[i].value).Some?
      && Eval(w, env, items[i].key).value in EvalItems(w, env, others).value
      && EvalItems(w, env, others).value[Eval(w, env, items[i].key).value] == Eval(w, env, items[i].value).value
  }

  lemma FieldsOf(w: World, env: Env, items: seq<Item>, others: seq<Item>)
    requires EvalItems(w, env, items).Some? && EvalItems(w, env, items) == EvalItems(w, env, others) && KeysApartItems(w, env, items)
    ensures FieldsMatch(w, env, items, others)
  {
    forall i | 0 <= i < |items|
      ensures Eval(w, env, items[i].key).Some? && Eval(w, env, items[i].value).Some?
      ensures Eval(w, env, items[i].key).value in EvalItems(w, env, others).value
      ensures EvalItems(w, env, others).value[Eval(w, env, items[i].key).value] == Eval(w, env, items[i].value).value
    {
      FieldOf(w, env, items, i);
    }
  }

  lemma KeysApartAt(w: World, env: Env, items: seq<Item>, i: nat)
    requires i < |items| && KeysApartItems(w, env, items)
    ensures KeysApartItem(w, env, items[i])
  {
    if i > 0 { KeysApartAt(w, env, items[1..], i - 1); }
  }

  /** Both assignments keep the keys of both literals apart. */
  ghost predicate BothApart(w: World, e1: Env, e2: Env, items: seq<Item>, others: seq<Item>) {
    && KeysApartItems(w, e1, items) && KeysApartItems(w, e1, others)
    && KeysApartItems(w, e2, items) && KeysApartItems(w, e2, others)
  }

  lemma {:induction false} UnifyItemsSound(w: World, e1: Env, e2: Env, safe: set<Name>, items: seq<Item>, others: seq<Item>, st: State)
    requires Comparable(w, e1, e2, safe) && Consistent(e1, e2, st)
    requires TransparentItems(safe, items) && TransparentItems(safe, others) && BothApart(w, e1, e2, items, others)
    requires EvalItems(w, e1, items).Some? && EvalItems(w, e1, items) == EvalItems(w, e1, others)
    requires EvalItems(w, e2, items).Some? && EvalItems(w, e2, items) == EvalItems(w, e2, others)
    ensures Consistent(e1, e2, UnifyItems(safe, items, others, st))
    decreases items, 1
  {
    FieldsOf(w, e1, items, others);
    FieldsOf(w, e2, items, others);
    MatchedItemsSound(w, e1, e2, safe, items, others, st);
  }

  lemma {:induction false} MatchedItemsSound(w: World, e1: Env, e2: Env, safe: set<Name>, items: seq<Item>, others: seq<Item>, st: State)
    requires Comparable(w, e1, e2, safe) && Consistent(e1, e2, st)
    requires TransparentItems(safe, items) && TransparentItems(safe, others) && BothApart(w, e1, e2, items, others)
    requires FieldsMatch(w, e1, items, others) && FieldsMatch(w, e2, items, others)
    ensures Consistent(e1, e2, UnifyItems(safe, items, others, st))
    decreases items, 0
  {
    if items != [] {
      assert FieldsMatch(w, e1, items[..1], others) && FieldsMatch(w, e2, items[..1], others);
      MatchedItemSound(w, e1, e2, safe, items[0], others, st);
      assert FieldsMatch(w, e1, items[1..], others) && FieldsMatch(w, e2, items[1..], others);
      MatchedItemsSound(w, e1, e2, safe, items[1..], others, UnifyItem(safe, items[0], others, st));
    }
  }

  lemma MatchedItemSound(w: World, e1: Env, e2: Env, safe: set<Name>, item: Item, others: seq<Item>, st: State)
    requires Comparable(w, e1, e2, safe) && Consistent(e1, e2, st)
    requires TransparentItem(safe, item) && TransparentItems(safe, others)
    requires KeysApartItem(w, e1, item) && KeysApartItem(w, e2, item) && KeysApartItems(w, e1, others) && KeysApartItems(w, e2, others)
    requires FieldsMatch(w, e1, [item], others) && FieldsMatch(w, e2, [item], others)
    ensures Consistent(e1, e2, UnifyItem(safe, item, others, st))
    decreases item, 0
  {
    match Get(others, item.key)
    case None =>
    case Some(v) =>
      var i :| 0 <= i < |others| && others[i] == Item(item.key, v);
      TransparentItemsAt(safe, others, i);
      FieldOf(w, e1, others, i);
      FieldOf(w, e2, others, i);
      KeysApartAt(w, e1, others, i);
      KeysApartAt(w, e2, others, i);
      assert [item][0] == item;
      UnifyStepSound(w, e1, e2, safe, item.value, v, st);
  }

  /**
    Any two assignments that satisfy `a = b` and agree on the safe variables agree on every variable
    that unification reports, unless they give two keys of an object the same value.
   */
  lemma UnifyDetermines(w: World, e1: Env, e2: Env, safe: set<Name>, a: Term, b: Term)
    requires Lexical(w)
    requires Transparent(safe, a) && Transparent(safe, b)
    requires Satisfies(w, e1, a, b) && Satisfies(w, e2, a, b)
    requires KeysApart(w, e1, a) && KeysApart(w, e1, b)
    requires Agree(e1, e2, safe)
    ensures Agree(e1, e2, Unify(safe, a, b))
  {
    KeysStayApart(w, e1, e2, safe, a);
    KeysStayApart(w, e1, e2, safe, b);
    UnifyStepSound(w, e1, e2, safe, a, b, EMPTY);
  }

  // Whether keys coincide is settled by the safe variables, and never happens to different scalars.

  lemma {:induction false} KeysStayApart(w: World, e1: Env, e2: Env, safe: set<Name>, t: Term)
    requires Comparable(w, e1, e2, safe) && Transparent(safe, t) && KeysApart(w, e1, t)
    ensures KeysApart(w, e2, t)
    decreases t, 0
  {
    match t
    case Array(elems) => KeysStayApartSeq(w, e1, e2, safe, elems);
    case Object(items) => KeysStayApartItems(w, e1, e2, safe, items);
    case _ =>
  }

  lemma {:induction false} KeysStayApartSeq(w: World, e1: Env, e2: Env, safe: set<Name>, ts: seq<Term>)
    requires Comparable(w, e1, e2, safe) && TransparentSeq(safe, ts) && KeysApartSeq(w, e1, ts)
    ensures KeysApartSeq(w, e2, ts)
    decreases ts, 0
  {
    if ts != [] {
      KeysStayApart(w, e1, e2, safe, ts[0]);
      KeysStayApartSeq(w, e1, e2, safe, ts[1..]);
    }
  }

  lemma {:induction false} KeysStayApartItems(w: World, e1: Env, e2: Env, safe: set<Name>, items: seq<Item>)
    requires Comparable(w, e1, e2, safe) && TransparentItems(safe, items) && KeysApartItems(w, e1, items)
    ensures KeysApartItems(w, e2, items)
    decreases items, 0
  {
    if items != [] {
      KeysStayApartItem(w, e1, e2, safe, items[0]);
      KeysStayApartItems(w, e1, e2, safe, items[1..]);
      EvalLocal(w, e1, e2, items[0].key);
      forall item | item in items[1..] ensures Eval(w, e2, item.key) != Eval(w, e2, items[0].key) {
        var i :| 0 <= i < |items[1..]| && items[1..][i] == item;
        TransparentItemsAt(safe, items[1..], i);
        EvalLocal(w, e1, e2, item.key);
      }
    }
  }

  lemma {:induction false} KeysStayApartItem(w: World, e1: Env, e2: Env, safe: set<Name>, item: Item)
    requires Comparable(w, e1, e2, safe) && TransparentItem(safe, item) && KeysApartItem(w, e1, item)
    ensures KeysApartItem(w, e2, item)
    decreases item, 0
  {
    KeysStayApart(w, e1, e2, safe, item.value);
  }

  /** Every object in the term has one item, or scalar keys that are pairwise different. */
  predicate KeysDiffer(t: Term)
    decreases t, 0
  {
    match t
    case Array(elems) => KeysDifferSeq(elems)
    case Object(items) => KeysDifferItems(items)
    case _ => true
  }

  predicate KeysDifferSeq(ts: seq<Term>)
    decreases ts, 0
  {
    ts == [] || (KeysDiffer(ts[0]) && KeysDifferSeq(ts[1..]))
  }

  predicate KeysDifferItems(items: seq<Item>)
    decreases items, 0
  {
    items == [] ||
    (&& KeysDifferItem(items[0]) && KeysDifferItems(items[1..])
     && forall item | item in items[1..] :: item.key.Const? && items[0].key.Const? && item.key != items[0].key)
  }

  predicate KeysDifferItem(item: Item)
    decreases item, 0
  {
    KeysDiffer(item.value)
  }

  lemma {:induction false} DifferentKeysApart(w: World, env: Env, t: Term)
    requires KeysDiffer(t)
    ensures KeysApart(w, env, t)
    decreases t, 0
  {
    match t
    case Array(elems) => DifferentKeysApartSeq(w, env, elems);
    case Object(items) => DifferentKeysApartItems(w, env, items);
    case _ =>
  }

  lemma {:induction false} DifferentKeysApartSeq(w: World, env: Env, ts: seq<Term>)
    requires KeysDifferSeq(ts)
    ensures KeysApartSeq(w, env, ts)
    decreases ts, 0
  {
    if ts != [] {
      DifferentKeysApart(w, env, ts[0]);
      DifferentKeysApartSeq(w, env, ts[1..]);
    }
  }

  lemma {:induction false} DifferentKeysApartItems(w: World, env: Env, items: seq<Item>)
    requires KeysDifferItems(items)
    ensures KeysApartItems(w, env, items)
    decreases items, 0
  {
    if items != [] {
      DifferentKeysApartItem(w, env, items[0]);
      DifferentKeysApartItems(w, env, items[1..]);
    }
  }

  lemma {:induction false} DifferentKeysApartItem(w: World, env: Env, item: Item)
    requires KeysDifferItem(item)
    ensures KeysApartItem(w, env, item)
    decreases item, 0
  {
    DifferentKeysApart(w, env, item.value);
  }

  /** With such keys the equation determines what is reported under all assignments. */
  lemma UnifyDeterminesAlways(safe: set<Name>, a: Term, b: Term)
    requires Transparent(safe, a) && Transparent(safe, b) && KeysDiffer(a) && KeysDiffer(b)
    ensures Determined(safe, a, b)
  {
    forall w: World, e1: Env, e2: Env
      | Lexical(w) && Satisfies(w, e1, a, b) && Satisfies(w, e2, a, b) && Agree(e1, e2, safe)
      ensures Agree(e1, e2, Unify(safe, a, b))
    {
      DifferentKeysApart(w, e1, a);
      DifferentKeysApart(w, e1, b);
      UnifyDetermines(w, e1, e2, safe, a, b);
    }
  }

  // Sets are the exception: an equation between a variable and a set always reports the variable.

  ghost predicate Determined(safe: set<Name>, a: Term, b: Term) {
    forall w: World, e1: Env, e2: Env ::
      Lexical(w) && Satisfies(w, e1, a, b) && Satisfies(w, e2, a, b) && Agree(e1, e2, safe)
      ==> Agree(e1, e2, Unify(safe, a, b))
  }

  function VarTerms(ns: seq<Name>): seq<Term> {
    if ns == [] then [] else [Var(ns[0])] + VarTerms(ns[1..])
  }

  ghost function Image(env: Env, ns: seq<Name>): set<Value> {
    set n | n in ns :: env(n)
  }

  lemma {:induction false} EvalNames(w: World, env: Env, ns: seq<Name>)
    ensures EvalSeq(w, env, VarTerms(ns)).Some?
    ensures (set v | v in EvalSeq(w, env, VarTerms(ns)).value) == Image(env, ns)
  {
    if ns != [] {
      EvalNames(w, env, ns[1..]);
      assert VarTerms(ns)[1..] == VarTerms(ns[1..]);
      assert Image(env, ns) == {env(ns[0])} + Image(env, ns[1..]);
    }
  }

  lemma UnifySet(safe: set<Name>, x: Name, members: seq<Term>)
    ensures Unify(safe, Var(x), Set(members)) == {x}
  {
  }

  /** The assignment that extends `f` with the value the equation gives to `x`. */
  ghost function Solve(f: Env, x: Name, ns: seq<Name>): Env {
    n => if n == x then VSet(Image(f, ns)) else f(n)
  }

  lemma SolveSatisfies(w: World, f: Env, x: Name, ns: seq<Name>)
    requires x !in ns
    ensures Satisfies(w, Solve(f, x, ns), Var(x), Set(VarTerms(ns)))
  {
    EvalNames(w, Solve(f, x, ns), ns);
    assert Image(Solve(f, x, ns), ns) == Image(f, ns);
  }

  lemma NotOwnMember(env: Env, x: Name, ns: seq<Name>)
    requires env(x) == VSet(Image(env, ns))
    ensures x !in ns
  {
    forall n | n in ns ensures n != x {
      assert env(n) in Image(env, ns);
    }
  }

  lemma SetEquationUndetermined(safe: set<Name>, x: Name, ns: seq<Name>, y: Name)
    requires x !in safe && x !in ns && y in ns && y !in safe
    ensures !Determined(safe, Var(x), Set(VarTerms(ns)))
  {
    var w := NOWHERE;
    var f1: Env := _ => VScalar(Number(0));
    var f2: Env := n => if n == y then VScalar(Number(1)) else VScalar(Number(0));
    var e1, e2 := Solve(f1, x, ns), Solve(f2, x, ns);
    SolveSatisfies(w, f1, x, ns);
    SolveSatisfies(w, f2, x, ns);
    UnifySet(safe, x, VarTerms(ns));
    assert e1(x) != e2(x) by {
      assert f2(y) in Image(f2, ns);
      assert f2(y) !in Image(f1, ns);
    }
    assert Lexical(w) && Agree(e1, e2, safe);
    assert x in Unify(safe, Var(x), Set(VarTerms(ns)));
  }

  /** An equation `x = {y, ...}` over variables is reported correctly exactly when x or all the y are safe, or x is one of them. */
  lemma SetEquationExact(safe: set<Name>, x: Name, ns: seq<Name>)
    ensures Determined(safe, Var(x), Set(VarTerms(ns))) <==> x in safe || x in ns || forall n | n in ns :: n in safe
  {
    var b := Set(VarTerms(ns));
    if x in safe || x in ns || forall n | n in ns :: n in safe {
      forall w: World, e1: Env, e2: Env
        | Lexical(w) && Satisfies(w, e1, Var(x), b) && Satisfies(w, e2, Var(x), b) && Agree(e1, e2, safe)
        ensures Agree(e1, e2, Unify(safe, Var(x), b))
      {
        UnifySet(safe, x, VarTerms(ns));
        EvalNames(w, e1, ns);
        EvalNames(w, e2, ns);
        assert e1(x) == VSet(Image(e1, ns)) && e2(x) == VSet(Image(e2, ns));
        NotOwnMember(e1, x, ns);
        if x !in safe {
          assert Image(e1, ns) == Image(e2, ns);
        }
      }
    } else {
      var y :| y in ns && y !in safe;
      SetEquationUndetermined(safe, x, ns, y);
    }
  }

  // Sets and object keys below other terms are treated in the same way.

  const NOWHERE := World(_ => 0, (_, _) => None, _ => None, (_, _) => None)

  /** Two solutions that differ in a reported variable. */
  lemma Undetermined(safe: set<Name>, a: Term, b: Term, e1: Env, e2: Env, v: Name)
    requires Satisfies(NOWHERE, e1, a, b) && Satisfies(NOWHERE, e2, a, b) && Agree(e1, e2, safe)
    requires v in Unify(safe, a, b) && e1(v) != e2(v)
    ensures !Determined(safe, a, b)
  {
    assert Lexical(NOWHERE);
  }

  lemma OneElement(env: Env, t: Term)
    ensures Eval(NOWHERE, env, Array([t])) == match Eval(NOWHERE, env, t) case None => None case Some(v) => Some(VArray([v]))
  {
    assert [t][1..] == [];
    if Eval(NOWHERE, env, t).Some? {
      var v := Eval(NOWHERE, env, t).value;
      assert EvalSeq(NOWHERE, env, [t]) == Some([v] + []) && [v] + [] == [v];
    }
  }

  lemma NestedSetReported(safe: set<Name>, x: Name, y: Name, z: Name)
    requires x in safe
    ensures y in Unify(safe, Var(x), Array([Set([Var(y), Var(z)])]))
  {
    var members := [Var(y), Var(z)];
    var b := Array([Set(members)]);
    assert members[1..] == [Var(z)] && [Var(z)][1..] == [] && [Set(members)][1..] == [];
    assert SeqVars(UNIFIER_PARAMS, members) == {y} + SeqVars(UNIFIER_PARAMS, [Var(z)]);
    assert Vars(UNIFIER_PARAMS, b) == Vars(UNIFIER_PARAMS, Set(members)) + SeqVars(UNIFIER_PARAMS, []);
    CloseMeets(EMPTY, Vars(UNIFIER_PARAMS, b));
  }

  lemma PairSet(env: Env, y: Name, z: Name)
    ensures Eval(NOWHERE, env, Set([Var(y), Var(z)])) == Some(VSet({env(y), env(z)}))
  {
    var members := [Var(y), Var(z)];
    assert members[1..] == [Var(z)] && [Var(z)][1..] == [];
    assert EvalSeq(NOWHERE, env, [Var(z)]) == Some([env(z)] + []);
    assert EvalSeq(NOWHERE, env, members) == Some([env(y)] + ([env(z)] + []));
    assert (set v | v in [env(y)] + ([env(z)] + [])) == {env(y), env(z)};
  }

  /** `x = [{y, z}]` with x safe reports y and z, although their values may be exchanged. */
  lemma NestedSetUndetermined(safe: set<Name>, x: Name, y: Name, z: Name)
    requires x in safe && y !in safe && z !in safe && y != z
    ensures !Determined(safe, Var(x), Array([Set([Var(y), Var(z)])]))
  {
    var inner := Set([Var(y), Var(z)]);
    var zero, one := VScalar(Number(0)), VScalar(Number(1));
    var v := VArray([VSet({zero, one})]);
    var e1: Env := n => if n == y then zero else if n == z then one else v;
    var e2: Env := n => if n == y then one else if n == z then zero else v;
    PairSet(e1, y, z);
    PairSet(e2, y, z);
    OneElement(e1, inner);
    OneElement(e2, inner);
    NestedSetReported(safe, x, y, z);
    assert {one, zero} == {zero, one};
    Undetermined(safe, Var(x), Array([inner]), e1, e2, y);
  }

  lemma OneField(env: Env, y: Name, s: Scalar)
    ensures Eval(NOWHERE, env, Object([Item(Var(y), Const(s))])) == Some(VObject(map[env(y) := VScalar(s)]))
  {
    var items := [Item(Var(y), Const(s))];
    assert items[1..] == [];
    assert EvalItems(NOWHERE, env, items[1..]) == Some(map[]);
    assert EvalItem(NOWHERE, env, items[0]) == Some((env(y), VScalar(s)));
  }

  lemma KeyedObjectReported(safe: set<Name>, x: Name, y: Name, s: Scalar)
    requires x !in safe
    ensures x in Unify(safe, Var(x), Object([Item(Var(y), Const(s))]))
  {
    var items := [Item(Var(y), Const(s))];
    assert items[1..] == [];
    var none: set<Name> := {};
    assert ItemVars(UNIFIER_PARAMS, items[0]) == none + Vars(UNIFIER_PARAMS, Const(s));
    assert ItemsVars(UNIFIER_PARAMS, items) == ItemVars(UNIFIER_PARAMS, items[0]) + ItemsVars(UNIFIER_PARAMS, []);
    assert Vars(UNIFIER_PARAMS, Object(items)) == none;
    assert Pending(safe, EMPTY, Object(items)) == {};
    CloseMeets(EMPTY, {x});
  }

  /** `x = {y: s}` reports x, although its value changes with the unsafe key. */
  lemma KeyedObjectUndetermined(safe: set<Name>, x: Name, y: Name, s: Scalar)
    requires x !in safe && y !in safe && x != y
    ensures !Determined(safe, Var(x), Object([Item(Var(y), Const(s))]))
  {
    var b := Object([Item(Var(y), Const(s))]);
    var zero, one := VScalar(Number(0)), VScalar(Number(1));
    var e1: Env := n => if n == x then VObject(map[zero := VScalar(s)]) else zero;
    var e2: Env := n => if n == x then VObject(map[one := VScalar(s)]) else if n == y then one else zero;
    OneField(e1, y, s);
    OneField(e2, y, s);
    KeyedObjectReported(safe, x, y, s);
    assert zero in e1(x).fields && zero !in e2(x).fields;
    Undetermined(safe, Var(x), b, e1, e2, x);
  }

  lemma TwoFields(env: Env, x: Name, y: Name, a: Name, b: Name)
    requires env(x) == env(y)
    ensures Eval(NOWHERE, env, Object([Item(Var(x), Var(a)), Item(Var(y), Var(b))])) == Some(VObject(map[env(y) := env(b)]))
  {
    var items := [Item(Var(x), Var(a)), Item(Var(y), Var(b))];
    var last := items[1..];
    assert last == [Item(Var(y), Var(b))] && last[1..] == [];
    assert EvalItem(NOWHERE, env, last[0]) == Some((env(y), env(b)));
    assert EvalItems(NOWHERE, env, last) == Some(map[env(y) := env(b)]);
    assert EvalItem(NOWHERE, env, items[0]) == Some((env(x), env(a)));
  }

  lemma TwoFieldsReported(safe: set<Name>, x: Name, y: Name, z: Name, a: Name, b: Name)
    requires z in safe
    ensures a in Unify(safe, Var(z), Object([Item(Var(x), Var(a)), Item(Var(y), Var(b))]))
  {
    var items := [Item(Var(x), Var(a)), Item(Var(y), Var(b))];
    assert ItemVars(UNIFIER_PARAMS, items[0]) == {} + {a};
    assert ItemsVars(UNIFIER_PARAMS, items) == ItemVars(UNIFIER_PARAMS, items[0]) + ItemsVars(UNIFIER_PARAMS, items[1..]);
    CloseMeets(EMPTY, Vars(UNIFIER_PARAMS, Object(items)));
  }

  lemma TwoFieldsTransparent(safe: set<Name>, x: Name, y: Name, a: Name, b: Name)
    requires x in safe && y in safe
    ensures Transparent(safe, Object([Item(Var(x), Var(a)), Item(Var(y), Var(b))]))
  {
    var items := [Item(Var(x), Var(a)), Item(Var(y), Var(b))];
    assert items[1..][1..] == [];
    assert TransparentItem(safe, items[1..][0]) && TransparentItems(safe, items[1..][1..]);
    assert TransparentItem(safe, items[0]) && TransparentItems(safe, items[1..]);
  }

  /** `z = {x: a, y: b}` with x, y and z safe reports a, which is lost where x and y are equal. */
  lemma CoincidingKeysUndetermined(safe: set<Name>, x: Name, y: Name, z: Name, a: Name, b: Name)
    requires {x, y, z} <= safe && a !in safe && b !in safe && a != b && z != x && z != y
    ensures var t := Object([Item(Var(x), Var(a)), Item(Var(y), Var(b))]);
            Transparent(safe, Var(z)) && Transparent(safe, t) && !Determined(safe, Var(z), t)
  {
    var t := Object([Item(Var(x), Var(a)), Item(Var(y), Var(b))]);
    var zero, one := VScalar(Number(0)), VScalar(Number(1));
    var e1: Env := n => if n == z then VObject(map[zero := zero]) else zero;
    var e2: Env := n => if n == a then one else e1(n);
    TwoFields(e1, x, y, a, b);
    TwoFields(e2, x, y, a, b);
    TwoFieldsReported(safe, x, y, z, a, b);
    Undetermined(safe, Var(z), t, e1, e2, a);
    TwoFieldsTransparent(safe, x, y, a, b);
  }
}
