/** Unifying a pattern with something known binds every variable of the pattern. */
module UnifierBinds {
  import opened Syntax
  import opened UnifierSpec

  // Unification never forgets.

  lemma {:induction false} UnifyGrows(safe: set<Name>, a: Term, b: Term, st: State)
    ensures st.unified <= UnifyTerms(safe, a, b, st).unified
    decreases a, 0
  {
    CloseSaturates(st, Vars(UNIFIER_PARAMS, a));
    CloseSaturates(st, Vars(UNIFIER_PARAMS, b));
    if a.Var? { CloseSaturates(st, {a.name}); }
    if b.Var? { CloseSaturates(st, {b.name}); }
    if a.Array? && b.Array? && |a.elems| == |b.elems| {
      ElemsGrow(safe, a.elems, b.elems, st);
    } else if a.Object? && b.Object? && |a.items| == |b.items| {
      ItemsGrow(safe, a.items, b.items, st);
    }
  }

  lemma {:induction false} ElemsGrow(safe: set<Name>, xs: seq<Term>, ys: seq<Term>, st: State)
    requires |xs| == |ys|
    ensures st.unified <= UnifyElems(safe, xs, ys, st).unified
    decreases xs, 0
  {
    if xs != [] {
      UnifyGrows(safe, xs[0], ys[0], st);
      ElemsGrow(safe, xs[1..], ys[1..], UnifyTerms(safe, xs[0], ys[0], st));
    }
  }

  lemma {:induction false} ItemsGrow(safe: set<Name>, items: seq<Item>, others: seq<Item>, st: State)
    ensures st.unified <= UnifyItems(safe, items, others, st).unified
    decreases items, 0
  {
    if items != [] {
      ItemGrows(safe, items[0], others, st);
      ItemsGrow(safe, items[1..], others, UnifyItem(safe, items[0], others, st));
    }
  }

  lemma {:induction false} ItemGrows(safe: set<Name>, item: Item, others: seq<Item>, st: State)
    ensures st.unified <= UnifyItem(safe, item, others, st).unified
    decreases item, 0
  {
    if Get(others, item.key).Some? { UnifyGrows(safe, item.value, Get(others, item.key).value, st); }
  }

  // Patterns that fit what is known.

  /** The value of the term is known: a safe variable, reference or call, or a literal of safe variables. */
  predicate Known(safe: set<Name>, t: Term) {
    match t
    case Var(x) => x in safe
    case Ref(parts) => RefSafe(parts, safe)
    case Call(_, _) => CallSafe(t, safe)
    case Array(_) => Vars(UNIFIER_PARAMS, t) <= safe
    case Object(_) => Vars(UNIFIER_PARAMS, t) <= safe
    case Comprehension(_, _, _) => false
    case _ => true
  }

  /** The pattern has the shape of the known term, down to its variables. */
  predicate Fits(safe: set<Name>, a: Term, b: Term)
    decreases a, 0
  {
    match a
    case Var(_) => Known(safe, b)
    case Array(elems) =>
      if b.Array? then |elems| == |b.elems| && ElemsFit(safe, elems, b.elems) else (b.Var? || b.Ref? || b.Call?) && Known(safe, b)
    case Object(items) =>
      if b.Object? then |items| == |b.items| && ItemsFit(safe, items, b.items) else (b.Var? || b.Ref? || b.Call?) && Known(safe, b)
    case _ => Vars(UNIFIER_PARAMS, a) <= safe
  }

  predicate ElemsFit(safe: set<Name>, xs: seq<Term>, ys: seq<Term>)
    requires |xs| == |ys|
    decreases xs, 0
  {
    xs == [] || (Fits(safe, xs[0], ys[0]) && ElemsFit(safe, xs[1..], ys[1..]))
  }

  predicate ItemsFit(safe: set<Name>, items: seq<Item>, others: seq<Item>)
    decreases items, 0
  {
    items == [] || (ItemFits(safe, items[0], others) && ItemsFit(safe, items[1..], others))
  }

  predicate ItemFits(safe: set<Name>, item: Item, others: seq<Item>)
    decreases item, 0
  {
    && Vars(UNIFIER_PARAMS, item.key) <= safe
    && Get(others, item.key).Some?
    && Fits(safe, item.value, Get(others, item.key).value)
  }

  lemma {:induction false} KnownBinds(safe: set<Name>, a: Term, b: Term, st: State)
    requires a.Var? || ((a.Array? || a.Object?) && (b.Var? || b.Ref? || b.Call?))
    requires Known(safe, b)
    ensures Vars(UNIFIER_PARAMS, a) <= safe + UnifyTerms(safe, a, b, st).unified
  {
    CloseSaturates(st, Vars(UNIFIER_PARAMS, a));
    if a.Var? { CloseSaturates(st, {a.name}); }
    if b.Var? { CloseSaturates(st, {b.name}); }
    if a.Var? && (b.Array? || b.Object?) { CloseSaturates(st, Vars(UNIFIER_PARAMS, b)); }
  }

  /** Every variable of a pattern that fits is safe or bound. */
  lemma {:induction false} FittingBinds(safe: set<Name>, a: Term, b: Term, st: State)
    requires Fits(safe, a, b)
    ensures Vars(UNIFIER_PARAMS, a) <= safe + UnifyTerms(safe, a, b, st).unified
    decreases a, 0
  {
    match a
    case Var(_) => KnownBinds(safe, a, b, st);
    case Array(elems) =>
      if b.Array? { ElemsBind(safe, elems, b.elems, st); } else { KnownBinds(safe, a, b, st); }
    case Object(items) =>
      if b.Object? { ItemsBind(safe, items, b.items, st); } else { KnownBinds(safe, a, b, st); }
    case _ =>
  }

  lemma {:induction false} ElemsBind(safe: set<Name>, xs: seq<Term>, ys: seq<Term>, st: State)
    requires |xs| == |ys| && ElemsFit(safe, xs, ys)
    ensures SeqVars(UNIFIER_PARAMS, xs) <= safe + UnifyElems(safe, xs, ys, st).unified
    decreases xs, 0
  {
    if xs != [] {
      var st1 := UnifyTerms(safe, xs[0], ys[0], st);
      FittingBinds(safe, xs[0], ys[0], st);
      ElemsBind(safe, xs[1..], ys[1..], st1);
      ElemsGrow(safe, xs[1..], ys[1..], st1);
    }
  }

  lemma {:induction false} ItemsBind(safe: set<Name>, items: seq<Item>, others: seq<Item>, st: State)
    requires ItemsFit(safe, items, others)
    ensures ItemsVars(UNIFIER_PARAMS, items) <= safe + UnifyItems(safe, items, others, st).unified
    decreases items, 0
  {
    if items != [] {
      var st1 := UnifyItem(safe, items[0], others, st);
      ItemBinds(safe, items[0], others, st);
      ItemsBind(safe, items[1..], others, st1);
      ItemsGrow(safe, items[1..], others, st1);
    }
  }

  lemma {:induction false} ItemBinds(safe: set<Name>, item: Item, others: seq<Item>, st: State)
    requires ItemFits(safe, item, others)
    ensures ItemVars(UNIFIER_PARAMS, item) <= safe + UnifyItem(safe, item, others, st).unified
    decreases item, 0
  {
    FittingBinds(safe, item.value, Get(others, item.key).value, st);
  }

  /** The unifier is complete for patterns: matching one against a known term binds all its variables. */
  lemma {:induction false} PatternBinds(safe: set<Name>, a: Term, b: Term)
    requires Fits(safe, a, b)
    ensures Vars(UNIFIER_PARAMS, a) <= safe + Unify(safe, a, b)
  {
    FittingBinds(safe, a, b, EMPTY);
  }
}
