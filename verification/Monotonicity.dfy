/** With more variables safe beforehand, unification makes no fewer variables known. */
module Monotonicity {
  import opened Syntax
  import opened UnifierSpec

  function Known(safe: set<Name>, st: State): set<Name> {
    safe + st.unified
  }

  /**
    The second run is ahead of the first: it knows at least as much, and each variable pending in the
    first is settled in the second or pending there for no more than what the first waits for.
   */
  ghost predicate Ahead(safe: set<Name>, st: State, safe': set<Name>, st': State) {
    var known' := Known(safe', st');
    && safe <= safe' && Separate(safe, st) && Separate(safe', st')
    && Known(safe, st) <= known'
    && (forall a | a in st'.unknown :: a in st.unknown && st'.unknown[a] <= st.unknown[a])
    && (forall a | a in st.unknown && a !in st'.unknown :: a in known' && st.unknown[a] <= known')
    && (forall a | a in st.unknown && a in st'.unknown :: st.unknown[a] <= st'.unknown[a] + known')
  }

  lemma BehindClosure(safe: set<Name>, st: State, xs: set<Name>, safe': set<Name>, st': State, xs': set<Name>)
    requires Ahead(safe, st, safe', st') && xs <= xs' + Known(safe', st')
    ensures Close(st, xs).unified <= Known(safe', Close(st', xs'))
  {
    var st1' := Close(st', xs');
    CloseMeets(st, xs);
    CloseMeets(st', xs');
    var d := Known(safe', st1');
    forall a | a in st.unknown
      ensures (a in d ==> st.unknown[a] <= d) && (st.unknown[a] <= d ==> a in d)
    {
      if a in st'.unknown {
        assert a in d <==> a in st1'.unified;
        assert st'.unknown[a] <= d <==> st'.unknown[a] <= st1'.unified;
        assert st.unknown[a] <= d <==> st'.unknown[a] <= d;
      }
    }
    assert Closed(d, st.unknown);
    assert st.unified + xs <= d;
  }

  lemma CloseAhead(safe: set<Name>, st: State, xs: set<Name>, safe': set<Name>, st': State, xs': set<Name>)
    requires Ahead(safe, st, safe', st') && xs <= xs' + Known(safe', st')
    ensures Ahead(safe, Close(st, xs), safe', Close(st', xs'))
  {
    BehindClosure(safe, st, xs, safe', st', xs');
    CloseSeparate(safe, st, xs);
    CloseSeparate(safe', st', xs');
    CloseMeets(st, xs);
    CloseMeets(st', xs');
  }

  /** The second run marks something where the first does nothing. */
  lemma CloseSecondAhead(safe: set<Name>, st: State, safe': set<Name>, st': State, xs': set<Name>)
    requires Ahead(safe, st, safe', st')
    ensures Ahead(safe, st, safe', Close(st', xs'))
  {
    CloseNothing(st, {});
    CloseAhead(safe, st, {}, safe', st', xs');
  }

  lemma AwaitAhead(safe: set<Name>, st: State, safe': set<Name>, st': State, a: Name, vs: set<Name>, vs': set<Name>)
    requires Ahead(safe, st, safe', st') && a !in Known(safe', st')
    requires vs != {} && vs !! Known(safe, st) && vs' != {} && vs' !! Known(safe', st')
    requires vs' <= vs <= vs' + Known(safe', st')
    ensures Ahead(safe, Await(st, a, vs), safe', Await(st', a, vs'))
  {
    AwaitSeparate(safe, st, a, vs);
    AwaitSeparate(safe', st', a, vs');
    var s, s', known' := Await(st, a, vs), Await(st', a, vs'), Known(safe', st');
    assert Known(safe', s') == known' && Known(safe, s) == Known(safe, st);
    assert a in st.unknown ==> a in st'.unknown;
    assert s'.unknown[a] <= s.unknown[a] <= s'.unknown[a] + known';
    forall c | c in s'.unknown ensures c in s.unknown && s'.unknown[c] <= s.unknown[c] {
      if c != a { assert c in st'.unknown; }
    }
    forall c | c in s.unknown && c in s'.unknown ensures s.unknown[c] <= s'.unknown[c] + known' {
      if c != a { assert c in st.unknown && c in st'.unknown; }
    }
  }

  /** The first run starts waiting where everything concerned is already known in the second. */
  lemma AwaitFirstAhead(safe: set<Name>, st: State, safe': set<Name>, st': State, a: Name, vs: set<Name>)
    requires Ahead(safe, st, safe', st') && a !in Known(safe, st)
    requires vs != {} && vs !! Known(safe, st)
    requires a in Known(safe', st') && vs <= Known(safe', st')
    ensures Ahead(safe, Await(st, a, vs), safe', st')
  {
  }

  lemma UnifyAllAhead(safe: set<Name>, st: State, safe': set<Name>, st': State, a: Name, b: Term)
    requires Ahead(safe, st, safe', st')
    ensures Ahead(safe, UnifyAll(safe, a, b, st), safe', UnifyAll(safe', a, b, st'))
  {
    var vars := Vars(UNIFIER_PARAMS, b);
    var xs' := if IsSafe(safe', st', a) then vars else {a};
    CloseMeets(st', xs');
    if IsSafe(safe, st, a) {
      CloseAhead(safe, st, vars, safe', st', vars);
    } else if Pending(safe, st, b) == {} {
      assert Pending(safe', st', b) == {};
      CloseAhead(safe, st, {a}, safe', st', xs');
    } else if IsSafe(safe', st', a) || Pending(safe', st', b) == {} {
      CloseSecondAhead(safe, st, safe', st', xs');
      AwaitFirstAhead(safe, st, safe', Close(st', xs'), a, Pending(safe, st, b));
    } else {
      AwaitAhead(safe, st, safe', st', a, Pending(safe, st, b), Pending(safe', st', b));
    }
  }

  lemma UnifyVarsAhead(safe: set<Name>, st: State, safe': set<Name>, st': State, x: Name, y: Name)
    requires Ahead(safe, st, safe', st')
    ensures Ahead(safe, UnifyTerms(safe, Var(x), Var(y), st), safe', UnifyTerms(safe', Var(x), Var(y), st'))
  {
    var xs' := if IsSafe(safe', st', y) then {x} else {y};
    CloseMeets(st', xs');
    if IsSafe(safe, st, y) {
      CloseAhead(safe, st, {x}, safe', st', {x});
    } else if IsSafe(safe, st, x) {
      CloseAhead(safe, st, {y}, safe', st', xs');
    } else if IsSafe(safe', st', x) || IsSafe(safe', st', y) {
      CloseSecondAhead(safe, st, safe', st', xs');
      AwaitFirstAhead(safe, st, safe', Close(st', xs'), x, {y});
      AwaitFirstAhead(safe, Await(st, x, {y}), safe', Close(st', xs'), y, {x});
    } else {
      AwaitAhead(safe, st, safe', st', x, {y}, {y});
      AwaitAhead(safe, Await(st, x, {y}), safe', Await(st', x, {y}), y, {x}, {x});
    }
  }

  lemma MarkOperandAhead(safe: set<Name>, st: State, safe': set<Name>, st': State, b: Term, first: bool, second: bool)
    requires Ahead(safe, st, safe', st') && (first ==> second)
    ensures Ahead(safe, if first then MarkOperand(b, st) else st, safe', if second then MarkOperand(b, st') else st')
  {
    if first {
      CloseAhead(safe, st, Vars(UNIFIER_PARAMS, b), safe', st', Vars(UNIFIER_PARAMS, b));
    } else {
      CloseSecondAhead(safe, st, safe', st', Vars(UNIFIER_PARAMS, b));
    }
  }

  lemma {:induction false} UnifyTermsAhead(safe: set<Name>, st: State, safe': set<Name>, st': State, a: Term, b: Term)
    requires Ahead(safe, st, safe', st')
    ensures Ahead(safe, UnifyTerms(safe, a, b, st), safe', UnifyTerms(safe', a, b, st'))
    decreases a, 0
  {
    if a.Var? && b.Var? {
      UnifyVarsAhead(safe, st, safe', st', a.name, b.name);
    } else if a.Var? && (b.Array? || b.Object?) {
      UnifyAllAhead(safe, st, safe', st', a.name, b);
    } else if b.Var? && (a.Array? || a.Object?) {
      UnifyAllAhead(safe, st, safe', st', b.name, a);
    } else if a.Array? && b.Array? {
      if |a.elems| == |b.elems| { UnifyElemsAhead(safe, st, safe', st', a.elems, b.elems); }
    } else if a.Object? && b.Object? {
      if |a.items| == |b.items| { UnifyItemsAhead(safe, st, safe', st', a.items, b.items); }
    } else if a.Var? || a.Array? || a.Object? {
      var first := b.Const? || b.Set? || b.Comprehension? || (b.Ref? && RefSafe(b.parts, safe)) || (b.Call? && CallSafe(b, safe));
      var second := b.Const? || b.Set? || b.Comprehension? || (b.Ref? && RefSafe(b.parts, safe')) || (b.Call? && CallSafe(b, safe'));
      MarkOperandAhead(safe, st, safe', st', a, first, second);
    } else {
      var first := (a.Ref? ==> RefSafe(a.parts, safe)) && (a.Call? ==> CallSafe(a, safe));
      var second := (a.Ref? ==> RefSafe(a.parts, safe')) && (a.Call? ==> CallSafe(a, safe'));
      MarkOperandAhead(safe, st, safe', st', b, first, second);
    }
  }

  lemma {:induction false} UnifyElemsAhead(safe: set<Name>, st: State, safe': set<Name>, st': State, xs: seq<Term>, ys: seq<Term>)
    requires Ahead(safe, st, safe', st') && |xs| == |ys|
    ensures Ahead(safe, UnifyElems(safe, xs, ys, st), safe', UnifyElems(safe', xs, ys, st'))
    decreases xs, 0
  {
    if xs != [] {
      UnifyTermsAhead(safe, st, safe', st', xs[0], ys[0]);
      UnifyElemsAhead(safe, UnifyTerms(safe, xs[0], ys[0], st), safe', UnifyTerms(safe', xs[0], ys[0], st'), xs[1..], ys[1..]);
    }
  }

  lemma {:induction false} UnifyItemsAhead(safe: set<Name>, st: State, safe': set<Name>, st': State, items: seq<Item>, others: seq<Item>)
    requires Ahead(safe, st, safe', st')
    ensures Ahead(safe, UnifyItems(safe, items, others, st), safe', UnifyItems(safe', items, others, st'))
    decreases items, 0
  {
    if items != [] {
      UnifyItemAhead(safe, st, safe', st', items[0], others);
      UnifyItemsAhead(safe, UnifyItem(safe, items[0], others, st), safe', UnifyItem(safe', items[0], others, st'), items[1..], others);
    }
  }

  lemma UnifyItemAhead(safe: set<Name>, st: State, safe': set<Name>, st': State, item: Item, others: seq<Item>)
    requires Ahead(safe, st, safe', st')
    ensures Ahead(safe, UnifyItem(safe, item, others, st), safe', UnifyItem(safe', item, others, st'))
    decreases item, 0
  {
    if Get(others, item.key).Some? {
      UnifyTermsAhead(safe, st, safe', st', item.value, Get(others, item.key).value);
    }
  }

  lemma UnifyMonotone(safe: set<Name>, safe': set<Name>, a: Term, b: Term)
    requires safe <= safe'
    ensures safe + Unify(safe, a, b) <= safe' + Unify(safe', a, b)
  {
    UnifyTermsAhead(safe, EMPTY, safe', EMPTY, a, b);
  }
}
