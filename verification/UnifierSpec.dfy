/**
  What equality safety propagation computes, independently of the order in which the unifier walks its
  maps: marking variables safe takes the least set closed under the pending dependencies.
 */
module UnifierSpec {
  import opened Syntax

  /** Variables already unified, and for each pending variable the variables it is equated with. */
  datatype State = State(unified: set<Name>, unknown: map<Name, set<Name>>)

  const EMPTY := State({}, map[])

  const UNIFIER_PARAMS := VisitorParams(true, false, true, true, false)

  /** A pending variable and the set it waits for are known together. */
  ghost predicate Closed(d: set<Name>, unknown: map<Name, set<Name>>) {
    forall a | a in unknown :: (a in d ==> unknown[a] <= d) && (unknown[a] <= d ==> a in d)
  }

  ghost function Universe(known: set<Name>, unknown: map<Name, set<Name>>): set<Name> {
    known + unknown.Keys + set a, v | a in unknown && v in unknown[a] :: v
  }

  ghost function Least(known: set<Name>, unknown: map<Name, set<Name>>): set<Name> {
    set v | v in Universe(known, unknown) && forall d {:trigger Closed(d, unknown)} :: Closed(d, unknown) && known <= d ==> v in d
  }

  ghost function Close(st: State, xs: set<Name>): State {
    Advance(st, Least(st.unified + xs, st.unknown))
  }

  /** The state once exactly the variables in `c` are unified. */
  function Advance(st: State, c: set<Name>): State {
    State(c, map a | a in st.unknown && a !in c :: st.unknown[a] - c)
  }

  /** No pending variable, and nothing it waits for, is unified; nobody waits for nothing. */
  ghost predicate Saturated(st: State) {
    forall a | a in st.unknown :: a !in st.unified && st.unknown[a] != {} && st.unknown[a] !! st.unified
  }

  predicate IsSafe(safe: set<Name>, st: State, x: Name) {
    x in safe || x in st.unified
  }

  predicate RefSafe(parts: seq<Term>, safe: set<Name>) {
    parts != [] &&
    match parts[0]
    case Var(x) => x in safe
    case Call(_, _) => CallSafe(parts[0], safe)
    case _ => Vars(EVERYTHING, parts[0]) <= safe
  }

  predicate CallSafe(call: Term, safe: set<Name>) {
    Vars(SAFETY_CHECK, call) <= safe
  }

  function Await(st: State, a: Name, vs: set<Name>): State {
    State(st.unified, st.unknown[a := (if a in st.unknown then st.unknown[a] else {}) + vs])
  }

  function Pending(safe: set<Name>, st: State, b: Term): set<Name> {
    Vars(UNIFIER_PARAMS, b) - safe - st.unified
  }

  ghost function UnifyAll(safe: set<Name>, a: Name, b: Term, st: State): State {
    if IsSafe(safe, st, a) then Close(st, Vars(UNIFIER_PARAMS, b))
    else if Pending(safe, st, b) == {} then Close(st, {a})
    else Await(st, a, Pending(safe, st, b))
  }

  function Get(items: seq<Item>, key: Term): (r: Option<Term>)
    ensures r.Some? ==> exists i :: 0 <= i < |items| && items[i] == Item(key, r.value)
  {
    if items == [] then None
    else if items[0].key == key then (assert items[0] == Item(key, items[0].value); Some(items[0].value))
    else
      var r := Get(items[1..], key);
      assert r.Some? ==> exists i :: 0 <= i < |items| && items[i] == Item(key, r.value) by {
        if r.Some? {
          var i :| 0 <= i < |items[1..]| && items[1..][i] == Item(key, r.value);
          assert items[i + 1] == Item(key, r.value);
        }
      }
      r
  }

  ghost function UnifyTerms(safe: set<Name>, a: Term, b: Term, st: State): State
    decreases a, 0
  {
    match a
    case Var(x) =>
      (match b
       case Var(y) =>
         if IsSafe(safe, st, y) then Close(st, {x})
         else if IsSafe(safe, st, x) then Close(st, {y})
         else Await(Await(st, x, {y}), y, {x})
       case Array(_) => UnifyAll(safe, x, b, st)
       case Object(_) => UnifyAll(safe, x, b, st)
       case Ref(parts) => if RefSafe(parts, safe) then Close(st, {x}) else st
       case Call(_, _) => if CallSafe(b, safe) then Close(st, {x}) else st
       case _ => Close(st, {x}))
    case Ref(parts) => if RefSafe(parts, safe) then MarkOperand(b, st) else st
    case Call(_, _) => if CallSafe(a, safe) then MarkOperand(b, st) else st
    case Comprehension(kind, _, _) =>
      if b.Var? || (kind.ArrayKind? && b.Array?) || (kind.ObjectKind? && b.Object?) then MarkOperand(b, st) else st
    case Array(elems) =>
      (match b
       case Var(y) => UnifyAll(safe, y, a, st)
       case Comprehension(_, _, _) => MarkOperand(a, st)
       case Ref(parts) => if RefSafe(parts, safe) then MarkOperand(a, st) else st
       case Call(_, _) => if CallSafe(b, safe) then MarkOperand(a, st) else st
       case Array(others) => if |elems| == |others| then UnifyElems(safe, elems, others, st) else st
       case _ => st)
    case Object(items) =>
      (match b
       case Var(y) => UnifyAll(safe, y, a, st)
       case Ref(parts) => if RefSafe(parts, safe) then MarkOperand(a, st) else st
       case Call(_, _) => if CallSafe(b, safe) then MarkOperand(a, st) else st
       case Object(others) => if |items| == |others| then UnifyItems(safe, items, others, st) else st
       case _ => st)
    case _ => if b.Var? then Close(st, {b.name}) else st
  }

  /** The operand facing a known value: its variables become known if it is a variable, array or object. */
  ghost function MarkOperand(b: Term, st: State): State {
    if b.Var? || b.Array? || b.Object? then Close(st, Vars(UNIFIER_PARAMS, b)) else st
  }

  ghost function UnifyElems(safe: set<Name>, xs: seq<Term>, ys: seq<Term>, st: State): State
    requires |xs| == |ys|
    decreases xs, 0
  {
    if xs == [] then st else UnifyElems(safe, xs[1..], ys[1..], UnifyTerms(safe, xs[0], ys[0], st))
  }

  ghost function UnifyItems(safe: set<Name>, items: seq<Item>, others: seq<Item>, st: State): State
    decreases items, 0
  {
    if items == [] then st
    else UnifyItems(safe, items[1..], others, UnifyItem(safe, items[0], others, st))
  }

  ghost function UnifyItem(safe: set<Name>, item: Item, others: seq<Item>, st: State): State
    decreases item, 0
  {
    match Get(others, item.key)
    case None => st
    case Some(v) => UnifyTerms(safe, item.value, v, st)
  }

  /** The variables unified when `a = b` is evaluated with `safe` already known. */
  ghost function Unify(safe: set<Name>, a: Term, b: Term): set<Name> {
    UnifyTerms(safe, a, b, EMPTY).unified
  }

  // The closure exists, and is the least.

  lemma LeastIsClosed(known: set<Name>, unknown: map<Name, set<Name>>)
    ensures Closed(Least(known, unknown), unknown) && known <= Least(known, unknown)
  {
    var c := Least(known, unknown);
    forall a | a in unknown
      ensures (a in c ==> unknown[a] <= c) && (unknown[a] <= c ==> a in c)
    {
      if a in c {
        forall v | v in unknown[a] ensures v in c {
          assert v in Universe(known, unknown);
        }
      }
      if unknown[a] <= c {
        forall d | Closed(d, unknown) && known <= d ensures a in d {
          assert unknown[a] <= d;
        }
      }
    }
  }

  lemma LeastIsUnique(known: set<Name>, unknown: map<Name, set<Name>>, c: set<Name>)
    requires known <= c && Closed(c, unknown)
    requires forall d {:trigger Closed(d, unknown)} :: Closed(d, unknown) && known <= d ==> c <= d
    ensures c == Least(known, unknown)
  {
    LeastIsClosed(known, unknown);
    assert c <= Least(known, unknown);
  }

  /** What marking `xs` leads to, described without naming the closure. */
  ghost predicate IsClose(st: State, xs: set<Name>, st': State) {
    && st.unified + xs <= st'.unified
    && Closed(st'.unified, st.unknown)
    && (forall d {:trigger Closed(d, st.unknown)} | Closed(d, st.unknown) && st.unified + xs <= d :: st'.unified <= d)
    && st'.unknown.Keys == st.unknown.Keys - st'.unified
    && (forall a | a in st'.unknown :: st'.unknown[a] == st.unknown[a] - st'.unified)
  }

  lemma CloseMeets(st: State, xs: set<Name>)
    ensures IsClose(st, xs, Close(st, xs))
  {
    LeastIsClosed(st.unified + xs, st.unknown);
  }

  lemma CloseIs(st: State, xs: set<Name>, st': State)
    requires IsClose(st, xs, st')
    ensures Close(st, xs) == st'
  {
    assert Advance(st, st'.unified).unknown == st'.unknown;
    LeastIsUnique(st.unified + xs, st.unknown, st'.unified);
  }

  lemma IsCloseSaturated(st: State, xs: set<Name>, st': State)
    requires IsClose(st, xs, st')
    ensures Saturated(st')
  {
    forall a | a in st'.unknown ensures st'.unknown[a] != {} {
      var v :| v in st.unknown[a] && v !in st'.unified;
      assert v in st'.unknown[a];
    }
  }

  lemma CloseSaturates(st: State, xs: set<Name>)
    ensures Saturated(Close(st, xs))
    ensures st.unified + xs <= Close(st, xs).unified
  {
    CloseMeets(st, xs);
    IsCloseSaturated(st, xs, Close(st, xs));
  }

  lemma ClosedAfter(st: State, xs: set<Name>, st1: State, d: set<Name>)
    requires IsClose(st, xs, st1) && st1.unified <= d
    ensures Closed(d, st1.unknown) <==> Closed(d, st.unknown)
  {
    forall a | a in st1.unknown ensures st1.unknown[a] <= d <==> st.unknown[a] <= d {
      assert st.unknown[a] <= st1.unknown[a] + st1.unified;
    }
    if Closed(d, st1.unknown) {
      forall a | a in st.unknown
        ensures (a in d ==> st.unknown[a] <= d) && (st.unknown[a] <= d ==> a in d)
      {
        if a !in st1.unified {
          assert a in st1.unknown;
        }
      }
    }
  }

  lemma IsCloseTwice(st: State, xs: set<Name>, ys: set<Name>, st1: State, st2: State)
    requires IsClose(st, xs, st1) && IsClose(st, xs + ys, st2)
    ensures IsClose(st1, ys, st2)
  {
    assert st1.unified <= st2.unified;
    ClosedAfter(st, xs, st1, st2.unified);
    forall d | Closed(d, st1.unknown) && st1.unified + ys <= d ensures st2.unified <= d {
      ClosedAfter(st, xs, st1, d);
      assert st.unified + (xs + ys) <= d;
    }
  }

  /** Marking one set and then another is marking both at once. */
  lemma CloseTwice(st: State, xs: set<Name>, ys: set<Name>)
    ensures Close(Close(st, xs), ys) == Close(st, xs + ys)
  {
    var st1 := Close(st, xs);
    var st2 := Close(st, xs + ys);
    CloseMeets(st, xs);
    CloseMeets(st, xs + ys);
    IsCloseTwice(st, xs, ys, st1, st2);
    CloseIs(st1, ys, st2);
  }

  lemma CloseNothing(st: State, xs: set<Name>)
    requires Saturated(st) && xs <= st.unified
    ensures Close(st, xs) == st
  {
    forall a | a in st.unknown ensures !(st.unknown[a] <= st.unified) && st.unknown[a] == st.unknown[a] - st.unified {
      var v :| v in st.unknown[a];
      assert v !in st.unified;
    }
    CloseIs(st, xs, st);
  }

  // Every step of the unifier keeps the state saturated, also with respect to the safe variables.

  ghost predicate Separate(safe: set<Name>, st: State) {
    Saturated(st) && forall a | a in st.unknown :: a !in safe && st.unknown[a] !! safe
  }

  lemma CloseSeparate(safe: set<Name>, st: State, xs: set<Name>)
    requires Separate(safe, st)
    ensures Separate(safe, Close(st, xs))
  {
    CloseSaturates(st, xs);
  }

  lemma {:induction false} UnifyKeepsSaturated(safe: set<Name>, a: Term, b: Term, st: State)
    requires Separate(safe, st)
    ensures Separate(safe, UnifyTerms(safe, a, b, st))
    decreases a, 0
  {
    if a.Array? && b.Array? {
      if |a.elems| == |b.elems| { ElemsKeepSaturated(safe, a.elems, b.elems, st); }
    } else if a.Object? && b.Object? {
      if |a.items| == |b.items| { ItemsKeepSaturated(safe, a.items, b.items, st); }
    } else if a.Var? && b.Var? {
      CloseSeparate(safe, st, {a.name});
      CloseSeparate(safe, st, {b.name});
      if !IsSafe(safe, st, a.name) && !IsSafe(safe, st, b.name) {
        AwaitSeparate(safe, st, a.name, {b.name});
        AwaitSeparate(safe, Await(st, a.name, {b.name}), b.name, {a.name});
      }
    } else if a.Var? && (b.Array? || b.Object?) {
      UnifyAllSeparate(safe, a.name, b, st);
    } else if b.Var? && (a.Array? || a.Object?) {
      UnifyAllSeparate(safe, b.name, a, st);
    } else {
      CloseSeparate(safe, st, Vars(UNIFIER_PARAMS, a));
      CloseSeparate(safe, st, Vars(UNIFIER_PARAMS, b));
    }
  }

  lemma AwaitSeparate(safe: set<Name>, st: State, a: Name, vs: set<Name>)
    requires Separate(safe, st) && !IsSafe(safe, st, a) && vs != {} && vs !! safe && vs !! st.unified
    ensures Separate(safe, Await(st, a, vs))
  {
    var v :| v in vs;
    assert v in Await(st, a, vs).unknown[a];
  }

  lemma UnifyAllSeparate(safe: set<Name>, a: Name, b: Term, st: State)
    requires Separate(safe, st)
    ensures Separate(safe, UnifyAll(safe, a, b, st))
  {
    CloseSeparate(safe, st, Vars(UNIFIER_PARAMS, b));
    CloseSeparate(safe, st, {a});
    if !IsSafe(safe, st, a) && Pending(safe, st, b) != {} {
      AwaitSeparate(safe, st, a, Pending(safe, st, b));
    }
  }

  lemma {:induction false} ElemsKeepSaturated(safe: set<Name>, xs: seq<Term>, ys: seq<Term>, st: State)
    requires Separate(safe, st) && |xs| == |ys|
    ensures Separate(safe, UnifyElems(safe, xs, ys, st))
    decreases xs, 0
  {
    if xs != [] {
      UnifyKeepsSaturated(safe, xs[0], ys[0], st);
      ElemsKeepSaturated(safe, xs[1..], ys[1..], UnifyTerms(safe, xs[0], ys[0], st));
    }
  }

  lemma {:induction false} ItemsKeepSaturated(safe: set<Name>, items: seq<Item>, others: seq<Item>, st: State)
    requires Separate(safe, st)
    ensures Separate(safe, UnifyItems(safe, items, others, st))
    decreases items, 0
  {
    if items != [] {
      ItemKeepsSaturated(safe, items[0], others, st);
      ItemsKeepSaturated(safe, items[1..], others, UnifyItem(safe, items[0], others, st));
    }
  }

  lemma ItemKeepsSaturated(safe: set<Name>, item: Item, others: seq<Item>, st: State)
    requires Separate(safe, st)
    ensures Separate(safe, UnifyItem(safe, item, others, st))
    decreases item, 0
  {
    if Get(others, item.key).Some? { UnifyKeepsSaturated(safe, item.value, Get(others, item.key).value, st); }
  }
}
