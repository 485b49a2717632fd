/** The variables an expression binds once others are known. */
module OutputVars {
  import opened Syntax
  import opened UnifierSpec
  import opened Monotonicity
  import Unifier

  const REF_OUTPUT := VisitorParams(true, false, false, false, false)
  const CALL_OUTPUT := VisitorParams(true, false, true, true, true)

  /** Outputs of every reachable reference whose head is known. */
  function RefOutputs(safe: set<Name>, t: Term): set<Name>
    decreases t, 1
  {
    match t
    case Ref(parts) => if RefSafe(parts, safe) then Vars(REF_OUTPUT, t) + SeqRefOutputs(safe, parts) else {}
    case Call(op, args) => RefOutputs(safe, op) + SeqRefOutputs(safe, args)
    case Array(elems) => SeqRefOutputs(safe, elems)
    case Object(items) => ItemsRefOutputs(safe, items)
    case Set(members) => SeqRefOutputs(safe, members)
    case _ => {}
  }

  function SeqRefOutputs(safe: set<Name>, ts: seq<Term>): set<Name>
    decreases ts, 0
  {
    if ts == [] then {} else RefOutputs(safe, ts[0]) + SeqRefOutputs(safe, ts[1..])
  }

  function ItemsRefOutputs(safe: set<Name>, items: seq<Item>): set<Name>
    decreases items, 0
  {
    if items == [] then {} else ItemRefOutputs(safe, items[0]) + ItemsRefOutputs(safe, items[1..])
  }

  function ItemRefOutputs(safe: set<Name>, item: Item): set<Name>
    decreases item, 0
  {
    RefOutputs(safe, item.key) + RefOutputs(safe, item.value)
  }

  function WithsRefOutputs(safe: set<Name>, withs: seq<With>): set<Name> {
    if withs == [] then {}
    else RefOutputs(safe, withs[0].target) + RefOutputs(safe, withs[0].value) + WithsRefOutputs(safe, withs[1..])
  }

  function TermOutputs(safe: set<Name>, e: Expr): set<Name> {
    (match e.form
     case Single(t) => RefOutputs(safe, t)
     case Operation(op, operands) => RefOutputs(safe, op) + SeqRefOutputs(safe, operands))
    + WithsRefOutputs(safe, e.withs)
  }

  function CallOutputs(arity: int, safe: set<Name>, e: Expr): set<Name>
    requires e.form.Operation? && arity >= 0
  {
    var output := TermOutputs(safe, e);
    var terms := [e.form.op] + e.form.operands;
    if arity + 1 >= |terms| then output
    else if SeqVars(CALL_OUTPUT, terms[..arity + 1]) - output - safe != {} then {}
    else output + SeqVars(CALL_OUTPUT, terms[arity + 1..])
  }

  ghost function EqOutputs(safe: set<Name>, e: Expr): set<Name>
    requires e.form.Operation?
  {
    if |e.form.operands| != 2 then safe
    else
      var known := TermOutputs(safe, e) + safe;
      known + Unify(known, e.form.operands[0], e.form.operands[1]) - safe
  }

  ghost function Outputs(arity: Term -> int, safe: set<Name>, e: Expr): set<Name> {
    if e.negated || exists i :: 0 <= i < |e.withs| && !(WithVars(SAFETY_CHECK, e.withs[i]) <= safe) then {}
    else match e.form
      case Single(_) => TermOutputs(safe, e)
      case Operation(op, _) =>
        if op == EQUALITY then EqOutputs(safe, e)
        else if !op.Ref? || arity(op) < 0 then {}
        else CallOutputs(arity(op), safe, e)
  }

  method OutputVarsForExpr(arity: Term -> int, safe: set<Name>, e: Expr) returns (output: set<Name>)
    ensures output == Outputs(arity, safe, e)
  {
    if e.negated {
      return {};
    }
    for i := 0 to |e.withs|
      invariant forall j | 0 <= j < i :: WithVars(SAFETY_CHECK, e.withs[j]) <= safe
    {
      var unsafe := WithVars(SAFETY_CHECK, e.withs[i]) - safe;
      if unsafe != {} {
        var v :| v in unsafe;
        return {};
      }
      assert forall v | v in WithVars(SAFETY_CHECK, e.withs[i]) :: v in safe || v in unsafe;
    }
    match e.form
    case Single(_) => output := TermOutputs(safe, e);
    case Operation(op, operands) =>
      if op == EQUALITY {
        output := OutputVarsForExprEq(safe, e);
      } else if !op.Ref? || arity(op) < 0 {
        output := {};
      } else {
        output := CallOutputs(arity(op), safe, e);
      }
  }

  method OutputVarsForExprEq(safe: set<Name>, e: Expr) returns (output: set<Name>)
    requires e.form.Operation?
    ensures output == EqOutputs(safe, e)
  {
    if |e.form.operands| != 2 {
      return safe;
    }
    output := TermOutputs(safe, e) + safe;
    var unified := Unifier.Unify(output, e.form.operands[0], e.form.operands[1]);
    output := output + unified - safe;
  }

  // Knowing more beforehand never binds less.

  lemma {:induction false} RefOutputsMonotone(safe: set<Name>, safe': set<Name>, t: Term)
    requires safe <= safe'
    ensures RefOutputs(safe, t) <= RefOutputs(safe', t)
    decreases t, 1
  {
    match t
    case Ref(parts) => SeqRefOutputsMonotone(safe, safe', parts);
    case Call(op, args) =>
      RefOutputsMonotone(safe, safe', op);
      SeqRefOutputsMonotone(safe, safe', args);
    case Array(elems) => SeqRefOutputsMonotone(safe, safe', elems);
    case Object(items) => ItemsRefOutputsMonotone(safe, safe', items);
    case Set(members) => SeqRefOutputsMonotone(safe, safe', members);
    case _ =>
  }

  lemma {:induction false} SeqRefOutputsMonotone(safe: set<Name>, safe': set<Name>, ts: seq<Term>)
    requires safe <= safe'
    ensures SeqRefOutputs(safe, ts) <= SeqRefOutputs(safe', ts)
    decreases ts, 0
  {
    if ts != [] {
      RefOutputsMonotone(safe, safe', ts[0]);
      SeqRefOutputsMonotone(safe, safe', ts[1..]);
    }
  }

  lemma {:induction false} ItemsRefOutputsMonotone(safe: set<Name>, safe': set<Name>, items: seq<Item>)
    requires safe <= safe'
    ensures ItemsRefOutputs(safe, items) <= ItemsRefOutputs(safe', items)
    decreases items, 0
  {
    if items != [] {
      ItemRefOutputsMonotone(safe, safe', items[0]);
      ItemsRefOutputsMonotone(safe, safe', items[1..]);
    }
  }

  lemma ItemRefOutputsMonotone(safe: set<Name>, safe': set<Name>, item: Item)
    requires safe <= safe'
    ensures ItemRefOutputs(safe, item) <= ItemRefOutputs(safe', item)
    decreases item, 0
  {
    RefOutputsMonotone(safe, safe', item.key);
    RefOutputsMonotone(safe, safe', item.value);
  }

  lemma {:induction false} WithsRefOutputsMonotone(safe: set<Name>, safe': set<Name>, withs: seq<With>)
    requires safe <= safe'
    ensures WithsRefOutputs(safe, withs) <= WithsRefOutputs(safe', withs)
  {
    if withs != [] {
      RefOutputsMonotone(safe, safe', withs[0].target);
      RefOutputsMonotone(safe, safe', withs[0].value);
      WithsRefOutputsMonotone(safe, safe', withs[1..]);
    }
  }

  lemma TermOutputsMonotone(safe: set<Name>, safe': set<Name>, e: Expr)
    requires safe <= safe'
    ensures TermOutputs(safe, e) <= TermOutputs(safe', e)
  {
    WithsRefOutputsMonotone(safe, safe', e.withs);
    match e.form
    case Single(t) => RefOutputsMonotone(safe, safe', t);
    case Operation(op, operands) =>
      RefOutputsMonotone(safe, safe', op);
      SeqRefOutputsMonotone(safe, safe', operands);
  }

  lemma OutputsMonotone(arity: Term -> int, safe: set<Name>, safe': set<Name>, e: Expr)
    requires safe <= safe'
    ensures safe + Outputs(arity, safe, e) <= safe' + Outputs(arity, safe', e)
  {
    TermOutputsMonotone(safe, safe', e);
    if IsEquality(e) && |e.form.operands| == 2 {
      UnifyMonotone(TermOutputs(safe, e) + safe, TermOutputs(safe', e) + safe', e.form.operands[0], e.form.operands[1]);
    }
  }

  // A closure-free expression binds only variables that occur in it.

  predicate HeadedByVar(t: Term) {
    t.Ref? && t.parts != [] && t.parts[0].Var?
  }

  /** No comprehensions, and operators are named by references that start with a variable. */
  predicate Plain(t: Term)
    decreases t, 1
  {
    match t
    case Const(_) => true
    case Var(_) => true
    case Ref(parts) => PlainSeq(parts)
    case Call(op, args) => HeadedByVar(op) && Plain(op) && PlainSeq(args)
    case Array(elems) => PlainSeq(elems)
    case Object(items) => PlainItems(items)
    case Set(members) => PlainSeq(members)
    case Comprehension(_, _, _) => false
  }

  predicate PlainSeq(ts: seq<Term>)
    decreases ts, 0
  {
    ts == [] || (Plain(ts[0]) && PlainSeq(ts[1..]))
  }

  predicate PlainItems(items: seq<Item>)
    decreases items, 0
  {
    items == [] || (PlainItem(items[0]) && PlainItems(items[1..]))
  }

  predicate PlainItem(item: Item)
    decreases item, 0
  {
    Plain(item.key) && Plain(item.value)
  }

  predicate PlainWith(w: With) {
    HeadedByVar(w.target) && Plain(w.target) && Plain(w.value) && (w.value.Ref? ==> HeadedByVar(w.value))
  }

  predicate PlainExpr(e: Expr) {
    && (match e.form
        case Single(t) => Plain(t)
        case Operation(op, operands) => HeadedByVar(op) && Plain(op) && PlainSeq(operands))
    && forall i | 0 <= i < |e.withs| :: PlainWith(e.withs[i])
  }

  lemma {:induction false} VarsAreSafetyVars(p: VisitorParams, t: Term)
    requires p.skipRefHead && !p.skipRefCallHead && Plain(t)
    ensures Vars(p, t) <= Vars(SAFETY_CHECK, t)
    decreases t, 1
  {
    match t
    case Const(_) =>
    case Var(_) =>
    case Ref(parts) => SeqVarsAreSafetyVars(p, Tail(parts));
    case Call(op, args) =>
      assert PlainSeq(op.parts);
      assert Vars(p, op) == SeqVars(p, Tail(op.parts));
      SeqVarsAreSafetyVars(p, Tail(op.parts));
      SeqVarsAreSafetyVars(p, args);
    case Array(elems) => SeqVarsAreSafetyVars(p, elems);
    case Object(items) => ItemsVarsAreSafetyVars(p, items);
    case Set(members) => SeqVarsAreSafetyVars(p, members);
  }

  lemma {:induction false} SeqVarsAreSafetyVars(p: VisitorParams, ts: seq<Term>)
    requires p.skipRefHead && !p.skipRefCallHead && PlainSeq(ts)
    ensures SeqVars(p, ts) <= SeqVars(SAFETY_CHECK, ts)
    decreases ts, 0
  {
    if ts != [] {
      VarsAreSafetyVars(p, ts[0]);
      SeqVarsAreSafetyVars(p, ts[1..]);
    }
  }

  lemma {:induction false} ItemsVarsAreSafetyVars(p: VisitorParams, items: seq<Item>)
    requires p.skipRefHead && !p.skipRefCallHead && PlainItems(items)
    ensures ItemsVars(p, items) <= ItemsVars(SAFETY_CHECK, items)
    decreases items, 0
  {
    if items != [] {
      ItemVarsAreSafetyVars(p, items[0]);
      ItemsVarsAreSafetyVars(p, items[1..]);
    }
  }

  lemma ItemVarsAreSafetyVars(p: VisitorParams, item: Item)
    requires p.skipRefHead && !p.skipRefCallHead && PlainItem(item)
    ensures ItemVars(p, item) <= ItemVars(SAFETY_CHECK, item)
    decreases item, 0
  {
    VarsAreSafetyVars(p, item.key);
    VarsAreSafetyVars(p, item.value);
  }

  lemma {:induction false} RefOutputsBounded(safe: set<Name>, t: Term)
    requires Plain(t)
    ensures RefOutputs(safe, t) <= Vars(SAFETY_CHECK, t)
    ensures HeadedByVar(t) ==> RefOutputs(safe, t) <= SeqVars(SAFETY_CHECK, Tail(t.parts))
    decreases t, 1
  {
    match t
    case Const(_) =>
    case Var(_) =>
    case Ref(parts) =>
      SeqVarsAreSafetyVars(REF_OUTPUT, Tail(parts));
      SeqRefOutputsBounded(safe, parts);
      SeqRefOutputsBounded(safe, Tail(parts));
    case Call(op, args) =>
      RefOutputsBounded(safe, op);
      SeqRefOutputsBounded(safe, args);
    case Array(elems) => SeqRefOutputsBounded(safe, elems);
    case Object(items) => ItemsRefOutputsBounded(safe, items);
    case Set(members) => SeqRefOutputsBounded(safe, members);
  }

  lemma {:induction false} SeqRefOutputsBounded(safe: set<Name>, ts: seq<Term>)
    requires PlainSeq(ts)
    ensures SeqRefOutputs(safe, ts) <= SeqVars(SAFETY_CHECK, ts)
    decreases ts, 0
  {
    if ts != [] {
      RefOutputsBounded(safe, ts[0]);
      SeqRefOutputsBounded(safe, ts[1..]);
    }
  }

  lemma {:induction false} ItemsRefOutputsBounded(safe: set<Name>, items: seq<Item>)
    requires PlainItems(items)
    ensures ItemsRefOutputs(safe, items) <= ItemsVars(SAFETY_CHECK, items)
    decreases items, 0
  {
    if items != [] {
      ItemRefOutputsBounded(safe, items[0]);
      ItemsRefOutputsBounded(safe, items[1..]);
    }
  }

  lemma ItemRefOutputsBounded(safe: set<Name>, item: Item)
    requires PlainItem(item)
    ensures ItemRefOutputs(safe, item) <= ItemVars(SAFETY_CHECK, item)
    decreases item, 0
  {
    RefOutputsBounded(safe, item.key);
    RefOutputsBounded(safe, item.value);
  }

  lemma {:induction false} WithsRefOutputsBounded(safe: set<Name>, withs: seq<With>)
    requires forall i | 0 <= i < |withs| :: PlainWith(withs[i])
    ensures WithsRefOutputs(safe, withs) <= WithsVars(SAFETY_CHECK, withs)
  {
    if withs != [] {
      RefOutputsBounded(safe, withs[0].target);
      RefOutputsBounded(safe, withs[0].value);
      WithsRefOutputsBounded(safe, withs[1..]);
    }
  }

  lemma TermOutputsBounded(safe: set<Name>, e: Expr)
    requires PlainExpr(e)
    ensures TermOutputs(safe, e) <= ExprVars(SAFETY_CHECK, e)
  {
    WithsRefOutputsBounded(safe, e.withs);
    match e.form
    case Single(t) => RefOutputsBounded(safe, t);
    case Operation(op, operands) =>
      RefOutputsBounded(safe, op);
      SeqRefOutputsBounded(safe, operands);
  }

  lemma {:induction false} SeqVarsSuffix(p: VisitorParams, ts: seq<Term>, n: nat)
    requires n <= |ts|
    ensures SeqVars(p, ts[n..]) <= SeqVars(p, ts)
  {
    if n > 0 { SeqVarsSuffix(p, ts[1..], n - 1); assert ts[1..][n - 1..] == ts[n..]; } else { assert ts[0..] == ts; }
  }

  /** Everything a unifier state mentions lies in `bound`. */
  ghost predicate Within(st: State, bound: set<Name>) {
    st.unified <= bound && forall a | a in st.unknown :: a in bound && st.unknown[a] <= bound
  }

  lemma CloseWithin(st: State, xs: set<Name>, bound: set<Name>)
    requires Within(st, bound) && xs <= bound
    ensures Within(Close(st, xs), bound)
  {
  }

  lemma {:induction false} UnifyWithin(safe: set<Name>, a: Term, b: Term, st: State, bound: set<Name>)
    requires Within(st, bound) && Vars(UNIFIER_PARAMS, a) + Vars(UNIFIER_PARAMS, b) <= bound
    ensures Within(UnifyTerms(safe, a, b, st), bound)
    decreases a, 0
  {
    if a.Array? && b.Array? {
      if |a.elems| == |b.elems| { UnifyElemsWithin(safe, a.elems, b.elems, st, bound); }
    } else if a.Object? && b.Object? {
      if |a.items| == |b.items| { UnifyItemsWithin(safe, a.items, b.items, st, bound); }
    } else {
      CloseWithin(st, Vars(UNIFIER_PARAMS, a), bound);
      CloseWithin(st, Vars(UNIFIER_PARAMS, b), bound);
    }
  }

  lemma {:induction false} UnifyElemsWithin(safe: set<Name>, xs: seq<Term>, ys: seq<Term>, st: State, bound: set<Name>)
    requires |xs| == |ys| && Within(st, bound) && SeqVars(UNIFIER_PARAMS, xs) + SeqVars(UNIFIER_PARAMS, ys) <= bound
    ensures Within(UnifyElems(safe, xs, ys, st), bound)
    decreases xs, 0
  {
    if xs != [] {
      UnifyWithin(safe, xs[0], ys[0], st, bound);
      UnifyElemsWithin(safe, xs[1..], ys[1..], UnifyTerms(safe, xs[0], ys[0], st), bound);
    }
  }

  lemma {:induction false} UnifyItemsWithin(safe: set<Name>, items: seq<Item>, others: seq<Item>, st: State, bound: set<Name>)
    requires Within(st, bound) && ItemsVars(UNIFIER_PARAMS, items) + ItemsVars(UNIFIER_PARAMS, others) <= bound
    ensures Within(UnifyItems(safe, items, others, st), bound)
    decreases items, 0
  {
    if items != [] {
      UnifyItemWithin(safe, items[0], others, st, bound);
      UnifyItemsWithin(safe, items[1..], others, UnifyItem(safe, items[0], others, st), bound);
    }
  }

  lemma UnifyItemWithin(safe: set<Name>, item: Item, others: seq<Item>, st: State, bound: set<Name>)
    requires Within(st, bound) && ItemVars(UNIFIER_PARAMS, item) + ItemsVars(UNIFIER_PARAMS, others) <= bound
    ensures Within(UnifyItem(safe, item, others, st), bound)
    decreases item, 0
  {
    match Get(others, item.key)
    case None =>
    case Some(v) =>
      var i :| 0 <= i < |others| && others[i] == Item(item.key, v);
      ItemVarsAt(others, i);
      UnifyWithin(safe, item.value, v, st, bound);
  }

  lemma {:induction false} ItemVarsAt(items: seq<Item>, i: nat)
    requires i < |items|
    ensures Vars(UNIFIER_PARAMS, items[i].value) <= ItemsVars(UNIFIER_PARAMS, items)
  {
    if i > 0 { ItemVarsAt(items[1..], i - 1); }
  }

  lemma EqOutputsBounded(safe: set<Name>, e: Expr)
    requires PlainExpr(e) && e.form.Operation?
    ensures EqOutputs(safe, e) <= ExprVars(SAFETY_CHECK, e) + safe
  {
    TermOutputsBounded(safe, e);
    if |e.form.operands| == 2 {
      var ts := e.form.operands;
      assert PlainSeq(ts) && ts[1..] == [ts[1]] && [ts[1]][1..] == [];
      assert PlainSeq([ts[1]]);
      VarsAreSafetyVars(UNIFIER_PARAMS, ts[0]);
      VarsAreSafetyVars(UNIFIER_PARAMS, ts[1]);
      assert SeqVars(SAFETY_CHECK, [ts[1]]) == Vars(SAFETY_CHECK, ts[1]) + SeqVars(SAFETY_CHECK, []);
      assert SeqVars(SAFETY_CHECK, ts) == Vars(SAFETY_CHECK, ts[0]) + SeqVars(SAFETY_CHECK, [ts[1]]);
      UnifyWithin(TermOutputs(safe, e) + safe, ts[0], ts[1], EMPTY, SeqVars(SAFETY_CHECK, ts));
    }
  }

  lemma CallOutputsBounded(arity: nat, safe: set<Name>, e: Expr)
    requires PlainExpr(e) && e.form.Operation?
    ensures CallOutputs(arity, safe, e) <= ExprVars(SAFETY_CHECK, e)
  {
    TermOutputsBounded(safe, e);
    var terms := [e.form.op] + e.form.operands;
    if arity + 1 < |terms| {
      assert terms[arity + 1..] == e.form.operands[arity..];
      SeqVarsSuffix(CALL_OUTPUT, e.form.operands, arity);
      SeqVarsAreSafetyVars(CALL_OUTPUT, e.form.operands);
    }
  }

  lemma OutputsBounded(arity: Term -> int, safe: set<Name>, e: Expr)
    requires PlainExpr(e)
    ensures Outputs(arity, safe, e) <= ExprVars(SAFETY_CHECK, e) + safe
  {
    TermOutputsBounded(safe, e);
    if e.form.Operation? {
      EqOutputsBounded(safe, e);
      if arity(e.form.op) >= 0 { CallOutputsBounded(arity(e.form.op), safe, e); }
    }
  }
}
