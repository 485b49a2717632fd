/** What flattening leaves: no nested calls, and references only where they stand alone. */
module FlattenShape {
  import opened Syntax
  import opened LocalVars
  import opened Flatten

  /** No call anywhere in the term, outside comprehensions. */
  predicate NoCalls(t: Term)
    decreases t, 0
  {
    match t
    case Call(_, _) => false
    case Ref(parts) => AllNoCalls(parts)
    case Array(elems) => AllNoCalls(elems)
    case Object(items) => ItemsNoCalls(items)
    case Set(members) => AllNoCalls(members)
    case _ => true
  }

  predicate AllNoCalls(ts: seq<Term>)
    decreases ts, 0
  {
    ts == [] || (NoCalls(ts[0]) && AllNoCalls(ts[1..]))
  }

  predicate ItemsNoCalls(items: seq<Item>)
    decreases items, 0
  {
    items == [] || (ItemNoCalls(items[0]) && ItemsNoCalls(items[1..]))
  }

  predicate ItemNoCalls(item: Item)
    decreases item, 0
  {
    NoCalls(item.key) && NoCalls(item.value)
  }

  /** No call and no reference anywhere in the term, outside comprehensions. */
  predicate Plain(t: Term)
    decreases t, 0
  {
    match t
    case Call(_, _) => false
    case Ref(_) => false
    case Array(elems) => AllPlain(elems)
    case Object(items) => ItemsPlain(items)
    case Set(members) => AllPlain(members)
    case _ => true
  }

  predicate AllPlain(ts: seq<Term>)
    decreases ts, 0
  {
    ts == [] || (Plain(ts[0]) && AllPlain(ts[1..]))
  }

  predicate ItemsPlain(items: seq<Item>)
    decreases items, 0
  {
    items == [] || (ItemPlain(items[0]) && ItemsPlain(items[1..]))
  }

  predicate ItemPlain(item: Item)
    decreases item, 0
  {
    Plain(item.key) && Plain(item.value)
  }

  /** A plain term, or a reference that is plain after its head. */
  predicate Alone(t: Term) {
    Plain(t) || (t.Ref? && AllPlain(Tail(t.parts)))
  }

  predicate AllAlone(ts: seq<Term>)
    decreases ts
  {
    ts == [] || (Alone(ts[0]) && AllAlone(ts[1..]))
  }

  predicate ExprNoCalls(e: Expr) {
    match e.form
    case Single(t) => NoCalls(t)
    case Operation(_, operands) => AllNoCalls(operands)
  }

  /** References stand alone in an equality or an expression of one term, and nowhere else. */
  predicate ExprFlat(e: Expr) {
    match e.form
    case Single(t) => Alone(t)
    case Operation(op, operands) =>
      if op != EQUALITY then AllPlain(operands) else |operands| == 2 ==> AllAlone(operands)
  }

  predicate BodyNoCalls(body: seq<Expr>) {
    forall i | 0 <= i < |body| :: ExprNoCalls(body[i])
  }

  predicate BodyFlat(body: seq<Expr>) {
    forall i | 0 <= i < |body| :: ExprFlat(body[i])
  }

  // Sequences.

  lemma {:induction false} NoCallsSnoc(ts: seq<Term>, x: Name)
    requires AllNoCalls(ts)
    ensures AllNoCalls(ts + [Var(x)])
  {
    if ts != [] {
      NoCallsSnoc(ts[1..], x);
      assert (ts + [Var(x)])[1..] == ts[1..] + [Var(x)];
    }
  }

  lemma {:induction false} EqualityNoCalls(a: Term, b: Term)
    requires NoCalls(a) && NoCalls(b)
    ensures ExprNoCalls(Equality(a, b))
  {
    assert [a, b][1..] == [b] && [b][1..] == [];
  }

  lemma {:induction false} EqualityFlat(a: Term, b: Term)
    requires Alone(a) && Alone(b)
    ensures ExprFlat(Equality(a, b))
  {
    assert [a, b][1..] == [b] && [b][1..] == [];
  }

  lemma {:induction false} ConsItems(item: Item, items: seq<Item>)
    ensures ItemsNoCalls([item] + items) <==> ItemNoCalls(item) && ItemsNoCalls(items)
    ensures ItemsPlain([item] + items) <==> ItemPlain(item) && ItemsPlain(items)
  {
    assert ([item] + items)[1..] == items;
  }

  // The first pass leaves no call in term position.

  lemma {:induction false} CallsLifted(g: Generator, n: nat, t: Term)
    ensures var x := Lift(Calls, g, n, t); NoCalls(x.term) && BodyNoCalls(x.support)
    decreases t, 0
  {
    match t
    case Call(_, args) =>
      SeqCallsLifted(g, n, args);
      var xs := LiftSeq(Calls, g, n, args);
      NoCallsSnoc(xs.terms, Local(g, FirstFree(g, xs.next)));
    case Ref(parts) =>
      SeqCallsLifted(g, n, parts);
      var xs := LiftSeq(Calls, g, n, parts);
      if xs.terms != [] && Composite(xs.terms[0]) {
        var x := Var(Local(g, FirstFree(g, xs.next)));
        EqualityNoCalls(x, xs.terms[0]);
        assert ([x] + xs.terms[1..])[1..] == xs.terms[1..];
      }
    case Array(elems) => SeqCallsLifted(g, n, elems);
    case Object(items) => ItemsCallsLifted(g, n, items);
    case Set(members) => SeqCallsLifted(g, n, members);
    case _ =>
  }

  lemma {:induction false} SeqCallsLifted(g: Generator, n: nat, ts: seq<Term>)
    ensures var xs := LiftSeq(Calls, g, n, ts); AllNoCalls(xs.terms) && BodyNoCalls(xs.support)
    decreases ts, 0
  {
    if ts != [] {
      CallsLifted(g, n, ts[0]);
      var x := Lift(Calls, g, n, ts[0]);
      SeqCallsLifted(g, x.next, ts[1..]);
      var xs := LiftSeq(Calls, g, x.next, ts[1..]);
      assert ([x.term] + xs.terms)[1..] == xs.terms;
    }
  }

  lemma {:induction false} ItemsCallsLifted(g: Generator, n: nat, items: seq<Item>)
    ensures var xs := LiftItems(Calls, g, n, items); ItemsNoCalls(xs.items) && BodyNoCalls(xs.support)
    decreases items, 0
  {
    if items != [] {
      ItemCallsLifted(g, n, items[0]);
      var x := LiftItem(Calls, g, n, items[0]);
      ItemsCallsLifted(g, x.next, items[1..]);
      ConsItems(x.items[0], LiftItems(Calls, g, x.next, items[1..]).items);
    }
  }

  lemma {:induction false} ItemCallsLifted(g: Generator, n: nat, item: Item)
    ensures var x := LiftItem(Calls, g, n, item); |x.items| == 1 && ItemNoCalls(x.items[0]) && BodyNoCalls(x.support)
    decreases item, 0
  {
    CallsLifted(g, n, item.key);
    CallsLifted(g, Lift(Calls, g, n, item.key).next, item.value);
  }

  lemma {:induction false} BodyCallsLifted(g: Generator, n: nat, body: seq<Expr>)
    ensures BodyNoCalls(LiftBody(Calls, g, n, body).body)
    decreases body
  {
    if body != [] {
      match body[0].form {
        case Single(t) => CallsLifted(g, n, t);
        case Operation(_, operands) => SeqCallsLifted(g, n, operands);
      }
      BodyCallsLifted(g, LiftExpr(Calls, g, n, body[0]).next, body[1..]);
    }
  }

  // The second pass leaves references only where they stand alone.

  lemma {:induction false} RefsLifted(m: Mode, g: Generator, n: nat, t: Term)
    requires !m.Calls? && NoCalls(t)
    ensures var x := Lift(m, g, n, t); (if m.Top? then Alone(x.term) else Plain(x.term)) && BodyFlat(x.support)
    decreases t, 0
  {
    match t
    case Ref(parts) =>
      TailNoCalls(parts);
      SeqRefsLifted(g, n, Tail(parts));
      var xs := LiftSeq(Refs, g, n, Tail(parts));
      HeadTail(parts, xs.terms, Tail(parts));
      if m.Refs? {
        EqualityFlat(Var(Local(g, FirstFree(g, xs.next))), Ref(Head(parts) + xs.terms));
      }
    case Array(elems) => SeqRefsLifted(g, n, elems);
    case Object(items) => ItemsRefsLifted(g, n, items);
    case Set(members) => SeqRefsLifted(g, n, members);
    case _ =>
  }

  lemma {:induction false} TailNoCalls(parts: seq<Term>)
    requires AllNoCalls(parts)
    ensures AllNoCalls(Tail(parts))
  {
  }

  lemma {:induction false} HeadTail(parts: seq<Term>, terms: seq<Term>, tail: seq<Term>)
    requires AllPlain(terms) && tail == Tail(parts) && (tail == [] ==> terms == [])
    ensures Alone(Ref(Head(parts) + terms))
  {
    if parts == [] {
      assert Head(parts) + terms == [];
    } else {
      assert (Head(parts) + terms)[1..] == terms;
    }
  }

  lemma {:induction false} SeqRefsLifted(g: Generator, n: nat, ts: seq<Term>)
    requires AllNoCalls(ts)
    ensures var xs := LiftSeq(Refs, g, n, ts); AllPlain(xs.terms) && BodyFlat(xs.support) && (ts == [] ==> xs.terms == [])
    decreases ts, 0
  {
    if ts != [] {
      RefsLifted(Refs, g, n, ts[0]);
      var x := Lift(Refs, g, n, ts[0]);
      SeqRefsLifted(g, x.next, ts[1..]);
      var xs := LiftSeq(Refs, g, x.next, ts[1..]);
      assert ([x.term] + xs.terms)[1..] == xs.terms;
    }
  }

  lemma {:induction false} SeqTopLifted(g: Generator, n: nat, ts: seq<Term>)
    requires AllNoCalls(ts)
    ensures var xs := LiftSeq(Top, g, n, ts); AllAlone(xs.terms) && BodyFlat(xs.support)
    decreases ts
  {
    if ts != [] {
      RefsLifted(Top, g, n, ts[0]);
      var x := Lift(Top, g, n, ts[0]);
      SeqTopLifted(g, x.next, ts[1..]);
      var xs := LiftSeq(Top, g, x.next, ts[1..]);
      assert ([x.term] + xs.terms)[1..] == xs.terms;
    }
  }

  lemma {:induction false} ItemsRefsLifted(g: Generator, n: nat, items: seq<Item>)
    requires ItemsNoCalls(items)
    ensures var xs := LiftItems(Refs, g, n, items); ItemsPlain(xs.items) && BodyFlat(xs.support)
    decreases items, 0
  {
    if items != [] {
      ItemRefsLifted(g, n, items[0]);
      var x := LiftItem(Refs, g, n, items[0]);
      ItemsRefsLifted(g, x.next, items[1..]);
      ConsItems(x.items[0], LiftItems(Refs, g, x.next, items[1..]).items);
    }
  }

  lemma {:induction false} ItemRefsLifted(g: Generator, n: nat, item: Item)
    requires ItemNoCalls(item)
    ensures var x := LiftItem(Refs, g, n, item); |x.items| == 1 && ItemPlain(x.items[0]) && BodyFlat(x.support)
    decreases item, 0
  {
    RefsLifted(Refs, g, n, item.key);
    RefsLifted(Refs, g, Lift(Refs, g, n, item.key).next, item.value);
  }

  lemma {:induction false} ExprRefsLifted(g: Generator, n: nat, e: Expr)
    requires ExprNoCalls(e)
    ensures BodyFlat(LiftExpr(Refs, g, n, e).body)
  {
    match e.form
    case Single(t) => RefsLifted(Top, g, n, t);
    case Operation(op, operands) =>
      if op == EQUALITY {
        SeqTopLifted(g, n, operands);
      } else {
        SeqRefsLifted(g, n, operands);
      }
  }

  lemma {:induction false} BodyRefsLifted(g: Generator, n: nat, body: seq<Expr>)
    requires BodyNoCalls(body)
    ensures BodyFlat(LiftBody(Refs, g, n, body).body)
    decreases body
  {
    if body != [] {
      ExprRefsLifted(g, n, body[0]);
      BodyRefsLifted(g, LiftExpr(Refs, g, n, body[0]).next, body[1..]);
    }
  }

  /** Flattening any body leaves no call in term position and no reference inside another term. */
  lemma {:induction false} FlattenedIsFlat(g: Generator, n: nat, body: seq<Expr>)
    ensures BodyFlat(FlattenBody(g, n, body).body)
  {
    BodyCallsLifted(g, n, body);
    var calls := LiftBody(Calls, g, n, body);
    BodyRefsLifted(g, calls.next, calls.body);
  }
}
