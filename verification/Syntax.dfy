/** The part of Rego's abstract syntax that the compiler passes of this model work on. */
module Syntax {

  datatype Option<+T> = None | Some(value: T)

  type Name = string

  datatype Scalar = Null | Boolean(b: bool) | Number(n: int) | String(s: string)

  datatype Kind = ArrayKind | ObjectKind | SetKind

  datatype Term =
    | Const(scalar: Scalar)
    | Var(name: Name)
    | Ref(parts: seq<Term>)
    | Call(op: Term, args: seq<Term>)
    | Array(elems: seq<Term>)
    | Object(items: seq<Item>)
    | Set(members: seq<Term>)
    | Comprehension(kind: Kind, heads: seq<Term>, body: seq<Expr>)

  datatype Item = Item(key: Term, value: Term)

  /** A single term, or an operator applied to operands (equality and calls alike). */
  datatype Form = Single(term: Term) | Operation(op: Term, operands: seq<Term>)

  datatype With = With(target: Term, value: Term)

  datatype Expr = Expr(negated: bool, form: Form, withs: seq<With>)

  /** The operator of an equality expression, `a = b`. */
  const EQUALITY := Ref([Var("eq")])

  function Equality(a: Term, b: Term): Expr {
    Expr(false, Operation(EQUALITY, [a, b]), [])
  }

  predicate IsEquality(e: Expr) {
    e.form.Operation? && e.form.op == EQUALITY
  }

  lemma {:induction false} Regroup<T>(xs: seq<T>, ys: seq<T>, zs: seq<T>)
    ensures xs + (ys + zs) == xs + ys + zs
  {
  }

  function Tail(ts: seq<Term>): seq<Term> {
    if ts == [] then [] else ts[1..]
  }

  /** Which nodes the variable visitor leaves out. */
  datatype VisitorParams = VisitorParams(
    skipRefHead: bool, skipRefCallHead: bool, skipObjectKeys: bool, skipClosures: bool, skipSets: bool)

  const EVERYTHING := VisitorParams(false, false, false, false, false)
  const OPERANDS := VisitorParams(false, true, false, false, false)
  const SAFETY_CHECK := VisitorParams(false, true, false, true, false)

  /** The variables the visitor collects under a term. */
  function Vars(p: VisitorParams, t: Term): set<Name>
    decreases t, 1
  {
    match t
    case Const(_) => {}
    case Var(n) => {n}
    case Ref(parts) => if p.skipRefHead then SeqVars(p, Tail(parts)) else SeqVars(p, parts)
    case Call(op, args) => OperatorVars(p, op) + SeqVars(p, args)
    case Array(elems) => SeqVars(p, elems)
    case Object(items) => ItemsVars(p, items)
    case Set(members) => if p.skipSets then {} else SeqVars(p, members)
    case Comprehension(_, heads, body) => if p.skipClosures then {} else SeqVars(p, heads) + BodyVars(p, body)
  }

  function OperatorVars(p: VisitorParams, op: Term): set<Name>
    decreases op, 2
  {
    if p.skipRefCallHead && op.Ref? then SeqVars(p, Tail(op.parts)) else Vars(p, op)
  }

  function SeqVars(p: VisitorParams, ts: seq<Term>): set<Name>
    decreases ts, 0
  {
    if ts == [] then {} else Vars(p, ts[0]) + SeqVars(p, ts[1..])
  }

  function ItemsVars(p: VisitorParams, items: seq<Item>): set<Name>
    decreases items, 0
  {
    if items == [] then {} else ItemVars(p, items[0]) + ItemsVars(p, items[1..])
  }

  function ItemVars(p: VisitorParams, item: Item): set<Name>
    decreases item, 0
  {
    (if p.skipObjectKeys then {} else Vars(p, item.key)) + Vars(p, item.value)
  }

  function WithsVars(p: VisitorParams, withs: seq<With>): set<Name>
    decreases withs, 0
  {
    if withs == [] then {} else WithVars(p, withs[0]) + WithsVars(p, withs[1..])
  }

  function WithVars(p: VisitorParams, w: With): set<Name>
    decreases w, 0
  {
    if p.skipRefCallHead then
      (if w.target.Ref? then SeqVars(p, Tail(w.target.parts)) else {}) +
      (if w.value.Ref? then SeqVars(p, Tail(w.value.parts)) else Vars(p, w.value))
    else Vars(p, w.target) + Vars(p, w.value)
  }

  function ExprVars(p: VisitorParams, e: Expr): set<Name>
    decreases e, 0
  {
    (match e.form
     case Single(t) => Vars(p, t)
     case Operation(op, operands) => OperatorVars(p, op) + SeqVars(p, operands))
    + WithsVars(p, e.withs)
  }

  function BodyVars(p: VisitorParams, body: seq<Expr>): set<Name>
    decreases body, 0
  {
    if body == [] then {} else ExprVars(p, body[0]) + BodyVars(p, body[1..])
  }

  lemma {:induction false} SeqVarsConcat(p: VisitorParams, xs: seq<Term>, ys: seq<Term>)
    ensures SeqVars(p, xs + ys) == SeqVars(p, xs) + SeqVars(p, ys)
  {
    if xs == [] {
      assert xs + ys == ys;
    } else {
      SeqVarsConcat(p, xs[1..], ys);
      assert (xs + ys)[1..] == xs[1..] + ys;
    }
  }

  lemma {:induction false} BodyVarsConcat(p: VisitorParams, xs: seq<Expr>, ys: seq<Expr>)
    ensures BodyVars(p, xs + ys) == BodyVars(p, xs) + BodyVars(p, ys)
  {
    if xs == [] {
      assert xs + ys == ys;
    } else {
      BodyVarsConcat(p, xs[1..], ys);
      assert (xs + ys)[1..] == xs[1..] + ys;
    }
  }

  // Whatever is left out, the visitor collects only variables that occur.

  lemma {:induction false} VarsFewer(p: VisitorParams, t: Term)
    ensures Vars(p, t) <= Vars(EVERYTHING, t)
    decreases t, 1
  {
    match t
    case Const(_) =>
    case Var(_) =>
    case Ref(parts) =>
      SeqVarsFewer(p, parts);
      SeqVarsFewer(p, Tail(parts));
    case Call(op, args) =>
      OperatorVarsFewer(p, op);
      SeqVarsFewer(p, args);
    case Array(elems) => SeqVarsFewer(p, elems);
    case Object(items) => ItemsVarsFewer(p, items);
    case Set(members) => SeqVarsFewer(p, members);
    case Comprehension(_, heads, body) =>
      SeqVarsFewer(p, heads);
      BodyVarsFewer(p, body);
  }

  lemma {:induction false} OperatorVarsFewer(p: VisitorParams, op: Term)
    ensures OperatorVars(p, op) <= Vars(EVERYTHING, op)
    decreases op, 2
  {
    VarsFewer(p, op);
    if op.Ref? { SeqVarsFewer(p, Tail(op.parts)); }
  }

  lemma {:induction false} SeqVarsFewer(p: VisitorParams, ts: seq<Term>)
    ensures SeqVars(p, ts) <= SeqVars(EVERYTHING, ts)
    decreases ts, 0
  {
    if ts != [] {
      VarsFewer(p, ts[0]);
      SeqVarsFewer(p, ts[1..]);
    }
  }

  lemma {:induction false} ItemsVarsFewer(p: VisitorParams, items: seq<Item>)
    ensures ItemsVars(p, items) <= ItemsVars(EVERYTHING, items)
    decreases items, 0
  {
    if items != [] {
      ItemVarsFewer(p, items[0]);
      ItemsVarsFewer(p, items[1..]);
    }
  }

  lemma {:induction false} ItemVarsFewer(p: VisitorParams, item: Item)
    ensures ItemVars(p, item) <= ItemVars(EVERYTHING, item)
    decreases item, 0
  {
    VarsFewer(p, item.key);
    VarsFewer(p, item.value);
  }

  lemma {:induction false} WithsVarsFewer(p: VisitorParams, withs: seq<With>)
    ensures WithsVars(p, withs) <= WithsVars(EVERYTHING, withs)
    decreases withs, 0
  {
    if withs != [] {
      WithVarsFewer(p, withs[0]);
      WithsVarsFewer(p, withs[1..]);
    }
  }

  lemma {:induction false} WithVarsFewer(p: VisitorParams, w: With)
    ensures WithVars(p, w) <= WithVars(EVERYTHING, w)
    decreases w, 0
  {
    VarsFewer(p, w.target);
    VarsFewer(p, w.value);
    if w.target.Ref? { SeqVarsFewer(p, Tail(w.target.parts)); }
    if w.value.Ref? { SeqVarsFewer(p, Tail(w.value.parts)); }
  }

  lemma {:induction false} BodyVarsFewer(p: VisitorParams, body: seq<Expr>)
    ensures BodyVars(p, body) <= BodyVars(EVERYTHING, body)
    decreases body, 0
  {
    if body != [] {
      ExprVarsFewer(p, body[0]);
      BodyVarsFewer(p, body[1..]);
    }
  }

  lemma {:induction false} ExprVarsFewer(p: VisitorParams, e: Expr)
    ensures ExprVars(p, e) <= ExprVars(EVERYTHING, e)
    decreases e, 0
  {
    WithsVarsFewer(p, e.withs);
    match e.form
    case Single(t) => VarsFewer(p, t);
    case Operation(op, operands) =>
      OperatorVarsFewer(p, op);
      SeqVarsFewer(p, operands);
  }
}
