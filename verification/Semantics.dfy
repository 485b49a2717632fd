/** What terms and expressions mean under an assignment of values to variables. */
module Semantics {
  import opened Syntax

  datatype Value =
    | VScalar(scalar: Scalar)
    | VArray(elems: seq<Value>)
    | VObject(fields: map<Value, Value>)
    | VSet(members: set<Value>)

  type Env = Name -> Value

  /**
    The documents and functions a query is evaluated against: the result of a call, the document at a
    reference (given the values of its parts), and the value of a comprehension.
   */
  datatype World = World(
    arity: Term -> nat,
    call: (Term, seq<Value>) -> Option<Value>,
    deref: seq<Value> -> Option<Value>,
    closure: (Term, Env) -> Option<Value>)

  ghost predicate Agree(e1: Env, e2: Env, names: set<Name>) {
    forall n <- names :: e1(n) == e2(n)
  }

  /** A comprehension's value depends only on the variables that occur in it. */
  ghost predicate Lexical(w: World) {
    forall t: Term, e1: Env, e2: Env :: Agree(e1, e2, Vars(OPERANDS, t)) ==> w.closure(t, e1) == w.closure(t, e2)
  }

  ghost function Eval(w: World, env: Env, t: Term): Option<Value>
    decreases t, 0
  {
    match t
    case Const(s) => Some(VScalar(s))
    case Var(n) => Some(env(n))
    case Ref(parts) => (match EvalSeq(w, env, parts) case None => None case Some(vs) => w.deref(vs))
    case Call(op, args) => (match EvalSeq(w, env, args) case None => None case Some(vs) => Apply(w, op, vs))
    case Array(elems) => (match EvalSeq(w, env, elems) case None => None case Some(vs) => Some(VArray(vs)))
    case Object(items) => (match EvalItems(w, env, items) case None => None case Some(m) => Some(VObject(m)))
    case Set(members) => (match EvalSeq(w, env, members) case None => None case Some(vs) => Some(VSet(set v | v in vs)))
    case Comprehension(_, _, _) => w.closure(t, env)
  }

  ghost function EvalSeq(w: World, env: Env, ts: seq<Term>): (r: Option<seq<Value>>)
    decreases ts, 0
    ensures r.Some? ==> |r.value| == |ts|
  {
    if ts == [] then Some([]) else
    match (Eval(w, env, ts[0]), EvalSeq(w, env, ts[1..]))
    case (Some(v), Some(vs)) => Some([v] + vs)
    case _ => None
  }

  /** Of two items of an object literal with equal keys the later one counts. */
  ghost function EvalItems(w: World, env: Env, items: seq<Item>): Option<map<Value, Value>>
    decreases items, 0
  {
    if items == [] then Some(map[]) else
    match (EvalItem(w, env, items[0]), EvalItems(w, env, items[1..]))
    case (Some((k, v)), Some(m)) => Some(if k in m then m else m[k := v])
    case _ => None
  }

  ghost function EvalItem(w: World, env: Env, item: Item): Option<(Value, Value)>
    decreases item, 0
  {
    match (Eval(w, env, item.key), Eval(w, env, item.value))
    case (Some(k), Some(v)) => Some((k, v))
    case _ => None
  }

  /** A call in term position supplies exactly the operator's inputs; equality is true or has no value. */
  ghost function Apply(w: World, op: Term, vs: seq<Value>): Option<Value> {
    if op == EQUALITY then (if |vs| == 2 && vs[0] == vs[1] then Some(VScalar(Boolean(true))) else None)
    else if |vs| != w.arity(op) then None
    else w.call(op, vs)
  }

  ghost predicate Truthy(v: Option<Value>) {
    v.Some? && v.value != VScalar(Boolean(false))
  }

  /**
    An operation with one operand more than its operator takes captures the result in the last operand;
    otherwise it holds when the result is defined and not false.
   */
  ghost predicate HoldsForm(w: World, env: Env, f: Form) {
    match f
    case Single(t) => Truthy(Eval(w, env, t))
    case Operation(op, operands) =>
      match EvalSeq(w, env, operands)
      case None => false
      case Some(vs) =>
        if op != EQUALITY && |vs| == w.arity(op) + 1
        then Apply(w, op, vs[..|vs| - 1]) == Some(vs[|vs| - 1])
        else Truthy(Apply(w, op, vs))
  }

  ghost predicate Holds(w: World, env: Env, e: Expr) {
    if e.negated then !HoldsForm(w, env, e.form) else HoldsForm(w, env, e.form)
  }

  ghost predicate HoldsBody(w: World, env: Env, body: seq<Expr>) {
    forall i | 0 <= i < |body| :: Holds(w, env, body[i])
  }

  // A term's value depends only on the variables that occur in it.

  lemma {:induction false} EvalLocal(w: World, e1: Env, e2: Env, t: Term)
    requires Lexical(w) && Agree(e1, e2, Vars(OPERANDS, t))
    ensures Eval(w, e1, t) == Eval(w, e2, t)
    decreases t, 0
  {
    match t
    case Const(_) =>
    case Var(_) =>
    case Ref(parts) => EvalSeqLocal(w, e1, e2, parts);
    case Call(_, args) => EvalSeqLocal(w, e1, e2, args);
    case Array(elems) => EvalSeqLocal(w, e1, e2, elems);
    case Object(items) => EvalItemsLocal(w, e1, e2, items);
    case Set(members) => EvalSeqLocal(w, e1, e2, members);
    case Comprehension(_, _, _) =>
  }

  lemma {:induction false} EvalSeqLocal(w: World, e1: Env, e2: Env, ts: seq<Term>)
    requires Lexical(w) && Agree(e1, e2, SeqVars(OPERANDS, ts))
    ensures EvalSeq(w, e1, ts) == EvalSeq(w, e2, ts)
    decreases ts, 0
  {
    if ts != [] {
      EvalLocal(w, e1, e2, ts[0]);
      EvalSeqLocal(w, e1, e2, ts[1..]);
    }
  }

  lemma {:induction false} EvalItemsLocal(w: World, e1: Env, e2: Env, items: seq<Item>)
    requires Lexical(w) && Agree(e1, e2, ItemsVars(OPERANDS, items))
    ensures EvalItems(w, e1, items) == EvalItems(w, e2, items)
    decreases items, 0
  {
    if items != [] {
      assert ItemVars(OPERANDS, items[0]) <= ItemsVars(OPERANDS, items);
      EvalItemLocal(w, e1, e2, items[0]);
      EvalItemsLocal(w, e1, e2, items[1..]);
    }
  }

  lemma EvalItemLocal(w: World, e1: Env, e2: Env, item: Item)
    requires Lexical(w) && Agree(e1, e2, ItemVars(OPERANDS, item))
    ensures EvalItem(w, e1, item) == EvalItem(w, e2, item)
    decreases item, 0
  {
    EvalLocal(w, e1, e2, item.key);
    EvalLocal(w, e1, e2, item.value);
  }

  lemma {:induction false} HoldsLocal(w: World, e1: Env, e2: Env, e: Expr)
    requires Lexical(w) && Agree(e1, e2, ExprVars(OPERANDS, e))
    ensures Holds(w, e1, e) == Holds(w, e2, e)
  {
    match e.form
    case Single(t) => EvalLocal(w, e1, e2, t);
    case Operation(_, operands) => EvalSeqLocal(w, e1, e2, operands);
  }

  lemma {:induction false} HoldsBodyLocal(w: World, e1: Env, e2: Env, body: seq<Expr>)
    requires Lexical(w) && Agree(e1, e2, BodyVars(OPERANDS, body))
    ensures HoldsBody(w, e1, body) == HoldsBody(w, e2, body)
  {
    if body != [] {
      HoldsLocal(w, e1, e2, body[0]);
      HoldsBodyLocal(w, e1, e2, body[1..]);
      assert HoldsBody(w, e1, body) == (Holds(w, e1, body[0]) && HoldsBody(w, e1, body[1..])) by { SplitBody(w, e1, body); }
      assert HoldsBody(w, e2, body) == (Holds(w, e2, body[0]) && HoldsBody(w, e2, body[1..])) by { SplitBody(w, e2, body); }
    }
  }

  lemma {:induction false} SplitBody(w: World, env: Env, body: seq<Expr>)
    requires body != []
    ensures HoldsBody(w, env, body) <==> Holds(w, env, body[0]) && HoldsBody(w, env, body[1..])
  {
  }

  lemma {:induction false} HoldsBodyConcat(w: World, env: Env, xs: seq<Expr>, ys: seq<Expr>)
    ensures HoldsBody(w, env, xs + ys) <==> HoldsBody(w, env, xs) && HoldsBody(w, env, ys)
  {
    if HoldsBody(w, env, xs + ys) {
      assert forall i | 0 <= i < |xs| :: xs[i] == (xs + ys)[i];
      assert forall i | 0 <= i < |ys| :: ys[i] == (xs + ys)[|xs| + i];
    }
  }
}
