/** The unifier itself, which updates its set and its dependency map in place. */
module Unifier {
  import opened Syntax
  import opened UnifierSpec

  type Unknown = map<Name, set<Name>>

  /**
    What marking `xs` safe has done so far, while the variables in `pending` are unified but not yet
    struck off everywhere.
   */
  ghost predicate Progress(u: set<Name>, k: Unknown, xs: set<Name>, pending: set<Name>, u': set<Name>, k': Unknown) {
    && u + xs <= u'
    && k'.Keys == k.Keys - u'
    && (forall a | a in k' :: k[a] - u' <= k'[a] <= k[a] && k'[a] * u' <= pending)
    && (forall a | a in k && a in u' :: k[a] <= u')
    && (forall d {:trigger Closed(d, k)} | Closed(d, k) && u + xs <= d :: u' <= d)
  }

  /** Nobody outside `except` waits for nothing. */
  ghost predicate Live(k: Unknown, except: set<Name>) {
    forall a | a in k && a !in except :: k[a] != {}
  }

  ghost predicate Entry(u: set<Name>, k: Unknown, pending: set<Name>) {
    forall a | a in k :: a !in u && k[a] * u <= pending
  }

  ghost function Edges(k: Unknown): set<(Name, Name)> {
    set a, v | a in k && v in k[a] :: (a, v)
  }

  /** The size that drops before every recursive call. */
  ghost function Size(k: Unknown): nat {
    |k.Keys| + |Edges(k)|
  }

  lemma SubsetSize<T>(s: set<T>, t: set<T>)
    requires s <= t
    ensures |s| <= |t| && (s != t ==> |s| < |t|)
  {
    assert |t - s| == |t| - |s|;
    if s != t {
      var x :| x in t - s;
      assert |t - s| > 0;
    }
  }

  ghost predicate Shrinks(k: Unknown, k': Unknown) {
    k'.Keys <= k.Keys && forall a | a in k' :: k'[a] <= k[a]
  }

  lemma SizeShrinks(k: Unknown, k': Unknown)
    requires Shrinks(k, k')
    ensures Size(k') <= Size(k)
    ensures k'.Keys != k.Keys || (exists a :: a in k' && k'[a] != k[a]) ==> Size(k') < Size(k)
  {
    assert Edges(k') <= Edges(k);
    SubsetSize(k'.Keys, k.Keys);
    SubsetSize(Edges(k'), Edges(k));
    if a :| a in k' && k'[a] != k[a] {
      var v :| v in k[a] && v !in k'[a];
      assert (a, v) in Edges(k) && (a, v) !in Edges(k');
    }
  }

  lemma ProgressNone(u: set<Name>, k: Unknown, pending: set<Name>)
    requires Entry(u, k, pending)
    ensures Progress(u, k, {}, pending, u, k)
  {
  }

  lemma ProgressSize(u: set<Name>, k: Unknown, xs: set<Name>, pending: set<Name>, u': set<Name>, k': Unknown)
    requires Progress(u, k, xs, pending, u', k')
    ensures Entry(u', k', pending) && Shrinks(k, k') && Size(k') <= Size(k)
  {
    SizeShrinks(k, k');
  }

  lemma ProgressThen(u: set<Name>, k: Unknown, xs: set<Name>, ys: set<Name>, pending: set<Name>,
                     u1: set<Name>, k1: Unknown, u2: set<Name>, k2: Unknown)
    requires Progress(u, k, xs, pending, u1, k1) && Progress(u1, k1, ys, pending, u2, k2)
    ensures Progress(u, k, xs + ys, pending, u2, k2)
  {
    forall a | a in k && a in u2 ensures k[a] <= u2 {
      if a !in u1 { assert a in k1 && k1[a] <= u2; }
    }
    forall d | Closed(d, k) && u + (xs + ys) <= d ensures u2 <= d {
      assert u1 <= d;
      forall a | a in k1 ensures (a in d ==> k1[a] <= d) && (k1[a] <= d ==> a in d) {
        assert k[a] <= k1[a] + u1;
      }
      assert Closed(d, k1);
    }
  }

  /** The variables waiting together with `x` have been marked. */
  lemma DependenciesDone(u: set<Name>, k: Unknown, x: Name, pending: set<Name>, vs: set<Name>, u': set<Name>, k': Unknown)
    requires Entry(u, k, pending)
    requires vs == if x in k then k[x] else {}
    requires Progress(u + {x}, k - {x}, vs, pending + {x}, u', k')
    ensures Progress(u, k, {x}, pending + {x}, u', k')
  {
    forall d | Closed(d, k) && u + {x} <= d ensures u' <= d {
      assert Closed(d, k - {x});
      assert vs <= d;
    }
  }

  /** Striking the unified variable `x` off the set of `v`. */
  lemma StrikeOff(u: set<Name>, k: Unknown, xs: set<Name>, pending: set<Name>, u': set<Name>, k': Unknown, v: Name, x: Name)
    requires Progress(u, k, xs, pending, u', k') && v in k' && x in u'
    ensures Progress(u, k, xs, pending, u', k'[v := k'[v] - {x}])
  {
  }

  lemma AllStruck(u: set<Name>, k: Unknown, x: Name, pending: set<Name>, u': set<Name>, k': Unknown)
    requires Progress(u, k, {x}, pending + {x}, u', k')
    requires forall a | a in k' :: x !in k'[a]
    ensures Progress(u, k, {x}, pending, u', k')
  {
  }

  /** A variable left waiting for nothing belongs to every closed set. */
  lemma EmptiedIsDue(u: set<Name>, k: Unknown, xs: set<Name>, pending: set<Name>, u': set<Name>, k': Unknown, v: Name,
                     u2: set<Name>, k2: Unknown)
    requires Progress(u, k, xs, pending, u', k') && v in k' && k'[v] == {}
    requires Progress(u', k', {v}, pending, u2, k2)
    ensures Progress(u, k, xs, pending, u2, k2)
  {
    ProgressThen(u, k, xs, {v}, pending, u', k', u2, k2);
    forall d | Closed(d, k) && u + xs <= d ensures u2 <= d {
      assert k[v] <= u' <= d;
      assert v in d;
    }
  }

  lemma Finished(st: State, xs: set<Name>, st': State)
    requires Saturated(st) && Live(st'.unknown, {})
    requires Progress(st.unified, st.unknown, xs, {}, st'.unified, st'.unknown)
    ensures st' == Close(st, xs)
  {
    forall a | a in st'.unknown ensures st'.unknown[a] == st.unknown[a] - st'.unified {
      assert st'.unknown[a] * st'.unified == {};
      assert forall v :: v in st'.unknown[a] && v in st'.unified ==> v in st'.unknown[a] * st'.unified;
    }
    forall a | a in st.unknown && st.unknown[a] <= st'.unified ensures a in st'.unified {

    }
    CloseIs(st, xs, st');
  }

  lemma AwaitTwice(st: State, a: Name, vs: set<Name>, v: Name)
    ensures Await(Await(st, a, vs), a, {v}) == Await(st, a, vs + {v})
  {
    var before := if a in st.unknown then st.unknown[a] else {};
    assert before + vs + {v} == before + (vs + {v});
  }

  class Unifier {
    const safe: set<Name>
    var unified: set<Name>
    var unknown: map<Name, set<Name>>

    ghost function St(): State
      reads this
    {
      State(unified, unknown)
    }

    constructor (safe: set<Name>)
      ensures this.safe == safe && St() == EMPTY
    {
      this.safe := safe;
      unified, unknown := {}, map[];
    }

    /** Marks `x` in the middle of a propagation; terminates because `Size(unknown)` keeps dropping. */
    method Propagate(x: Name, ghost pending: set<Name>)
      requires Entry(unified, unknown, pending) && Live(unknown, {x})
      modifies this`unified, this`unknown
      ensures Progress(old(unified), old(unknown), {x}, pending, unified, unknown)
      ensures Live(unknown, {})
      decreases Size(unknown), 2
    {
      ghost var u, k := unified, unknown;
      unified := unified + {x};
      var vs := if x in unknown then unknown[x] else {};
      unknown := unknown - {x};
      SizeShrinks(k, unknown);
      PropagateAll(vs, pending + {x});
      DependenciesDone(u, k, x, pending, vs, unified, unknown);
      ProgressSize(u, k, {x}, pending + {x}, unified, unknown);
      StrikeAll(x, pending + {x}, u, k);
      AllStruck(u, k, x, pending, unified, unknown);
    }

    method PropagateAll(vs: set<Name>, ghost pending: set<Name>)
      requires Entry(unified, unknown, pending) && Live(unknown, {})
      modifies this`unified, this`unknown
      ensures Progress(old(unified), old(unknown), vs, pending, unified, unknown)
      ensures Live(unknown, {})
      decreases Size(unknown), if vs == {} then 0 else 4
    {
      ghost var u, k := unified, unknown;
      ghost var done: set<Name> := {};
      var todo := vs;
      ProgressNone(u, k, pending);
      while todo != {}
        invariant done + todo == vs && Progress(u, k, done, pending, unified, unknown) && Live(unknown, {})
        decreases todo
      {
        var v :| v in todo;
        todo := todo - {v};
        ProgressSize(u, k, done, pending, unified, unknown);
        PropagateNext(v, done, pending, u, k);
        done := done + {v};
      }
    }

    method PropagateNext(v: Name, ghost done: set<Name>, ghost pending: set<Name>, ghost u: set<Name>, ghost k: Unknown)
      requires Progress(u, k, done, pending, unified, unknown) && Live(unknown, {})
      modifies this`unified, this`unknown
      ensures Progress(u, k, done + {v}, pending, unified, unknown) && Live(unknown, {})
      decreases Size(unknown), 3
    {
      ghost var u2, k2 := unified, unknown;
      ProgressSize(u, k, done, pending, u2, k2);
      Propagate(v, pending);
      ProgressThen(u, k, done, {v}, pending, u2, k2, unified, unknown);
    }

    /** Strikes `x` off every pending set, marking whoever is left waiting for nothing. */
    method StrikeAll(x: Name, ghost pending: set<Name>, ghost u: set<Name>, ghost k: Unknown)
      requires x in pending && Progress(u, k, {x}, pending, unified, unknown) && Live(unknown, {})
      modifies this`unified, this`unknown
      ensures Progress(u, k, {x}, pending, unified, unknown) && Live(unknown, {})
      ensures forall a | a in unknown :: x !in unknown[a]
      decreases Size(unknown), 1
    {
      ghost var k0 := unknown;
      var todo := unknown.Keys;
      while todo != {}
        invariant Progress(u, k, {x}, pending, unified, unknown) && Live(unknown, {})
        invariant Shrinks(k0, unknown)
        invariant forall a | a in unknown :: a in todo || x !in unknown[a]
        decreases todo
      {
        var v :| v in todo;
        todo := todo - {v};
        if v in unknown && x in unknown[v] {
          SizeShrinks(k0, unknown);
          Strike(v, x, pending, u, k);
        }
      }
    }

    method Strike(v: Name, x: Name, ghost pending: set<Name>, ghost u: set<Name>, ghost k: Unknown)
      requires x in pending && Progress(u, k, {x}, pending, unified, unknown) && Live(unknown, {})
      requires v in unknown && x in unknown[v]
      modifies this`unified, this`unknown
      ensures Progress(u, k, {x}, pending, unified, unknown) && Live(unknown, {})
      ensures Shrinks(old(unknown), unknown)
      ensures v in unknown ==> x !in unknown[v]
      decreases Size(unknown), 0
    {
      StrikeOff(u, k, {x}, pending, unified, unknown, v, x);
      ghost var k1 := unknown;
      unknown := unknown[v := unknown[v] - {x}];
      if unknown[v] == {} {
        ghost var u2, k2 := unified, unknown;
        SizeShrinks(k1, k2);
        Propagate(v, pending);
        ProgressSize(u2, k2, {v}, pending, unified, unknown);
        EmptiedIsDue(u, k, {x}, pending, u2, k2, v, unified, unknown);
      }
    }

    predicate Safe(x: Name)
      reads this
    {
      x in safe || x in unified
    }

    method MarkSafe(x: Name)
      requires Saturated(St())
      modifies this`unified, this`unknown
      ensures St() == Close(old(St()), {x}) && Saturated(St())
    {
      ghost var st := St();
      Propagate(x, {});
      Finished(st, {x}, St());
      CloseSaturates(st, {x});
    }

    method MarkAllSafe(t: Term)
      requires Saturated(St())
      modifies this`unified, this`unknown
      ensures St() == Close(old(St()), Vars(UNIFIER_PARAMS, t)) && Saturated(St())
    {
      ghost var st := St();
      var todo := Vars(UNIFIER_PARAMS, t);
      ghost var done: set<Name> := {};
      CloseNothing(st, {});
      while todo != {}
        invariant done + todo == Vars(UNIFIER_PARAMS, t)
        invariant St() == Close(st, done) && Saturated(St())
        decreases todo
      {
        var v :| v in todo;
        MarkSafe(v);
        CloseTwice(st, done, {v});
        todo, done := todo - {v}, done + {v};
      }
      assert done == Vars(UNIFIER_PARAMS, t);
    }

    method MarkUnknown(a: Name, b: Name)
      modifies this`unknown
      ensures St() == Await(old(St()), a, {b})
    {
      if a !in unknown {
        unknown := unknown[a := {}];
      }
      unknown := unknown[a := unknown[a] + {b}];
    }

    method UnifyAll(a: Name, b: Term)
      requires Separate(safe, St())
      modifies this`unified, this`unknown
      ensures St() == UnifierSpec.UnifyAll(safe, a, b, old(St()))
    {
      if Safe(a) {
        MarkAllSafe(b);
      } else {
        var unsafe := Vars(UNIFIER_PARAMS, b) - safe - unified;
        if unsafe == {} {
          MarkSafe(a);
        } else {
          AwaitAll(a, unsafe);
        }
      }
    }

    method AwaitAll(a: Name, vs: set<Name>)
      requires vs != {}
      modifies this`unknown
      ensures St() == Await(old(St()), a, vs)
    {
      ghost var st := St();
      ghost var done: set<Name> := {};
      var todo := vs;
      while todo != {}
        invariant done + todo == vs
        invariant St() == if done == {} then st else Await(st, a, done)
        decreases todo
      {
        var v :| v in todo;
        MarkUnknown(a, v);
        AwaitTwice(st, a, done, v);
        assert done == {} ==> done + {v} == {v};
        todo, done := todo - {v}, done + {v};
      }
      assert done == vs;
    }

    /** Marks the operand that faces a known value. */
    method MarkKnown(b: Term)
      requires Saturated(St())
      modifies this`unified, this`unknown
      ensures St() == MarkOperand(b, old(St()))
    {
      if b.Var? {
        MarkSafe(b.name);
      } else if b.Array? || b.Object? {
        MarkAllSafe(b);
      }
    }

    method UnifyVar(x: Name, b: Term)
      requires Separate(safe, St())
      modifies this`unified, this`unknown
      ensures St() == UnifyTerms(safe, Var(x), b, old(St()))
    {
      match b
      case Var(y) =>
        if Safe(y) {
          MarkSafe(x);
        } else if Safe(x) {
          MarkSafe(y);
        } else {
          MarkUnknown(x, y);
          MarkUnknown(y, x);
        }
      case Array(_) => UnifyAll(x, b);
      case Object(_) => UnifyAll(x, b);
      case Ref(parts) => if RefSafe(parts, safe) { MarkSafe(x); }
      case Call(_, _) => if CallSafe(b, safe) { MarkSafe(x); }
      case _ => MarkSafe(x);
    }

    method Unify(a: Term, b: Term)
      requires Separate(safe, St())
      modifies this`unified, this`unknown
      ensures St() == UnifyTerms(safe, a, b, old(St())) && Separate(safe, St())
      decreases a, 0
    {
      UnifyKeepsSaturated(safe, a, b, St());
      match a
      case Var(x) => UnifyVar(x, b);
      case Ref(parts) => if RefSafe(parts, safe) { MarkKnown(b); }
      case Call(_, _) => if CallSafe(a, safe) { MarkKnown(b); }
      case Comprehension(kind, _, _) =>
        if b.Var? || (kind.ArrayKind? && b.Array?) || (kind.ObjectKind? && b.Object?) { MarkKnown(b); }
      case Array(elems) =>
        match b {
          case Var(y) => UnifyAll(y, a);
          case Comprehension(_, _, _) => MarkAllSafe(a);
          case Ref(parts) => if RefSafe(parts, safe) { MarkAllSafe(a); }
          case Call(_, _) => if CallSafe(b, safe) { MarkAllSafe(a); }
          case Array(others) => if |elems| == |others| { UnifyElems(elems, others); }
          case _ =>
        }
      case Object(items) =>
        match b {
          case Var(y) => UnifyAll(y, a);
          case Ref(parts) => if RefSafe(parts, safe) { MarkAllSafe(a); }
          case Call(_, _) => if CallSafe(b, safe) { MarkAllSafe(a); }
          case Object(others) => if |items| == |others| { UnifyItems(items, others); }
          case _ =>
        }
      case _ => if b.Var? { MarkSafe(b.name); }
    }

    method UnifyElems(xs: seq<Term>, ys: seq<Term>)
      requires Separate(safe, St()) && |xs| == |ys|
      modifies this`unified, this`unknown
      ensures St() == UnifierSpec.UnifyElems(safe, xs, ys, old(St()))
      decreases xs, 0
    {
      ghost var st := St();
      var i := 0;
      while i < |xs|
        invariant 0 <= i <= |xs| && Separate(safe, St())
        invariant UnifierSpec.UnifyElems(safe, xs[i..], ys[i..], St()) == UnifierSpec.UnifyElems(safe, xs, ys, st)
      {
        assert xs[i..][0] == xs[i] && xs[i..][1..] == xs[i + 1..] && ys[i..][1..] == ys[i + 1..];
        Unify(xs[i], ys[i]);
        i := i + 1;
      }
    }

    method UnifyItems(items: seq<Item>, others: seq<Item>)
      requires Separate(safe, St())
      modifies this`unified, this`unknown
      ensures St() == UnifierSpec.UnifyItems(safe, items, others, old(St()))
      decreases items, 0
    {
      ghost var st := St();
      var i := 0;
      while i < |items|
        invariant 0 <= i <= |items| && Separate(safe, St())
        invariant UnifierSpec.UnifyItems(safe, items[i..], others, St()) == UnifierSpec.UnifyItems(safe, items, others, st)
      {
        assert items[i..][0] == items[i] && items[i..][1..] == items[i + 1..];
        UnifyItem(items[i], others);
        i := i + 1;
      }
    }

    method UnifyItem(item: Item, others: seq<Item>)
      requires Separate(safe, St())
      modifies this`unified, this`unknown
      ensures St() == UnifierSpec.UnifyItem(safe, item, others, old(St())) && Separate(safe, St())
      decreases item, 0
    {
      var other := Get(others, item.key);
      if other.Some? {
        Unify(item.value, other.value);
      }
    }
  }

  /** The exported operation: a fresh unifier, run once, whatever order its maps are walked in. */
  method Unify(safe: set<Name>, a: Term, b: Term) returns (unified: set<Name>)
    ensures unified == UnifierSpec.Unify(safe, a, b)
  {
    var u := new Unifier(safe);
    u.Unify(a, b);
    unified := u.unified;
  }
}
