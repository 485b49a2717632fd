/** The trie behind the rule index: one level per reference, one branch per kind of value. */
module IndexTrie {
  import opened Syntax
  import opened Semantics

  /** What a rule demands of the value of one reference. */
  datatype Pattern = Absent | AnyValue | Exactly(scalar: Scalar) | Tuple(slots: seq<Slot>)
  datatype Slot = AnySlot | ScalarSlot(scalar: Scalar)

  datatype Constraint = Constraint(ref: Term, pattern: Pattern)

  /** What is known about a reference when the index is asked. */
  datatype Resolution = Known(value: Value) | Undefined | Unknown

  type Resolver = Term -> Resolution

  /** A rule at its place: the position of its chain in the rule list, and its place in the else chain. */
  datatype RuleNode = RuleNode(idx: nat, prio: nat, value: Term, complete: bool)

  datatype Trie = Nil | Node(
    ref: Option<Term>, rules: seq<RuleNode>, values: Option<set<Term>>,
    next: Trie, any: Trie, undefined: Trie, scalars: map<Scalar, Trie>, arrays: Trie)

  const EMPTY := Node(None, [], None, Nil, Nil, Nil, map[], Nil)

  // When a constraint is not contradicted.

  predicate SlotMatches(slot: Slot, v: Value) {
    slot.AnySlot? || v == VScalar(slot.scalar)
  }

  predicate SlotsMatch(slots: seq<Slot>, vs: seq<Value>) {
    |slots| == |vs| && forall i | 0 <= i < |slots| :: SlotMatches(slots[i], vs[i])
  }

  predicate Matches(p: Pattern, r: Resolution) {
    match (p, r)
    case (Absent, _) => true
    case (_, Unknown) => true
    case (_, Undefined) => false
    case (AnyValue, Known(_)) => true
    case (Exactly(s), Known(v)) => v == VScalar(s)
    case (Tuple(slots), Known(v)) => v.VArray? && SlotsMatch(slots, v.elems)
  }

  predicate MatchesAll(res: Resolver, path: seq<Constraint>) {
    forall i | 0 <= i < |path| :: Matches(path[i].pattern, res(path[i].ref))
  }

  // Insertion.

  function OrNew(t: Trie): Trie {
    if t.Nil? then EMPTY else t
  }

  function At(scalars: map<Scalar, Trie>, s: Scalar): Trie {
    if s in scalars then scalars[s] else Nil
  }

  function Append(t: Trie, rn: RuleNode): Trie
    requires t.Node?
  {
    t.(rules := t.rules + [rn],
       values := if t.values.Some? then Some(t.values.value + {rn.value}) else if rn.complete then Some({rn.value}) else None)
  }

  function InsertPath(t: Trie, path: seq<Constraint>, rn: RuleNode): Trie
    requires t.Node?
    decreases |path|, 0, 0
  {
    if path == [] then Append(t, rn)
    else
      var level := if t.next.Nil? then EMPTY.(ref := Some(path[0].ref)) else t.next;
      t.(next := InsertValue(level, path[0].pattern, path[1..], rn))
  }

  function InsertValue(t: Trie, p: Pattern, rest: seq<Constraint>, rn: RuleNode): Trie
    requires t.Node?
    decreases |rest|, 2, 0
  {
    match p
    case Absent => t.(undefined := InsertPath(OrNew(t.undefined), rest, rn))
    case AnyValue => t.(any := InsertPath(OrNew(t.any), rest, rn))
    case Exactly(s) => t.(scalars := t.scalars[s := InsertPath(OrNew(At(t.scalars, s)), rest, rn)])
    case Tuple(slots) => t.(arrays := InsertArray(OrNew(t.arrays), slots, rest, rn))
  }

  function InsertArray(t: Trie, slots: seq<Slot>, rest: seq<Constraint>, rn: RuleNode): Trie
    requires t.Node?
    decreases |rest|, 1, |slots|
  {
    if slots == [] then InsertPath(t, rest, rn)
    else match slots[0]
      case AnySlot => t.(any := InsertArray(OrNew(t.any), slots[1..], rest, rn))
      case ScalarSlot(s) => t.(scalars := t.scalars[s := InsertArray(OrNew(At(t.scalars, s)), slots[1..], rest, rn)])
  }

  // The rules a traversal reaches.

  ghost function Reach(res: Resolver, t: Trie): set<RuleNode>
    decreases t, 0
  {
    if t.Nil? then {} else Own(t) + ReachLevel(res, t.next)
  }

  ghost function ReachLevel(res: Resolver, t: Trie): set<RuleNode>
    decreases t, 2
  {
    if t.Nil? || t.ref.None? then {}
    else match res(t.ref.value)
      case Unknown => ReachUnknown(res, t)
      case Undefined => Reach(res, t.undefined)
      case Known(v) => Reach(res, t.undefined) + Reach(res, t.any) + ReachValue(res, t, v)
  }

  ghost function ReachValue(res: Resolver, t: Trie, v: Value): set<RuleNode>
    requires t.Node?
    decreases t, 1
  {
    match v
    case VArray(vs) => ReachArray(res, t.arrays, vs)
    case VScalar(s) => if s in t.scalars then Reach(res, t.scalars[s]) else {}
    case _ => {}
  }

  ghost function ReachArray(res: Resolver, t: Trie, vs: seq<Value>): set<RuleNode>
    decreases t, 1
  {
    if t.Nil? then {}
    else if vs == [] then Reach(res, t)
    else ReachArray(res, t.any, vs[1..]) + ReachArrayScalar(res, t, vs)
  }

  ghost function ReachArrayScalar(res: Resolver, t: Trie, vs: seq<Value>): set<RuleNode>
    requires t.Node? && vs != []
    decreases t, 0
  {
    if vs[0].VScalar? && vs[0].scalar in t.scalars then ReachArray(res, t.scalars[vs[0].scalar], vs[1..]) else {}
  }

  ghost function ReachUnknown(res: Resolver, t: Trie): set<RuleNode>
    decreases t, 1
  {
    if t.Nil? then {}
    else
      Reach(res, t) + ReachUnknown(res, t.undefined) + ReachUnknown(res, t.any) + ReachUnknown(res, t.arrays) + ReachScalars(res, t)
  }

  ghost function ReachScalars(res: Resolver, t: Trie): set<RuleNode>
    requires t.Node?
    decreases t, 0
  {
    set s, rn | s in t.scalars && rn in ReachUnknown(res, t.scalars[s]) :: rn
  }

  /** Every rule in the trie. */
  ghost function All(t: Trie): set<RuleNode>
    decreases t, 1
  {
    if t.Nil? then {} else Own(t) + All(t.next) + All(t.any) + All(t.undefined) + All(t.arrays) + AllScalars(t)
  }

  ghost function Own(t: Trie): set<RuleNode>
    requires t.Node?
  {
    set rn | rn in t.rules
  }

  ghost function AllScalars(t: Trie): set<RuleNode>
    requires t.Node?
    decreases t, 0
  {
    set s, rn | s in t.scalars && rn in All(t.scalars[s]) :: rn
  }

  // The shape insertion keeps: levels follow the list of references.

  ghost predicate Shaped(t: Trie, refs: seq<Term>)
    decreases t, 0
  {
    t.Nil? ||
    (&& (t.next.Nil? || ShapedLevel(t.next, refs))
     && Shaped(t.any, refs) && Shaped(t.undefined, refs) && Shaped(t.arrays, refs)
     && forall s | s in t.scalars :: Shaped(t.scalars[s], refs))
  }

  ghost predicate ShapedLevel(t: Trie, refs: seq<Term>)
    decreases t, 0
  {
    && refs != [] && t.Node? && t.ref == Some(refs[0]) && t.rules == [] && t.next.Nil?
    && Shaped(t.any, refs[1..]) && Shaped(t.undefined, refs[1..]) && Shaped(t.arrays, refs[1..])
    && forall s | s in t.scalars :: Shaped(t.scalars[s], refs[1..])
  }

  ghost predicate Along(path: seq<Constraint>, refs: seq<Term>) {
    path == [] || (|path| == |refs| && forall i | 0 <= i < |path| :: path[i].ref == refs[i])
  }
}
