/** Looking up a trie is filtering: insertion adds a rule to exactly the traversals that match it. */
module IndexReach {
  import opened Syntax
  import opened Semantics
  import opened IndexTrie

  lemma {:induction false} InsertPathShaped(t: Trie, path: seq<Constraint>, rn: RuleNode, refs: seq<Term>)
    requires t.Node? && Shaped(t, refs) && Along(path, refs)
    ensures InsertPath(t, path, rn).Node? && Shaped(InsertPath(t, path, rn), refs)
    decreases |path|, 0, 0
  {
    if path != [] {
      var level := if t.next.Nil? then EMPTY.(ref := Some(path[0].ref)) else t.next;
      InsertValueShaped(level, path[0].pattern, path[1..], rn, refs);
    }
  }

  lemma {:induction false} InsertValueShaped(t: Trie, p: Pattern, rest: seq<Constraint>, rn: RuleNode, refs: seq<Term>)
    requires ShapedLevel(t, refs) && Along(rest, refs[1..])
    ensures ShapedLevel(InsertValue(t, p, rest, rn), refs)
    decreases |rest|, 2, 0
  {
    match p
    case Absent => InsertPathShaped(OrNew(t.undefined), rest, rn, refs[1..]);
    case AnyValue => InsertPathShaped(OrNew(t.any), rest, rn, refs[1..]);
    case Exactly(s) => InsertPathShaped(OrNew(At(t.scalars, s)), rest, rn, refs[1..]);
    case Tuple(slots) => InsertArrayShaped(OrNew(t.arrays), slots, rest, rn, refs[1..]);
  }

  lemma {:induction false} InsertArrayShaped(t: Trie, slots: seq<Slot>, rest: seq<Constraint>, rn: RuleNode, refs: seq<Term>)
    requires t.Node? && Shaped(t, refs) && Along(rest, refs)
    ensures InsertArray(t, slots, rest, rn).Node? && Shaped(InsertArray(t, slots, rest, rn), refs)
    decreases |rest|, 1, |slots|
  {
    if slots == [] {
      InsertPathShaped(t, rest, rn, refs);
    } else {
      match slots[0]
      case AnySlot => InsertArrayShaped(OrNew(t.any), slots[1..], rest, rn, refs);
      case ScalarSlot(s) => InsertArrayShaped(OrNew(At(t.scalars, s)), slots[1..], rest, rn, refs);
    }
  }

  // Insertion adds the rule to exactly the traversals that do not contradict its constraints.

  ghost function Hit(b: bool, rn: RuleNode): set<RuleNode> {
    if b then {rn} else {}
  }

  lemma {:induction false} ReachInsertPath(res: Resolver, t: Trie, path: seq<Constraint>, rn: RuleNode, refs: seq<Term>)
    requires t.Node? && Shaped(t, refs) && Along(path, refs)
    ensures Reach(res, InsertPath(t, path, rn)) == Reach(res, t) + Hit(MatchesAll(res, path), rn)
    decreases |path|, 0, 0
  {
    if path == [] {
      assert Own(Append(t, rn)) == Own(t) + {rn};
    } else {
      var level := if t.next.Nil? then EMPTY.(ref := Some(path[0].ref)) else t.next;
      ReachInsertLevel(res, level, path[0].pattern, path[1..], rn, refs);
      MatchesAllCons(res, path);
      if t.next.Nil? { EmptyReach(res, level); }
    }
  }

  lemma {:induction false} EmptyReach(res: Resolver, t: Trie)
    requires t.Node? && t == EMPTY.(ref := t.ref)
    ensures ReachLevel(res, t) == {} && Reach(res, t) == {} && ReachUnknown(res, t) == {}
  {
    assert Reach(res, t) == {};
    assert ReachScalars(res, t) == {};
    assert ReachUnknown(res, t) == {};
    if t.ref.Some? && res(t.ref.value).Known? { assert ReachValue(res, t, res(t.ref.value).value) == {}; }
  }

  lemma {:induction false} EmptyReachArray(res: Resolver, vs: seq<Value>)
    ensures ReachArray(res, EMPTY, vs) == {}
  {
    EmptyReach(res, EMPTY);
  }

  lemma {:induction false} MatchesAllCons(res: Resolver, path: seq<Constraint>)
    requires path != []
    ensures MatchesAll(res, path) <==> Matches(path[0].pattern, res(path[0].ref)) && MatchesAll(res, path[1..])
  {
    if Matches(path[0].pattern, res(path[0].ref)) && MatchesAll(res, path[1..]) {
      forall i | 0 <= i < |path| ensures Matches(path[i].pattern, res(path[i].ref)) {
        if i > 0 { assert path[i] == path[1..][i - 1]; }
      }
    }
  }

  lemma {:induction false} ReachInsertLevel(res: Resolver, t: Trie, p: Pattern, rest: seq<Constraint>, rn: RuleNode, refs: seq<Term>)
    requires ShapedLevel(t, refs) && Along(rest, refs[1..])
    ensures ReachLevel(res, InsertValue(t, p, rest, rn)) ==
            ReachLevel(res, t) + Hit(Matches(p, res(refs[0])) && MatchesAll(res, rest), rn)
    decreases |rest|, 4, 0
  {
    EmptyReach(res, EMPTY);
    match res(refs[0])
    case Unknown => ReachUnknownInsertValue(res, t, p, rest, rn, refs);
    case Undefined => if p.Absent? { ReachInsertPath(res, OrNew(t.undefined), rest, rn, refs[1..]); }
    case Known(v) => ReachInsertKnown(res, t, p, rest, rn, refs, v);
  }

  lemma {:induction false} ReachInsertKnown(res: Resolver, t: Trie, p: Pattern, rest: seq<Constraint>, rn: RuleNode,
                                            refs: seq<Term>, v: Value)
    requires ShapedLevel(t, refs) && Along(rest, refs[1..]) && res(refs[0]) == Known(v)
    ensures ReachLevel(res, InsertValue(t, p, rest, rn)) == ReachLevel(res, t) + Hit(Matches(p, Known(v)) && MatchesAll(res, rest), rn)
    decreases |rest|, 3, 0
  {
    EmptyReach(res, EMPTY);
    match p
    case Absent =>
      ReachInsertPath(res, OrNew(t.undefined), rest, rn, refs[1..]);
      var child := InsertPath(OrNew(t.undefined), rest, rn);
      assert ReachValue(res, t.(undefined := child), v) == ReachValue(res, t, v);
      KnownLevels(res, t, t.(undefined := child), v, Hit(MatchesAll(res, rest), rn), {}, {});
    case AnyValue =>
      ReachInsertPath(res, OrNew(t.any), rest, rn, refs[1..]);
      var child := InsertPath(OrNew(t.any), rest, rn);
      assert ReachValue(res, t.(any := child), v) == ReachValue(res, t, v);
      KnownLevels(res, t, t.(any := child), v, {}, Hit(MatchesAll(res, rest), rn), {});
    case Exactly(s) =>
      ReachInsertPath(res, OrNew(At(t.scalars, s)), rest, rn, refs[1..]);
      var child := InsertPath(OrNew(At(t.scalars, s)), rest, rn);
      KnownScalar(res, t, s, child, v, Hit(MatchesAll(res, rest), rn));
    case Tuple(slots) => ReachInsertTuple(res, t, slots, rest, rn, refs, v);
  }

  lemma {:induction false} KnownScalar(res: Resolver, t: Trie, s: Scalar, child: Trie, v: Value, extra: set<RuleNode>)
    requires t.Node? && t.ref.Some? && res(t.ref.value) == Known(v)
    requires Reach(res, child) == Reach(res, At(t.scalars, s)) + extra
    ensures ReachLevel(res, t.(scalars := t.scalars[s := child])) == ReachLevel(res, t) + (if v == VScalar(s) then extra else {})
  {
    var t' := t.(scalars := t.scalars[s := child]);
    assert ReachValue(res, t', v) == ReachValue(res, t, v) + (if v == VScalar(s) then extra else {});
    KnownLevels(res, t, t', v, {}, {}, if v == VScalar(s) then extra else {});
  }

  lemma {:induction false} ReachInsertTuple(res: Resolver, t: Trie, slots: seq<Slot>, rest: seq<Constraint>, rn: RuleNode,
                                            refs: seq<Term>, v: Value)
    requires ShapedLevel(t, refs) && Along(rest, refs[1..]) && res(refs[0]) == Known(v)
    ensures ReachLevel(res, InsertValue(t, Tuple(slots), rest, rn)) ==
            ReachLevel(res, t) + Hit(Matches(Tuple(slots), Known(v)) && MatchesAll(res, rest), rn)
    decreases |rest|, 2, 0
  {
    var child := InsertArray(OrNew(t.arrays), slots, rest, rn);
    var t', h := t.(arrays := child), Hit(Matches(Tuple(slots), Known(v)) && MatchesAll(res, rest), rn);
    if v.VArray? {
      EmptyReachArray(res, v.elems);
      ReachInsertArray(res, OrNew(t.arrays), slots, rest, rn, refs[1..], v.elems);
      assert ReachValue(res, t', v) == ReachArray(res, child, v.elems);
    }
    assert ReachValue(res, t', v) == ReachValue(res, t, v) + h;
    KnownLevels(res, t, t', v, {}, {}, h);
  }

  lemma {:induction false} KnownLevels(res: Resolver, t: Trie, t': Trie, v: Value, u: set<RuleNode>, a: set<RuleNode>, b: set<RuleNode>)
    requires t.Node? && t'.Node? && t.ref == t'.ref && t.ref.Some? && res(t.ref.value) == Known(v)
    requires Reach(res, t'.undefined) == Reach(res, t.undefined) + u
    requires Reach(res, t'.any) == Reach(res, t.any) + a
    requires ReachValue(res, t', v) == ReachValue(res, t, v) + b
    ensures ReachLevel(res, t') == ReachLevel(res, t) + (u + a + b)
  {
  }

  lemma {:induction false} ReachInsertArray(res: Resolver, t: Trie, slots: seq<Slot>, rest: seq<Constraint>, rn: RuleNode,
                                            refs: seq<Term>, vs: seq<Value>)
    requires t.Node? && Shaped(t, refs) && Along(rest, refs)
    ensures ReachArray(res, InsertArray(t, slots, rest, rn), vs) ==
            ReachArray(res, t, vs) + Hit(SlotsMatch(slots, vs) && MatchesAll(res, rest), rn)
    decreases |rest|, 1, |slots|
  {
    if slots == [] {
      ReachInsertPath(res, t, rest, rn, refs);
      InsertPathBranches(t, rest, rn);
    } else if vs == [] {
      InsertArrayKeeps(t, slots, rest, rn);
    } else {
      ReachInsertSlot(res, t, slots, rest, rn, refs, vs);
    }
  }

  /** Inserting along a path changes a node's own rules or what comes next, not its branches. */
  lemma {:induction false} InsertPathBranches(t: Trie, path: seq<Constraint>, rn: RuleNode)
    requires t.Node?
    ensures var t' := InsertPath(t, path, rn);
            t'.Node? && t'.ref == t.ref && t'.scalars == t.scalars && t'.any == t.any && t'.undefined == t.undefined && t'.arrays == t.arrays
  {
  }

  /** Inserting an array pattern with slots left changes a branch only. */
  lemma {:induction false} InsertArrayKeeps(t: Trie, slots: seq<Slot>, rest: seq<Constraint>, rn: RuleNode)
    requires t.Node? && slots != []
    ensures var t' := InsertArray(t, slots, rest, rn);
            t'.Node? && t'.rules == t.rules && t'.next == t.next && t'.undefined == t.undefined && t'.arrays == t.arrays
  {
  }

  lemma {:induction false} ReachInsertSlot(res: Resolver, t: Trie, slots: seq<Slot>, rest: seq<Constraint>, rn: RuleNode,
                                           refs: seq<Term>, vs: seq<Value>)
    requires t.Node? && Shaped(t, refs) && Along(rest, refs) && slots != [] && vs != []
    ensures ReachArray(res, InsertArray(t, slots, rest, rn), vs) ==
            ReachArray(res, t, vs) + Hit(SlotsMatch(slots, vs) && MatchesAll(res, rest), rn)
    decreases |rest|, 1, |slots|, 0
  {
    SlotsMatchCons(slots, vs);
    EmptyReachArray(res, vs[1..]);
    var h := Hit(SlotsMatch(slots[1..], vs[1..]) && MatchesAll(res, rest), rn);
    match slots[0]
    case AnySlot =>
      ReachInsertArray(res, OrNew(t.any), slots[1..], rest, rn, refs, vs[1..]);
      ArrayAny(res, t, InsertArray(OrNew(t.any), slots[1..], rest, rn), vs, h);
    case ScalarSlot(s) =>
      ReachInsertArray(res, OrNew(At(t.scalars, s)), slots[1..], rest, rn, refs, vs[1..]);
      ArrayScalar(res, t, s, InsertArray(OrNew(At(t.scalars, s)), slots[1..], rest, rn), vs, h);
  }

  lemma {:induction false} ArrayAny(res: Resolver, t: Trie, child: Trie, vs: seq<Value>, extra: set<RuleNode>)
    requires t.Node? && vs != [] && ReachArray(res, child, vs[1..]) == ReachArray(res, t.any, vs[1..]) + extra
    ensures ReachArray(res, t.(any := child), vs) == ReachArray(res, t, vs) + extra
  {
    assert ReachArrayScalar(res, t.(any := child), vs) == ReachArrayScalar(res, t, vs);
  }

  lemma {:induction false} ArrayScalar(res: Resolver, t: Trie, s: Scalar, child: Trie, vs: seq<Value>, extra: set<RuleNode>)
    requires t.Node? && vs != [] && ReachArray(res, child, vs[1..]) == ReachArray(res, At(t.scalars, s), vs[1..]) + extra
    ensures ReachArray(res, t.(scalars := t.scalars[s := child]), vs) ==
            ReachArray(res, t, vs) + (if vs[0] == VScalar(s) then extra else {})
  {
    var t' := t.(scalars := t.scalars[s := child]);
    assert ReachArrayScalar(res, t', vs) == ReachArrayScalar(res, t, vs) + (if vs[0] == VScalar(s) then extra else {});
  }

  lemma {:induction false} SlotsMatchCons(slots: seq<Slot>, vs: seq<Value>)
    requires slots != [] && vs != []
    ensures SlotsMatch(slots, vs) <==> SlotMatches(slots[0], vs[0]) && SlotsMatch(slots[1..], vs[1..])
  {
    if SlotMatches(slots[0], vs[0]) && SlotsMatch(slots[1..], vs[1..]) {
      forall i | 0 <= i < |slots| ensures SlotMatches(slots[i], vs[i]) {
        if i > 0 { assert slots[i] == slots[1..][i - 1] && vs[i] == vs[1..][i - 1]; }
      }
    }
  }

  lemma {:induction false} ReachUnknownInsertValue(res: Resolver, t: Trie, p: Pattern, rest: seq<Constraint>, rn: RuleNode, refs: seq<Term>)
    requires ShapedLevel(t, refs) && Along(rest, refs[1..])
    ensures ReachUnknown(res, InsertValue(t, p, rest, rn)) == ReachUnknown(res, t) + Hit(MatchesAll(res, rest), rn)
    decreases |rest|, 2, 0
  {
    EmptyReach(res, EMPTY);
    match p
    case Absent => ReachUnknownInsertPath(res, OrNew(t.undefined), rest, rn, refs[1..]);
    case AnyValue => ReachUnknownInsertPath(res, OrNew(t.any), rest, rn, refs[1..]);
    case Exactly(s) =>
      ReachUnknownInsertPath(res, OrNew(At(t.scalars, s)), rest, rn, refs[1..]);
      ReachUnknownScalar(res, t, s, InsertPath(OrNew(At(t.scalars, s)), rest, rn), Hit(MatchesAll(res, rest), rn));
    case Tuple(slots) => ReachUnknownInsertArray(res, OrNew(t.arrays), slots, rest, rn, refs[1..]);
  }

  /** Replacing one scalar branch by one that reaches `extra` more. */
  lemma {:induction false} ReachUnknownScalar(res: Resolver, t: Trie, s: Scalar, child: Trie, extra: set<RuleNode>)
    requires t.Node? && ReachUnknown(res, child) == ReachUnknown(res, At(t.scalars, s)) + extra
    ensures ReachUnknown(res, t.(scalars := t.scalars[s := child])) == ReachUnknown(res, t) + extra
  {
    var t' := t.(scalars := t.scalars[s := child]);
    assert Reach(res, t') == Reach(res, t);
    var before, after := ReachScalars(res, t), ReachScalars(res, t');
    forall x | x in before ensures x in after {
      var k :| k in t.scalars && x in ReachUnknown(res, t.scalars[k]);
      assert k in t'.scalars && x in ReachUnknown(res, t'.scalars[k]);
    }
    forall x | x in extra ensures x in after {
      assert s in t'.scalars && x in ReachUnknown(res, t'.scalars[s]);
    }
    forall x | x in after ensures x in before + extra {
      var k :| k in t'.scalars && x in ReachUnknown(res, t'.scalars[k]);
      if k == s && x !in extra { assert s in t.scalars && x in ReachUnknown(res, t.scalars[s]); }
      if k != s { assert k in t.scalars && x in ReachUnknown(res, t.scalars[k]); }
    }
  }

  lemma {:induction false} ReachUnknownAny(res: Resolver, t: Trie, child: Trie, extra: set<RuleNode>)
    requires t.Node? && ReachUnknown(res, child) == ReachUnknown(res, t.any) + extra
    ensures ReachUnknown(res, t.(any := child)) == ReachUnknown(res, t) + extra
  {
    var t' := t.(any := child);
    assert Reach(res, t') == Reach(res, t) && ReachScalars(res, t') == ReachScalars(res, t);
  }

  lemma {:induction false} ReachUnknownInsertPath(res: Resolver, t: Trie, path: seq<Constraint>, rn: RuleNode, refs: seq<Term>)
    requires t.Node? && Shaped(t, refs) && Along(path, refs)
    ensures ReachUnknown(res, InsertPath(t, path, rn)) == ReachUnknown(res, t) + Hit(MatchesAll(res, path), rn)
    decreases |path|, 1, 0
  {
    ReachInsertPath(res, t, path, rn, refs);
    InsertPathBranches(t, path, rn);
    assert ReachScalars(res, InsertPath(t, path, rn)) == ReachScalars(res, t);
  }

  lemma {:induction false} ReachUnknownInsertArray(res: Resolver, t: Trie, slots: seq<Slot>, rest: seq<Constraint>, rn: RuleNode, refs: seq<Term>)
    requires t.Node? && Shaped(t, refs) && Along(rest, refs)
    ensures ReachUnknown(res, InsertArray(t, slots, rest, rn)) == ReachUnknown(res, t) + Hit(MatchesAll(res, rest), rn)
    decreases |rest|, 1, |slots| + 1
  {
    EmptyReach(res, EMPTY);
    if slots == [] {
      ReachUnknownInsertPath(res, t, rest, rn, refs);
    } else {
      var t' := InsertArray(t, slots, rest, rn);
      InsertArrayKeeps(t, slots, rest, rn);
      match slots[0]
      case AnySlot =>
        ReachUnknownInsertArray(res, OrNew(t.any), slots[1..], rest, rn, refs);
        ReachUnknownAny(res, t, t'.any, Hit(MatchesAll(res, rest), rn));
      case ScalarSlot(s) =>
        ReachUnknownInsertArray(res, OrNew(At(t.scalars, s)), slots[1..], rest, rn, refs);
        ReachUnknownScalar(res, t, s, InsertArray(OrNew(At(t.scalars, s)), slots[1..], rest, rn), Hit(MatchesAll(res, rest), rn));
    }
  }
}
