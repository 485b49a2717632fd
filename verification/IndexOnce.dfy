/** Every inserted rule sits at one place of the trie, with its head value beside it. */
module IndexOnce {
  import opened Syntax
  import opened Semantics
  import opened IndexTrie
  import opened IndexReach

  // Insertion adds the rule to the trie, at one place only.

  lemma {:induction false} AllInsertPath(t: Trie, path: seq<Constraint>, rn: RuleNode)
    requires t.Node?
    ensures All(InsertPath(t, path, rn)) == All(t) + {rn}
    decreases |path|, 0, 0
  {
    InsertPathBranches(t, path, rn);
    var t' := InsertPath(t, path, rn);
    assert AllScalars(t') == AllScalars(t);
    if path == [] {
      assert Own(t') == Own(t) + {rn};
    } else {
      var level := if t.next.Nil? then EMPTY.(ref := Some(path[0].ref)) else t.next;
      if t.next.Nil? { EmptyAll(level); }
      AllInsertValue(level, path[0].pattern, path[1..], rn);
      assert Own(t') == Own(t);
    }
  }

  lemma {:induction false} EmptyAll(t: Trie)
    requires t.Node? && t == EMPTY.(ref := t.ref)
    ensures All(t) == {} && Once(t)
  {
  }

  lemma {:induction false} AllScalarsUpdate(t: Trie, s: Scalar, child: Trie, rn: RuleNode)
    requires t.Node? && All(child) == All(At(t.scalars, s)) + {rn}
    ensures AllScalars(t.(scalars := t.scalars[s := child])) == AllScalars(t) + {rn}
  {
    var t' := t.(scalars := t.scalars[s := child]);
    forall x | x in AllScalars(t) ensures x in AllScalars(t') {
      var k :| k in t.scalars && x in All(t.scalars[k]);
      assert k in t'.scalars && x in All(t'.scalars[k]);
    }
    assert s in t'.scalars && rn in All(t'.scalars[s]);
    forall x | x in AllScalars(t') ensures x in AllScalars(t) + {rn} {
      var k :| k in t'.scalars && x in All(t'.scalars[k]);
      if k == s && x != rn { assert s in t.scalars && x in All(t.scalars[s]); }
      if k != s { assert k in t.scalars && x in All(t.scalars[k]); }
    }
  }

  lemma {:induction false} AllInsertValue(t: Trie, p: Pattern, rest: seq<Constraint>, rn: RuleNode)
    requires t.Node?
    ensures All(InsertValue(t, p, rest, rn)) == All(t) + {rn}
    decreases |rest|, 2, 0
  {
    EmptyAll(EMPTY);
    var t' := InsertValue(t, p, rest, rn);
    assert Own(t') == Own(t);
    if !p.Exactly? { assert AllScalars(t') == AllScalars(t); }
    match p
    case Absent => AllInsertPath(OrNew(t.undefined), rest, rn);
    case AnyValue => AllInsertPath(OrNew(t.any), rest, rn);
    case Exactly(s) =>
      AllInsertPath(OrNew(At(t.scalars, s)), rest, rn);
      AllScalarsUpdate(t, s, InsertPath(OrNew(At(t.scalars, s)), rest, rn), rn);
    case Tuple(slots) => AllInsertArray(OrNew(t.arrays), slots, rest, rn);
  }

  lemma {:induction false} AllInsertArray(t: Trie, slots: seq<Slot>, rest: seq<Constraint>, rn: RuleNode)
    requires t.Node?
    ensures All(InsertArray(t, slots, rest, rn)) == All(t) + {rn}
    decreases |rest|, 1, |slots|
  {
    EmptyAll(EMPTY);
    if slots == [] {
      AllInsertPath(t, rest, rn);
    } else {
      var t' := InsertArray(t, slots, rest, rn);
      assert Own(t') == Own(t);
      match slots[0]
      case AnySlot =>
        AllInsertArray(OrNew(t.any), slots[1..], rest, rn);
        assert AllScalars(t') == AllScalars(t);
      case ScalarSlot(s) =>
        AllInsertArray(OrNew(At(t.scalars, s)), slots[1..], rest, rn);
        AllScalarsUpdate(t, s, InsertArray(OrNew(At(t.scalars, s)), slots[1..], rest, rn), rn);
    }
  }

  predicate NoDuplicates<T(==)>(s: seq<T>) {
    forall i, j | 0 <= i < j < |s| :: s[i] != s[j]
  }

  /** The rules of a node and of its branches are all different. */
  ghost predicate Apart(t: Trie)
    requires t.Node?
  {
    && NoDuplicates(t.rules)
    && Own(t) !! All(t.next) !! All(t.any) !! All(t.undefined) !! All(t.arrays) !! AllScalars(t)
    && forall s, s' | s in t.scalars && s' in t.scalars && s != s' :: All(t.scalars[s]) !! All(t.scalars[s'])
  }

  ghost predicate Once(t: Trie) {
    t.Nil? ||
    (&& Apart(t) && Once(t.next) && Once(t.any) && Once(t.undefined) && Once(t.arrays)
     && forall s | s in t.scalars :: Once(t.scalars[s]))
  }

  lemma {:induction false} OnceInsertPath(t: Trie, path: seq<Constraint>, rn: RuleNode)
    requires t.Node? && Once(t) && rn !in All(t)
    ensures Once(InsertPath(t, path, rn))
    decreases |path|, 0, 0
  {
    if path == [] {
      OnceAppend(t, rn);
    } else {
      var level := if t.next.Nil? then EMPTY.(ref := Some(path[0].ref)) else t.next;
      if t.next.Nil? { EmptyAll(level); }
      AllInsertValue(level, path[0].pattern, path[1..], rn);
      OnceInsertValue(level, path[0].pattern, path[1..], rn);
      OnceNext(t, InsertValue(level, path[0].pattern, path[1..], rn), rn);
    }
  }

  lemma {:induction false} OnceAppend(t: Trie, rn: RuleNode)
    requires t.Node? && Once(t) && rn !in All(t)
    ensures Once(Append(t, rn))
  {
  }

  lemma {:induction false} OnceNext(t: Trie, next: Trie, rn: RuleNode)
    requires t.Node? && Once(t) && rn !in All(t) && Once(next) && All(next) == All(t.next) + {rn}
    ensures Once(t.(next := next))
  {
  }

  lemma {:induction false} OnceScalarsUpdate(t: Trie, s: Scalar, child: Trie, rn: RuleNode)
    requires t.Node? && Once(t) && rn !in All(t)
    requires Once(child) && All(child) == All(At(t.scalars, s)) + {rn}
    ensures Once(t.(scalars := t.scalars[s := child]))
  {
    var t' := t.(scalars := t.scalars[s := child]);
    AllScalarsUpdate(t, s, child, rn);
    assert Own(t') == Own(t);
    forall k, k' | k in t'.scalars && k' in t'.scalars && k != k' ensures All(t'.scalars[k]) !! All(t'.scalars[k']) {
      InScalars(t, k);
      InScalars(t, k');
    }
  }

  lemma {:induction false} InScalars(t: Trie, k: Scalar)
    requires t.Node?
    ensures All(At(t.scalars, k)) <= AllScalars(t)
  {
  }

  lemma {:induction false} OnceInsertValue(t: Trie, p: Pattern, rest: seq<Constraint>, rn: RuleNode)
    requires t.Node? && Once(t) && rn !in All(t)
    ensures Once(InsertValue(t, p, rest, rn))
    decreases |rest|, 2, 0
  {
    EmptyAll(EMPTY);
    match p
    case Absent =>
      OnceInsertPath(OrNew(t.undefined), rest, rn);
      AllInsertPath(OrNew(t.undefined), rest, rn);
      BranchApart(t, t.(undefined := InsertPath(OrNew(t.undefined), rest, rn)), rn);
    case AnyValue =>
      OnceInsertPath(OrNew(t.any), rest, rn);
      AllInsertPath(OrNew(t.any), rest, rn);
      BranchApart(t, t.(any := InsertPath(OrNew(t.any), rest, rn)), rn);
    case Exactly(s) =>
      InScalars(t, s);
      OnceInsertPath(OrNew(At(t.scalars, s)), rest, rn);
      AllInsertPath(OrNew(At(t.scalars, s)), rest, rn);
      OnceScalarsUpdate(t, s, InsertPath(OrNew(At(t.scalars, s)), rest, rn), rn);
    case Tuple(slots) =>
      OnceInsertArray(OrNew(t.arrays), slots, rest, rn);
      AllInsertArray(OrNew(t.arrays), slots, rest, rn);
      BranchApart(t, t.(arrays := InsertArray(OrNew(t.arrays), slots, rest, rn)), rn);
  }

  /** One branch has gained a rule that was nowhere before. */
  lemma {:induction false} BranchApart(t: Trie, t': Trie, rn: RuleNode)
    requires t.Node? && t'.Node? && Once(t) && rn !in All(t)
    requires t'.rules == t.rules && t'.next == t.next && t'.scalars == t.scalars
    requires Once(t'.any) && Once(t'.undefined) && Once(t'.arrays)
    requires || (t'.undefined == t.undefined && t'.arrays == t.arrays && All(t'.any) == All(t.any) + {rn})
             || (t'.any == t.any && t'.arrays == t.arrays && All(t'.undefined) == All(t.undefined) + {rn})
             || (t'.any == t.any && t'.undefined == t.undefined && All(t'.arrays) == All(t.arrays) + {rn})
    ensures Once(t')
  {
  }

  lemma {:induction false} OnceInsertArray(t: Trie, slots: seq<Slot>, rest: seq<Constraint>, rn: RuleNode)
    requires t.Node? && Once(t) && rn !in All(t)
    ensures Once(InsertArray(t, slots, rest, rn))
    decreases |rest|, 1, |slots|
  {
    EmptyAll(EMPTY);
    if slots == [] {
      OnceInsertPath(t, rest, rn);
    } else {
      match slots[0]
      case AnySlot =>
        OnceInsertArray(OrNew(t.any), slots[1..], rest, rn);
        AllInsertArray(OrNew(t.any), slots[1..], rest, rn);
        BranchApart(t, t.(any := InsertArray(OrNew(t.any), slots[1..], rest, rn)), rn);
      case ScalarSlot(s) =>
        InScalars(t, s);
        OnceInsertArray(OrNew(At(t.scalars, s)), slots[1..], rest, rn);
        AllInsertArray(OrNew(At(t.scalars, s)), slots[1..], rest, rn);
        OnceScalarsUpdate(t, s, InsertArray(OrNew(At(t.scalars, s)), slots[1..], rest, rn), rn);
    }
  }

  // A traversal reaches only rules of the trie.

  lemma {:induction false} ReachInAll(res: Resolver, t: Trie)
    ensures Reach(res, t) <= All(t)
    decreases t, 0
  {
    if t.Node? { ReachLevelInAll(res, t.next); }
  }

  lemma {:induction false} ReachLevelInAll(res: Resolver, t: Trie)
    ensures ReachLevel(res, t) <= All(t)
    decreases t, 2
  {
    if t.Node? && t.ref.Some? {
      ReachUnknownInAll(res, t);
      ReachInAll(res, t.undefined);
      ReachInAll(res, t.any);
      match res(t.ref.value)
      case Known(v) =>
        match v {
          case VArray(vs) => ReachArrayInAll(res, t.arrays, vs);
          case VScalar(s) => if s in t.scalars { ReachInAll(res, t.scalars[s]); InScalars(t, s); }
          case _ =>
        }
      case _ =>
    }
  }

  lemma {:induction false} ReachArrayInAll(res: Resolver, t: Trie, vs: seq<Value>)
    ensures ReachArray(res, t, vs) <= All(t)
    decreases t, 1
  {
    if t.Node? {
      ReachInAll(res, t);
      if vs != [] {
        ReachArrayInAll(res, t.any, vs[1..]);
        if vs[0].VScalar? && vs[0].scalar in t.scalars {
          ReachArrayInAll(res, t.scalars[vs[0].scalar], vs[1..]);
          InScalars(t, vs[0].scalar);
        }
      }
    }
  }

  lemma {:induction false} ReachUnknownInAll(res: Resolver, t: Trie)
    ensures ReachUnknown(res, t) <= All(t)
    decreases t, 1
  {
    if t.Node? {
      ReachInAll(res, t);
      ReachUnknownInAll(res, t.undefined);
      ReachUnknownInAll(res, t.any);
      ReachUnknownInAll(res, t.arrays);
      forall rn | rn in ReachScalars(res, t) ensures rn in AllScalars(t) {
        var s :| s in t.scalars && rn in ReachUnknown(res, t.scalars[s]);
        ReachUnknownInAll(res, t.scalars[s]);
        InScalars(t, s);
      }
    }
  }

  // The head values kept beside the rules, when all rules define complete documents.

  ghost function HeadValues(rs: set<RuleNode>): set<Term> {
    set rn | rn in rs :: rn.value
  }

  ghost predicate ValuesKept(t: Trie) {
    t.Nil? ||
    (&& (if t.rules == [] then t.values.None? else t.values == Some(HeadValues(Own(t))))
     && ValuesKept(t.next) && ValuesKept(t.any) && ValuesKept(t.undefined) && ValuesKept(t.arrays)
     && forall s | s in t.scalars :: ValuesKept(t.scalars[s]))
  }

  lemma {:induction false} ValuesInsertPath(t: Trie, path: seq<Constraint>, rn: RuleNode)
    requires t.Node? && ValuesKept(t) && rn.complete
    ensures ValuesKept(InsertPath(t, path, rn))
    decreases |path|, 0, 0
  {
    if path == [] {
      assert Own(Append(t, rn)) == Own(t) + {rn};
      assert HeadValues(Own(t) + {rn}) == HeadValues(Own(t)) + {rn.value};
      assert t.rules == [] ==> HeadValues(Own(t)) + {rn.value} == {rn.value};
    } else {
      var level := if t.next.Nil? then EMPTY.(ref := Some(path[0].ref)) else t.next;
      ValuesInsertValue(level, path[0].pattern, path[1..], rn);
      assert Own(InsertPath(t, path, rn)) == Own(t);
    }
  }

  lemma {:induction false} ValuesInsertValue(t: Trie, p: Pattern, rest: seq<Constraint>, rn: RuleNode)
    requires t.Node? && ValuesKept(t) && rn.complete
    ensures ValuesKept(InsertValue(t, p, rest, rn))
    decreases |rest|, 2, 0
  {
    assert Own(InsertValue(t, p, rest, rn)) == Own(t);
    match p
    case Absent => ValuesInsertPath(OrNew(t.undefined), rest, rn);
    case AnyValue => ValuesInsertPath(OrNew(t.any), rest, rn);
    case Exactly(s) => ValuesInsertPath(OrNew(At(t.scalars, s)), rest, rn);
    case Tuple(slots) => ValuesInsertArray(OrNew(t.arrays), slots, rest, rn);
  }

  lemma {:induction false} ValuesInsertArray(t: Trie, slots: seq<Slot>, rest: seq<Constraint>, rn: RuleNode)
    requires t.Node? && ValuesKept(t) && rn.complete
    ensures ValuesKept(InsertArray(t, slots, rest, rn))
    decreases |rest|, 1, |slots|
  {
    if slots == [] {
      ValuesInsertPath(t, rest, rn);
    } else {
      assert Own(InsertArray(t, slots, rest, rn)) == Own(t);
      match slots[0]
      case AnySlot => ValuesInsertArray(OrNew(t.any), slots[1..], rest, rn);
      case ScalarSlot(s) => ValuesInsertArray(OrNew(At(t.scalars, s)), slots[1..], rest, rn);
    }
  }
}
