/** Building the index and asking it, as the objects involved do it. */
module IndexLookup {
  import opened Syntax
  import opened Semantics
  import opened IndexTrie
  import opened IndexOnce
  import opened RuleIndex

  /** Accumulates the rules of the visited nodes, grouped by the position of their chain. */
  class TraversalResult {
    var unordered: map<nat, seq<RuleNode>>
    var ordering: seq<nat>
    var values: set<Term>
    ghost var seen: set<RuleNode>

    ghost predicate Valid()
      reads this
    {
      && NoDuplicates(ordering)
      && (forall k :: k in ordering <==> k in unordered)
      && (forall k | k in unordered :: unordered[k] != [] && NoDuplicates(unordered[k]))
      && (forall k, rn | k in unordered && rn in unordered[k] :: rn.idx == k && rn in seen)
      && (forall rn | rn in seen :: rn.idx in unordered && rn in unordered[rn.idx])
    }

    /** The collected head values are those of the rules seen. */
    ghost predicate Exact()
      reads this
    {
      values == HeadValues(seen)
    }

    constructor ()
      ensures Valid() && seen == {} && values == {}
    {
      unordered, ordering, values, seen := map[], [], {}, {};
    }

    method AddRule(rn: RuleNode)
      requires Valid() && rn !in seen
      modifies this
      ensures Valid() && seen == old(seen) + {rn} && values == old(values)
    {
      var nodes := if rn.idx in unordered then unordered[rn.idx] else [];
      if rn.idx !in unordered {
        ordering := ordering + [rn.idx];
      }
      assert rn !in nodes;
      unordered := unordered[rn.idx := nodes + [rn]];
      seen := seen + {rn};
    }

    method Add(t: Trie)
      requires Valid() && t.Node? && NoDuplicates(t.rules) && Own(t) !! seen
      modifies this
      ensures Valid() && seen == old(seen) + Own(t)
      ensures old(Exact()) && ValuesKept(t) ==> Exact()
    {
      ghost var before := seen;
      for i := 0 to |t.rules|
        invariant Valid() && seen == before + (set rn | rn in t.rules[..i]) && values == old(values)
      {
        assert t.rules[i] in Own(t) && t.rules[i] !in t.rules[..i];
        AddRule(t.rules[i]);
        assert t.rules[..i + 1] == t.rules[..i] + [t.rules[i]];
      }
      assert t.rules[..|t.rules|] == t.rules;
      if t.values.Some? {
        values := values + t.values.value;
      }
      assert HeadValues(before + Own(t)) == HeadValues(before) + HeadValues(Own(t));
    }
  }

  ghost function ReachOver(res: Resolver, t: Trie, keys: set<Scalar>): set<RuleNode>
    requires t.Node?
  {
    set s, rn | s in keys && s in t.scalars && rn in ReachUnknown(res, t.scalars[s]) :: rn
  }

  lemma {:induction false} ReachOverAdd(res: Resolver, t: Trie, keys: set<Scalar>, s: Scalar)
    requires t.Node? && s in t.scalars
    ensures ReachOver(res, t, keys + {s}) == ReachOver(res, t, keys) + ReachUnknown(res, t.scalars[s])
  {
  }

  /** The scalar branches visited so far leave the next one untouched. */
  lemma {:induction false} NextScalarFresh(res: Resolver, t: Trie, keys: set<Scalar>, s: Scalar)
    requires t.Node? && Once(t) && s in t.scalars && s !in keys
    ensures All(t.scalars[s]) !! ReachOver(res, t, keys) && All(t.scalars[s]) <= AllScalars(t)
  {
    InScalars(t, s);
    forall rn | rn in ReachOver(res, t, keys) ensures rn !in All(t.scalars[s]) {
      var k :| k in keys && k in t.scalars && rn in ReachUnknown(res, t.scalars[k]);
      ReachUnknownInAll(res, t.scalars[k]);
    }
  }

  method Traverse(res: Resolver, t: Trie, tr: TraversalResult)
    requires tr.Valid() && Once(t) && All(t) !! tr.seen
    modifies tr
    ensures tr.Valid() && tr.seen == old(tr.seen) + Reach(res, t)
    ensures old(tr.Exact()) && ValuesKept(t) ==> tr.Exact()
    decreases t, 0
  {
    if t.Node? {
      tr.Add(t);
      TraverseLevel(res, t.next, tr);
    }
  }

  method TraverseLevel(res: Resolver, t: Trie, tr: TraversalResult)
    requires tr.Valid() && Once(t) && All(t) !! tr.seen
    modifies tr
    ensures tr.Valid() && tr.seen == old(tr.seen) + ReachLevel(res, t)
    ensures old(tr.Exact()) && ValuesKept(t) ==> tr.Exact()
    decreases t, 3
  {
    if t.Node? && t.ref.Some? {
      var v := res(t.ref.value);
      if v.Unknown? {
        TraverseUnknown(res, t, tr);
      } else {
        ReachInAll(res, t.undefined);
        Traverse(res, t.undefined, tr);
        if v.Known? {
          ReachInAll(res, t.any);
          Traverse(res, t.any, tr);
          TraverseValue(res, t, v.value, tr);
        }
      }
    }
  }

  method TraverseValue(res: Resolver, t: Trie, v: Value, tr: TraversalResult)
    requires t.Node? && tr.Valid() && Once(t) && All(t.arrays) !! tr.seen && AllScalars(t) !! tr.seen
    modifies tr
    ensures tr.Valid() && tr.seen == old(tr.seen) + ReachValue(res, t, v)
    ensures old(tr.Exact()) && ValuesKept(t) ==> tr.Exact()
    decreases t, 1
  {
    match v
    case VArray(vs) => TraverseArray(res, t.arrays, vs, tr);
    case VScalar(s) =>
      if s in t.scalars {
        InScalars(t, s);
        Traverse(res, t.scalars[s], tr);
      }
    case _ =>
  }

  method TraverseArray(res: Resolver, t: Trie, vs: seq<Value>, tr: TraversalResult)
    requires tr.Valid() && Once(t) && All(t) !! tr.seen
    modifies tr
    ensures tr.Valid() && tr.seen == old(tr.seen) + ReachArray(res, t, vs)
    ensures old(tr.Exact()) && ValuesKept(t) ==> tr.Exact()
    decreases t, 1
  {
    if t.Node? {
      if vs == [] {
        Traverse(res, t, tr);
      } else {
        ReachArrayInAll(res, t.any, vs[1..]);
        TraverseArray(res, t.any, vs[1..], tr);
        if vs[0].VScalar? && vs[0].scalar in t.scalars {
          InScalars(t, vs[0].scalar);
          TraverseArray(res, t.scalars[vs[0].scalar], vs[1..], tr);
        }
      }
    }
  }

  method TraverseUnknown(res: Resolver, t: Trie, tr: TraversalResult)
    requires tr.Valid() && Once(t) && All(t) !! tr.seen
    modifies tr
    ensures tr.Valid() && tr.seen == old(tr.seen) + ReachUnknown(res, t)
    ensures old(tr.Exact()) && ValuesKept(t) ==> tr.Exact()
    decreases t, 2
  {
    if t.Node? {
      ReachLevelInAll(res, t.next);
      Traverse(res, t, tr);
      TraverseBranches(res, t, tr);
    }
  }

  method TraverseBranches(res: Resolver, t: Trie, tr: TraversalResult)
    requires t.Node? && tr.Valid() && Once(t)
    requires All(t.undefined) !! tr.seen && All(t.any) !! tr.seen && All(t.arrays) !! tr.seen && AllScalars(t) !! tr.seen
    modifies tr
    ensures tr.Valid() && tr.seen == old(tr.seen) + ReachUnknown(res, t.undefined) + ReachUnknown(res, t.any)
                                    + ReachUnknown(res, t.arrays) + ReachScalars(res, t)
    ensures old(tr.Exact()) && ValuesKept(t) ==> tr.Exact()
    decreases t, 1
  {
    ReachUnknownInAll(res, t.undefined);
    TraverseUnknown(res, t.undefined, tr);
    ReachUnknownInAll(res, t.any);
    TraverseUnknown(res, t.any, tr);
    ReachUnknownInAll(res, t.arrays);
    TraverseUnknown(res, t.arrays, tr);
    TraverseScalars(res, t, tr);
  }

  /** Visits the scalar branches in any order. */
  method TraverseScalars(res: Resolver, t: Trie, tr: TraversalResult)
    requires t.Node? && tr.Valid() && Once(t) && AllScalars(t) !! tr.seen
    modifies tr
    ensures tr.Valid() && tr.seen == old(tr.seen) + ReachScalars(res, t)
    ensures old(tr.Exact()) && ValuesKept(t) ==> tr.Exact()
    decreases t, 0
  {
    ghost var before, exact := tr.seen, tr.Exact();
    ghost var done: set<Scalar> := {};
    var todo := t.scalars.Keys;
    while todo != {}
      invariant done + todo == t.scalars.Keys && done !! todo
      invariant tr.Valid() && tr.seen == before + ReachOver(res, t, done)
      invariant exact && ValuesKept(t) ==> tr.Exact()
      decreases todo
    {
      var s :| s in todo;
      NextScalarFresh(res, t, done, s);
      TraverseUnknown(res, t.scalars[s], tr);
      ReachOverAdd(res, t, done, s);
      todo, done := todo - {s}, done + {s};
    }
    assert ReachOver(res, t, done) == ReachScalars(res, t);
  }

  // Walking the whole trie.

  ghost function AllOver(t: Trie, keys: set<Scalar>): set<RuleNode>
    requires t.Node?
  {
    set s, rn | s in keys && s in t.scalars && rn in All(t.scalars[s]) :: rn
  }

  lemma {:induction false} AllOverAdd(t: Trie, keys: set<Scalar>, s: Scalar)
    requires t.Node? && s in t.scalars
    ensures AllOver(t, keys + {s}) == AllOver(t, keys) + All(t.scalars[s])
  {
  }

  lemma {:induction false} NextBranchFresh(t: Trie, keys: set<Scalar>, s: Scalar)
    requires t.Node? && Once(t) && s in t.scalars && s !in keys
    ensures All(t.scalars[s]) !! AllOver(t, keys) && All(t.scalars[s]) <= AllScalars(t)
  {
  }

  method Walk(t: Trie, tr: TraversalResult)
    requires tr.Valid() && Once(t) && All(t) !! tr.seen
    modifies tr
    ensures tr.Valid() && tr.seen == old(tr.seen) + All(t)
    ensures old(tr.Exact()) && ValuesKept(t) ==> tr.Exact()
    decreases t, 1
  {
    if t.Node? {
      tr.Add(t);
      Walk(t.any, tr);
      Walk(t.undefined, tr);
      WalkScalars(t, tr);
      Walk(t.arrays, tr);
      Walk(t.next, tr);
    }
  }

  method WalkScalars(t: Trie, tr: TraversalResult)
    requires t.Node? && tr.Valid() && Once(t) && AllScalars(t) !! tr.seen
    modifies tr
    ensures tr.Valid() && tr.seen == old(tr.seen) + AllScalars(t)
    ensures old(tr.Exact()) && ValuesKept(t) ==> tr.Exact()
    decreases t, 0
  {
    ghost var before, exact := tr.seen, tr.Exact();
    ghost var done: set<Scalar> := {};
    var todo := t.scalars.Keys;
    while todo != {}
      invariant done + todo == t.scalars.Keys && done !! todo
      invariant tr.Valid() && tr.seen == before + AllOver(t, done)
      invariant exact && ValuesKept(t) ==> tr.Exact()
      decreases todo
    {
      var s :| s in todo;
      NextBranchFresh(t, done, s);
      Walk(t.scalars[s], tr);
      AllOverAdd(t, done, s);
      todo, done := todo - {s}, done + {s};
    }
    assert AllOver(t, done) == AllScalars(t);
  }

  // From the grouped rules to the result.

  predicate ByPriority(s: seq<RuleNode>) {
    forall i, j | 0 <= i < j < |s| :: s[i].prio < s[j].prio
  }

  /** Different rules of a chain have different priorities. */
  ghost predicate Prioritised(rs: set<RuleNode>) {
    forall a, b | a in rs && b in rs && a.idx == b.idx && a.prio == b.prio :: a == b
  }

  /** The rules of `rs` in chain `k`, in source order. */
  ghost predicate IsGroup(rs: set<RuleNode>, k: nat, s: seq<RuleNode>) {
    ByPriority(s) && forall rn :: rn in s <==> rn in rs && rn.idx == k
  }

  function InsertSorted(rn: RuleNode, s: seq<RuleNode>): (r: seq<RuleNode>)
    requires ByPriority(s) && forall x | x in s :: x.prio != rn.prio
    ensures ByPriority(r) && forall x :: x in r <==> x == rn || x in s
    ensures r != [] && (r[0] == rn || (s != [] && r[0] == s[0]))
  {
    if s == [] || rn.prio < s[0].prio then
      assert forall x :: x in [rn] + s <==> x == rn || x in s;
      [rn] + s
    else
      assert s[0] in s;
      var rest := InsertSorted(rn, s[1..]);
      assert forall x :: x in s <==> x == s[0] || x in s[1..];
      assert forall x | x in rest :: s[0].prio < x.prio;
      [s[0]] + rest
  }

  function SortByPriority(s: seq<RuleNode>): (r: seq<RuleNode>)
    requires NoDuplicates(s) && forall a, b | a in s && b in s && a.prio == b.prio :: a == b
    ensures ByPriority(r) && forall x :: x in r <==> x in s
  {
    if s == [] then []
    else
      assert s[0] in s && s[0] !in s[1..];
      assert forall x :: x in s <==> x == s[0] || x in s[1..];
      InsertSorted(s[0], SortByPriority(s[1..]))
  }

  /** What a lookup returns: one root per chain with a reported rule, and the rest of the chain behind it. */
  datatype IndexResult = IndexResult(rules: seq<RuleNode>, elses: map<RuleNode, seq<RuleNode>>, earlyExit: bool)

  /** A root and the rest of its chain. */
  function Listing(elses: map<RuleNode, seq<RuleNode>>, root: RuleNode): seq<RuleNode> {
    [root] + (if root in elses then elses[root] else [])
  }

  /** The result reports exactly `rs`: every chain once, in source order, its first rule as root. */
  ghost predicate Reports(r: IndexResult, rs: set<RuleNode>) {
    && NoDuplicates(r.rules)
    && (forall root | root in r.rules :: IsGroup(rs, root.idx, Listing(r.elses, root)))
    && (forall rn | rn in rs :: exists root :: root in r.rules && root.idx == rn.idx)
    && (forall root | root in r.elses :: root in r.rules && r.elses[root] != [])
  }

  lemma {:induction false} ListedIn(r: IndexResult, rs: set<RuleNode>, rn: RuleNode, root: RuleNode)
    requires Reports(r, rs) && root in r.rules
    ensures rn in Listing(r.elses, root) <==> rn in rs && rn.idx == root.idx
  {
  }

  /** A rule is reported exactly when the result lists it, and then at one place only. */
  lemma {:induction false} ReportedOnce(r: IndexResult, rs: set<RuleNode>, rn: RuleNode)
    requires Reports(r, rs)
    ensures rn in rs <==> exists root :: root in r.rules && rn in Listing(r.elses, root)
    ensures forall a, b | a in r.rules && b in r.rules && rn in Listing(r.elses, a) && rn in Listing(r.elses, b) :: a == b
    ensures forall root | root in r.rules :: ByPriority(Listing(r.elses, root))
  {
    if root :| root in r.rules && rn in Listing(r.elses, root) {
      ListedIn(r, rs, rn, root);
    }
    if rn in rs {
      var root :| root in r.rules && root.idx == rn.idx;
      ListedIn(r, rs, rn, root);
    }
    forall a, b | a in r.rules && b in r.rules && rn in Listing(r.elses, a) && rn in Listing(r.elses, b) ensures a == b {
      ListedIn(r, rs, rn, a);
      ListedIn(r, rs, rn, b);
      SameRoot(r, rs, a, b);
    }
    forall root | root in r.rules ensures ByPriority(Listing(r.elses, root)) {
      assert IsGroup(rs, root.idx, Listing(r.elses, root));
    }
  }

  lemma {:induction false} SameRoot(r: IndexResult, rs: set<RuleNode>, a: RuleNode, b: RuleNode)
    requires Reports(r, rs) && a in r.rules && b in r.rules && a.idx == b.idx
    ensures a == b
  {
    var s, t := Listing(r.elses, a), Listing(r.elses, b);
    assert s[0] in s && t[0] in t;
    ListedIn(r, rs, a, a);
    ListedIn(r, rs, b, b);
    ListedIn(r, rs, a, b);
    ListedIn(r, rs, b, a);
    var i :| 0 <= i < |t| && t[i] == a;
    var j :| 0 <= j < |s| && s[j] == b;
    assert IsGroup(rs, a.idx, s) && IsGroup(rs, b.idx, t);
  }

  method Group(tr: TraversalResult, k: nat, ghost rs: set<RuleNode>) returns (nodes: seq<RuleNode>)
    requires tr.Valid() && tr.seen == rs && Prioritised(rs) && k in tr.unordered
    ensures IsGroup(rs, k, nodes) && nodes != []
  {
    nodes := SortByPriority(tr.unordered[k]);
    assert tr.unordered[k][0] in nodes;
  }

  /** The chains of the first positions have been listed. */
  ghost predicate Listed(rs: set<RuleNode>, ordering: seq<nat>, rules: seq<RuleNode>, elses: map<RuleNode, seq<RuleNode>>) {
    && |rules| <= |ordering|
    && (forall j | 0 <= j < |rules| :: rules[j].idx == ordering[j])
    && (forall j | 0 <= j < |rules| :: IsGroup(rs, rules[j].idx, Listing(elses, rules[j])))
    && (forall root | root in elses :: root in rules && elses[root] != [])
  }

  function WithRest(elses: map<RuleNode, seq<RuleNode>>, nodes: seq<RuleNode>): map<RuleNode, seq<RuleNode>>
    requires nodes != []
  {
    if |nodes| > 1 then elses[nodes[0] := nodes[1..]] else elses
  }

  lemma {:induction false} ListNext(rs: set<RuleNode>, ordering: seq<nat>, rules: seq<RuleNode>, elses: map<RuleNode, seq<RuleNode>>,
                                    nodes: seq<RuleNode>)
    requires Listed(rs, ordering, rules, elses) && NoDuplicates(ordering) && |rules| < |ordering|
    requires nodes != [] && IsGroup(rs, ordering[|rules|], nodes)
    ensures Listed(rs, ordering, rules + [nodes[0]], WithRest(elses, nodes))
  {
  }

  lemma {:induction false} ListedAll(rs: set<RuleNode>, ordering: seq<nat>, r: IndexResult)
    requires Listed(rs, ordering, r.rules, r.elses) && NoDuplicates(ordering) && |r.rules| == |ordering|
    requires forall rn | rn in rs :: rn.idx in ordering
    ensures Reports(r, rs)
  {
  }

  method Summarise(tr: TraversalResult, ghost rs: set<RuleNode>) returns (r: IndexResult)
    requires tr.Valid() && tr.seen == rs && Prioritised(rs)
    ensures Reports(r, rs)
    ensures r.earlyExit <==> exists v :: tr.values == {v} && IsGround(v)
  {
    var rules: seq<RuleNode>, elses: map<RuleNode, seq<RuleNode>> := [], map[];
    for i := 0 to |tr.ordering|
      invariant |rules| == i && Listed(rs, tr.ordering, rules, elses)
    {
      var nodes := Group(tr, tr.ordering[i], rs);
      ListNext(rs, tr.ordering, rules, elses, nodes);
      rules, elses := rules + [nodes[0]], WithRest(elses, nodes);
    }
    r := IndexResult(rules, elses, |tr.values| == 1 && exists v | v in tr.values :: IsGround(v));
    ListedAll(rs, tr.ordering, r);
    SingletonValue(tr.values);
  }

  lemma {:induction false} SingletonValue(vs: set<Term>)
    ensures (|vs| == 1 && exists v | v in vs :: IsGround(v)) <==> exists v :: vs == {v} && IsGround(v)
  {
    if |vs| == 1 && exists v | v in vs :: IsGround(v) {
      var v :| v in vs && IsGround(v);
      assert |vs - {v}| == 0;
      assert vs == {v};
    }
  }
}
