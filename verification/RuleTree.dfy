/** The tree of rules by path, and the lookup of references that are only partly known. */
module RuleTree {
  import opened Syntax
  import DependencyGraph

  /** What a tree node is keyed by: a scalar, or the variable at the head of a path. */
  datatype Key = Fixed(scalar: Scalar) | Head(name: Name)

  type Path = seq<Key>

  /** A part of a reference: a constant, a variable, or a term that has to be evaluated. */
  datatype Part = Known(scalar: Scalar) | Open(name: Name) | Computed

  type Reference = seq<Part>

  type RuleId = nat

  datatype Tree = Node(values: seq<RuleId>, children: map<Key, Tree>, hide: bool)

  const EMPTY := Node([], map[], false)

  datatype Entry = Entry(path: Path, rule: Option<RuleId>)

  // Building.

  /** The branch for a path that the tree does not have yet. */
  function Branch(path: Path, rule: Option<RuleId>): Tree {
    if path == [] then Node(if rule.Some? then [rule.value] else [], map[], false)
    else Node([], map[path[0] := Branch(path[1..], rule)], false)
  }

  function Add(t: Tree, path: Path, rule: Option<RuleId>): Tree
    decreases path
  {
    if path == [] then (if rule.Some? then t.(values := t.values + [rule.value]) else t)
    else if path[0] in t.children then t.(children := t.children[path[0] := Add(t.children[path[0]], path[1..], rule)])
    else t.(children := t.children[path[0] := Branch(path[1..], rule)])
  }

  function Hide(t: Tree, path: Path): Tree
    decreases path
  {
    if path == [] then t.(hide := true)
    else if path[0] in t.children then t.(children := t.children[path[0] := Hide(t.children[path[0]], path[1..])])
    else t
  }

  function TreeOf(es: seq<Entry>): Tree {
    if es == [] then EMPTY
    else
      var n := |es| - 1;
      Add(TreeOf(es[..n]), es[n].path, es[n].rule)
  }

  const SYSTEM := [Head("data"), Fixed(String("system"))]

  /** The tree of all rules, in which everything below data.system is hidden. */
  function RuleTreeOf(es: seq<Entry>): Tree {
    Hide(TreeOf(es), SYSTEM)
  }

  // What a tree holds.

  ghost predicate Holds(t: Tree, path: Path, rule: RuleId)
    decreases path
  {
    if path == [] then rule in t.values
    else path[0] in t.children && Holds(t.children[path[0]], path[1..], rule)
  }

  lemma {:induction false} BranchHolds(path: Path, rule: Option<RuleId>, p: Path, r: RuleId)
    ensures Holds(Branch(path, rule), p, r) <==> p == path && rule == Some(r)
    decreases path
  {
    if path != [] && p != [] && p[0] == path[0] {
      BranchHolds(path[1..], rule, p[1..], r);
      assert p == [p[0]] + p[1..] && path == [path[0]] + path[1..];
    }
  }

  lemma {:induction false} AddHolds(t: Tree, path: Path, rule: Option<RuleId>, p: Path, r: RuleId)
    ensures Holds(Add(t, path, rule), p, r) <==> Holds(t, p, r) || (p == path && rule == Some(r))
    decreases path
  {
    if path != [] && p != [] && p[0] == path[0] {
      assert p == [p[0]] + p[1..] && path == [path[0]] + path[1..];
      if path[0] in t.children {
        AddHolds(t.children[path[0]], path[1..], rule, p[1..], r);
      } else {
        BranchHolds(path[1..], rule, p[1..], r);
      }
    }
  }

  lemma {:induction false} HideHolds(t: Tree, path: Path, p: Path, r: RuleId)
    ensures Holds(Hide(t, path), p, r) <==> Holds(t, p, r)
    decreases path
  {
    if path != [] && p != [] && p[0] == path[0] && path[0] in t.children {
      HideHolds(t.children[path[0]], path[1..], p[1..], r);
    }
  }

  ghost predicate Listed(es: seq<Entry>, p: Path, r: RuleId) {
    exists i | 0 <= i < |es| :: es[i] == Entry(p, Some(r))
  }

  /** The tree holds exactly the listed rules, each at its path. */
  lemma {:induction false} TreeHolds(es: seq<Entry>, p: Path, r: RuleId)
    ensures Holds(TreeOf(es), p, r) <==> Listed(es, p, r)
  {
    if es == [] {
      if p == [] { assert !Holds(EMPTY, p, r); }
    } else {
      var n := |es| - 1;
      TreeHolds(es[..n], p, r);
      AddHolds(TreeOf(es[..n]), es[n].path, es[n].rule, p, r);
      ListedSnoc(es, p, r);
    }
  }

  lemma {:induction false} ListedSnoc(es: seq<Entry>, p: Path, r: RuleId)
    requires es != []
    ensures var n := |es| - 1; Listed(es, p, r) <==> Listed(es[..n], p, r) || es[n] == Entry(p, Some(r))
  {
  }

  // Which rules a walk along a reference collects.

  /** The key that a known part, or the head of a reference, selects. */
  function Selects(part: Part): Option<Key> {
    match part
    case Known(s) => Some(Fixed(s))
    case Open(n) => Some(Head(n))
    case Computed => None
  }

  predicate Exact(ref: Reference, i: nat)
    requires i < |ref|
  {
    i == 0 || ref[i].Known?
  }

  /** Below the end of the reference, down to hidden nodes. */
  ghost predicate Deep(t: Tree, hidden: bool, p: Path)
    decreases p
  {
    p == [] || ((hidden || !t.hide) && p[0] in t.children && Deep(t.children[p[0]], hidden, p[1..]))
  }

  ghost predicate Collected(t: Tree, ref: Reference, i: nat, hidden: bool, p: Path)
    requires i <= |ref|
    decreases |ref| - i
  {
    if i == |ref| then Deep(t, hidden, p)
    else
      && p != [] && p[0] in t.children
      && (if Exact(ref, i) then Selects(ref[i]) == Some(p[0]) else hidden || !t.children[p[0]].hide)
      && (|p| == 1 || Collected(t.children[p[0]], ref, i + 1, hidden, p[1..]))
  }

  /** The collection is a set of rules that grows. */
  class Collector {
    var found: set<RuleId>

    constructor ()
      ensures found == {}
    {
      found := {};
    }

    method InsertRules(values: seq<RuleId>)
      modifies this
      ensures forall r :: r in found <==> r in old(found) || r in values
    {
      for i := 0 to |values|
        invariant forall r :: r in found <==> r in old(found) || r in values[..i]
      {
        found := found + {values[i]};
        assert values[..i + 1] == values[..i] + [values[i]];
      }
      assert values[..|values|] == values;
    }

    method DepthFirst(t: Tree, hidden: bool)
      modifies this
      ensures forall r :: r in found <==> r in old(found) || InDepth(t, hidden, r)
      decreases t
    {
      InsertRules(t.values);
      if hidden || !t.hide {
        var keys := t.children.Keys;
        while keys != {}
          invariant keys <= t.children.Keys
          invariant forall r :: r in found <==> r in old(found) || r in t.values || InChildren(t, t.children.Keys - keys, hidden, r)
          decreases keys
        {
          var k :| k in keys;
          ghost var done := t.children.Keys - keys;
          keys := keys - {k};
          DepthFirst(t.children[k], hidden);
          assert t.children.Keys - keys == done + {k};
          forall r ensures InChildren(t, done + {k}, hidden, r) <==> InChildren(t, done, hidden, r) || InDepth(t.children[k], hidden, r) {
          }
        }
      }
      forall r ensures InDepth(t, hidden, r) <==> r in t.values || ((hidden || !t.hide) && InChildren(t, t.children.Keys, hidden, r)) {
        DepthUnfolds(t, hidden, r);
      }
    }

    method Walk(t: Tree, ref: Reference, i: nat, hidden: bool)
      requires i <= |ref|
      modifies this
      ensures forall r :: r in found <==> r in old(found) || InWalk(t, ref, i, hidden, r)
      decreases |ref| - i
    {
      if i == |ref| {
        DepthFirst(t, hidden);
        forall r ensures InWalk(t, ref, i, hidden, r) <==> InDepth(t, hidden, r) {
          WalkAtEnd(t, ref, i, hidden, r);
        }
      } else {
        var keys := WalkKeys(t, ref, i, hidden);
        ghost var all := keys;
        while keys != {}
          invariant keys <= all
          invariant forall r :: r in found <==> r in old(found) || WalkChildren(t, ref, i, hidden, all - keys, r)
          decreases keys
        {
          var k :| k in keys;
          ghost var done := all - keys;
          keys := keys - {k};
          InsertRules(t.children[k].values);
          Walk(t.children[k], ref, i + 1, hidden);
          assert all - keys == done + {k};
        }
        assert all - keys == all;
        forall r ensures InWalk(t, ref, i, hidden, r) <==> WalkChildren(t, ref, i, hidden, all, r) {
          WalkUnfolds(t, ref, i, hidden, r);
        }
      }
    }
  }

  ghost predicate InDepth(t: Tree, hidden: bool, r: RuleId) {
    exists p: Path :: Holds(t, p, r) && Deep(t, hidden, p)
  }

  ghost predicate InChildren(t: Tree, keys: set<Key>, hidden: bool, r: RuleId) {
    exists k | k in keys && k in t.children :: InDepth(t.children[k], hidden, r)
  }

  ghost predicate InWalk(t: Tree, ref: Reference, i: nat, hidden: bool, r: RuleId)
    requires i <= |ref|
  {
    exists p: Path :: Holds(t, p, r) && Collected(t, ref, i, hidden, p)
  }

  /** The children that the walk visits: the selected one, or all that may be seen. */
  function WalkKeys(t: Tree, ref: Reference, i: nat, hidden: bool): set<Key>
    requires i < |ref|
  {
    if Exact(ref, i) then (set k | k in t.children && Selects(ref[i]) == Some(k))
    else set k | k in t.children && (hidden || !t.children[k].hide)
  }

  ghost predicate WalkChildren(t: Tree, ref: Reference, i: nat, hidden: bool, keys: set<Key>, r: RuleId)
    requires i < |ref|
  {
    exists k | k in keys && k in t.children :: r in t.children[k].values || InWalk(t.children[k], ref, i + 1, hidden, r)
  }

  lemma {:induction false} DepthUnfolds(t: Tree, hidden: bool, r: RuleId)
    ensures InDepth(t, hidden, r) <==> r in t.values || ((hidden || !t.hide) && InChildren(t, t.children.Keys, hidden, r))
  {
    if r in t.values {
      assert Holds(t, [], r) && Deep(t, hidden, []);
    }
    if (hidden || !t.hide) && InChildren(t, t.children.Keys, hidden, r) {
      var k :| k in t.children && InDepth(t.children[k], hidden, r);
      var p :| Holds(t.children[k], p, r) && Deep(t.children[k], hidden, p);
      var q := [k] + p;
      assert q[1..] == p;
      assert Holds(t, q, r) && Deep(t, hidden, q);
    }
    if InDepth(t, hidden, r) {
      var p :| Holds(t, p, r) && Deep(t, hidden, p);
      if p != [] {
        assert Holds(t.children[p[0]], p[1..], r) && Deep(t.children[p[0]], hidden, p[1..]);
        assert InDepth(t.children[p[0]], hidden, r);
      }
    }
  }

  lemma {:induction false} WalkAtEnd(t: Tree, ref: Reference, i: nat, hidden: bool, r: RuleId)
    requires i == |ref|
    ensures InWalk(t, ref, i, hidden, r) <==> InDepth(t, hidden, r)
  {
  }

  lemma {:induction false} WalkFromChild(t: Tree, ref: Reference, i: nat, hidden: bool, k: Key, r: RuleId)
    requires i < |ref| && k in WalkKeys(t, ref, i, hidden)
    requires r in t.children[k].values || InWalk(t.children[k], ref, i + 1, hidden, r)
    ensures InWalk(t, ref, i, hidden, r)
  {
    if r in t.children[k].values {
      assert [k][1..] == [];
      assert Holds(t, [k], r) && Collected(t, ref, i, hidden, [k]);
    } else {
      var p :| Holds(t.children[k], p, r) && Collected(t.children[k], ref, i + 1, hidden, p);
      var q := [k] + p;
      assert q[1..] == p;
      assert Holds(t, q, r) && Collected(t, ref, i, hidden, q);
    }
  }

  lemma {:induction false} WalkIntoChild(t: Tree, ref: Reference, i: nat, hidden: bool, p: Path, r: RuleId)
    requires i < |ref| && Holds(t, p, r) && Collected(t, ref, i, hidden, p)
    ensures p[0] in WalkKeys(t, ref, i, hidden)
    ensures r in t.children[p[0]].values || InWalk(t.children[p[0]], ref, i + 1, hidden, r)
  {
  }

  lemma {:induction false} WalkUnfolds(t: Tree, ref: Reference, i: nat, hidden: bool, r: RuleId)
    requires i < |ref|
    ensures InWalk(t, ref, i, hidden, r) <==> WalkChildren(t, ref, i, hidden, WalkKeys(t, ref, i, hidden), r)
  {
    if WalkChildren(t, ref, i, hidden, WalkKeys(t, ref, i, hidden), r) {
      var k :| k in WalkKeys(t, ref, i, hidden) && k in t.children
               && (r in t.children[k].values || InWalk(t.children[k], ref, i + 1, hidden, r));
      WalkFromChild(t, ref, i, hidden, k, r);
    }
    if InWalk(t, ref, i, hidden, r) {
      var p :| Holds(t, p, r) && Collected(t, ref, i, hidden, p);
      WalkIntoChild(t, ref, i, hidden, p, r);
    }
  }

  // The rules that a reference could refer to.

  /** From the given position on, the path has the keys that the reference fixes, where both go that far. */
  ghost predicate AgreesFrom(p: Path, ref: Reference, i: nat) {
    forall j | 0 <= j < |p| && i + j < |ref| && Exact(ref, i + j) :: Selects(ref[i + j]) == Some(p[j])
  }

  ghost predicate Agrees(p: Path, ref: Reference) {
    AgreesFrom(p, ref, 0) && (p != [] || ref == [])
  }

  lemma {:induction false} HeldIsDeep(t: Tree, p: Path, r: RuleId)
    requires Holds(t, p, r)
    ensures Deep(t, true, p)
    decreases p
  {
    if p != [] {
      HeldIsDeep(t.children[p[0]], p[1..], r);
    }
  }

  lemma {:induction false} AgreesStep(p: Path, ref: Reference, i: nat)
    requires p != [] && i < |ref|
    ensures AgreesFrom(p, ref, i) <==> (Exact(ref, i) ==> Selects(ref[i]) == Some(p[0])) && AgreesFrom(p[1..], ref, i + 1)
  {
  }

  lemma {:induction false} CollectedAll(t: Tree, ref: Reference, i: nat, p: Path, r: RuleId)
    requires i <= |ref| && Holds(t, p, r)
    ensures Collected(t, ref, i, true, p) <==> AgreesFrom(p, ref, i) && (p != [] || i == |ref|)
    decreases |ref| - i
  {
    if i == |ref| {
      HeldIsDeep(t, p, r);
    } else if p != [] {
      AgreesStep(p, ref, i);
      if |p| > 1 {
        CollectedAll(t.children[p[0]], ref, i + 1, p[1..], r);
      }
    }
  }

  /** With hidden modules, lookup finds exactly the rules whose paths agree with the reference. */
  lemma {:induction false} LookupExact(es: seq<Entry>, ref: Reference, r: RuleId)
    ensures InWalk(RuleTreeOf(es), ref, 0, true, r) <==> exists p: Path :: Listed(es, p, r) && Agrees(p, ref)
  {
    var t := RuleTreeOf(es);
    forall p: Path ensures Holds(t, p, r) <==> Listed(es, p, r) {
      HideHolds(TreeOf(es), SYSTEM, p, r);
      TreeHolds(es, p, r);
    }
    forall p: Path | Holds(t, p, r) ensures Collected(t, ref, 0, true, p) <==> Agrees(p, ref) {
      CollectedAll(t, ref, 0, p, r);
    }
    if InWalk(t, ref, 0, true, r) {
      var p :| Holds(t, p, r) && Collected(t, ref, 0, true, p);
      assert Listed(es, p, r) && Agrees(p, ref);
    }
    if p: Path :| Listed(es, p, r) && Agrees(p, ref) {
      assert Holds(t, p, r) && Collected(t, ref, 0, true, p);
    }
  }

  /** The reference with its unknown parts filled in. */
  ghost predicate Instance(g: Reference, ref: Reference) {
    && |g| == |ref|
    && forall i | 0 <= i < |ref| && Exact(ref, i) :: g[i] == ref[i]
  }

  /** Lookup finds every rule that some instance of the reference could refer to. */
  lemma {:induction false} CoversInstances(es: seq<Entry>, ref: Reference, g: Reference, r: RuleId)
    requires Instance(g, ref) && InWalk(RuleTreeOf(es), g, 0, true, r)
    ensures InWalk(RuleTreeOf(es), ref, 0, true, r)
  {
    LookupExact(es, g, r);
    LookupExact(es, ref, r);
    var p: Path :| Listed(es, p, r) && Agrees(p, g);
    forall j | 0 <= j < |p| && 0 + j < |ref| && Exact(ref, 0 + j) ensures Selects(ref[0 + j]) == Some(p[j]) {
      assert g[j] == ref[j] && Exact(g, 0 + j);
    }
    assert Agrees(p, ref);
  }

  // Hidden modules.

  /** Nothing is hidden in the tree but, possibly, the node at the given path. */
  ghost predicate HiddenOnly(t: Tree, h: Option<Path>)
    decreases t
  {
    && (t.hide <==> h == Some([]))
    && forall k | k in t.children :: HiddenOnly(t.children[k], Below(h, k))
  }

  function Below(h: Option<Path>, k: Key): Option<Path> {
    if h.Some? && h.value != [] && h.value[0] == k then Some(h.value[1..]) else None
  }

  lemma {:induction false} BranchShows(path: Path, rule: Option<RuleId>)
    ensures HiddenOnly(Branch(path, rule), None)
    decreases path
  {
    if path != [] { BranchShows(path[1..], rule); }
  }

  lemma {:induction false} AddShows(t: Tree, path: Path, rule: Option<RuleId>)
    requires HiddenOnly(t, None)
    ensures HiddenOnly(Add(t, path, rule), None)
    decreases path
  {
    if path != [] {
      if path[0] in t.children { AddShows(t.children[path[0]], path[1..], rule); } else { BranchShows(path[1..], rule); }
    }
  }

  lemma {:induction false} TreeShows(es: seq<Entry>)
    ensures HiddenOnly(TreeOf(es), None)
  {
    if es != [] {
      var n := |es| - 1;
      TreeShows(es[..n]);
      AddShows(TreeOf(es[..n]), es[n].path, es[n].rule);
    }
  }

  lemma {:induction false} HideHides(t: Tree, path: Path)
    requires HiddenOnly(t, None)
    ensures HiddenOnly(Hide(t, path), Some(path))
    decreases path
  {
    if path != [] && path[0] in t.children {
      HideHides(t.children[path[0]], path[1..]);
    }
  }

  lemma {:induction false} DeepHidden(t: Tree, h: Option<Path>, p: Path)
    requires HiddenOnly(t, h)
    ensures Deep(t, false, p) <==> Deep(t, true, p) && (h.Some? && h.value <= p ==> p == h.value)
    decreases p
  {
    if p != [] && p[0] in t.children {
      DeepHidden(t.children[p[0]], Below(h, p[0]), p[1..]);
      if h != Some([]) { BelowPrefix(h, p); }
    }
  }

  lemma {:induction false} BelowPrefix(h: Option<Path>, p: Path)
    requires p != [] && h != Some([])
    ensures var b := Below(h, p[0]); h.Some? && h.value <= p <==> b.Some? && b.value <= p[1..]
    ensures h.Some? && h.value <= p ==> (p == h.value <==> p[1..] == h.value[1..])
  {
  }

  /** What the hidden node takes away from a walk that is at the given position. */
  ghost predicate SeenFrom(h: Option<Path>, ref: Reference, i: nat, p: Path) {
    h.Some? && h.value <= p ==>
      var n := i + |h.value|;
      && (|h.value| > 0 && n <= |ref| ==> Exact(ref, n - 1))
      && (n >= |ref| ==> p == h.value)
  }

  lemma {:induction false} CollectedHidden(t: Tree, h: Option<Path>, ref: Reference, i: nat, p: Path)
    requires HiddenOnly(t, h) && i <= |ref|
    ensures Collected(t, ref, i, false, p) <==> Collected(t, ref, i, true, p) && SeenFrom(h, ref, i, p)
    decreases |ref| - i
  {
    if i == |ref| {
      DeepHidden(t, h, p);
    } else if p != [] && p[0] in t.children && h != Some([]) {
      BelowPrefix(h, p);
      if |p| > 1 { CollectedHidden(t.children[p[0]], Below(h, p[0]), ref, i + 1, p[1..]); }
    } else if p != [] && p[0] in t.children {
      if |p| > 1 { CollectedHidden(t.children[p[0]], None, ref, i + 1, p[1..]); }
    }
  }

  /** Without hidden modules: what lies below data.system is only found through it, by name. */
  ghost predicate Seen(p: Path, ref: Reference) {
    SYSTEM <= p ==> (|ref| >= 2 ==> ref[1].Known?) && (|ref| <= 2 ==> p == SYSTEM)
  }

  lemma {:induction false} LookupHidden(es: seq<Entry>, ref: Reference, r: RuleId)
    ensures InWalk(RuleTreeOf(es), ref, 0, false, r) <==> exists p: Path :: Listed(es, p, r) && Agrees(p, ref) && Seen(p, ref)
  {
    var t := RuleTreeOf(es);
    TreeShows(es);
    HideHides(TreeOf(es), SYSTEM);
    forall p: Path ensures Holds(t, p, r) <==> Listed(es, p, r) {
      HideHolds(TreeOf(es), SYSTEM, p, r);
      TreeHolds(es, p, r);
    }
    forall p: Path | Holds(t, p, r) ensures Collected(t, ref, 0, false, p) <==> Agrees(p, ref) && Seen(p, ref) {
      CollectedAll(t, ref, 0, p, r);
      CollectedHidden(t, Some(SYSTEM), ref, 0, p);
    }
    if InWalk(t, ref, 0, false, r) {
      var p :| Holds(t, p, r) && Collected(t, ref, 0, false, p);
      assert Listed(es, p, r) && Agrees(p, ref) && Seen(p, ref);
    }
    if p: Path :| Listed(es, p, r) && Agrees(p, ref) && Seen(p, ref) {
      assert Holds(t, p, r) && Collected(t, ref, 0, false, p);
    }
  }

  // The operations.

  method NewRuleTree(es: seq<Entry>) returns (t: Tree)
    ensures t == RuleTreeOf(es)
  {
    t := EMPTY;
    for i := 0 to |es|
      invariant t == TreeOf(es[..i])
    {
      t := Add(t, es[i].path, es[i].rule);
      assert es[..i + 1][..i] == es[..i];
    }
    assert es[..|es|] == es;
    t := Hide(t, SYSTEM);
  }

  method GetRulesDynamic(t: Tree, ref: Reference, hidden: bool) returns (rules: set<RuleId>)
    ensures forall r :: r in rules <==> InWalk(t, ref, 0, hidden, r)
  {
    var c := new Collector();
    c.Walk(t, ref, 0, hidden);
    return c.found;
  }

  // The dependency graph.

  /** What the graph is built from: the references in each rule, and the rule with its else rules. */
  datatype Program = Program(rules: seq<RuleId>, refs: RuleId -> seq<Reference>, chain: RuleId -> seq<RuleId>)

  ghost predicate RefersTo(t: Tree, prog: Program, ref: Reference, b: RuleId) {
    exists c :: InWalk(t, ref, 0, true, c) && b in prog.chain(c)
  }

  type Graph = DependencyGraph.Graph<RuleId>

  /** Adds an edge to every rule that the reference could refer to. */
  method AddReference(g: Graph, t: Tree, prog: Program, a: RuleId, ref: Reference)
    requires g.Valid() && g.sorted == None
    modifies g
    ensures g.Valid() && g.sorted == None && old(g.nodes) <= g.nodes
    ensures forall x, y :: DependencyGraph.Edge(g.adj, x, y) <==>
              DependencyGraph.Edge(old(g.adj), x, y) || (x == a && RefersTo(t, prog, ref, y))
  {
    var todo := GetRulesDynamic(t, ref, true);
    ghost var all := todo;
    while todo != {}
      invariant g.Valid() && g.sorted == None && old(g.nodes) <= g.nodes && todo <= all
      invariant forall x, y :: DependencyGraph.Edge(g.adj, x, y) <==>
                  DependencyGraph.Edge(old(g.adj), x, y) || (x == a && exists c | c in all - todo :: y in prog.chain(c))
      decreases todo
    {
      var c :| c in todo;
      ghost var done := all - todo;
      todo := todo - {c};
      assert all - todo == done + {c};
      AddChain(g, a, prog.chain(c));
    }
  }

  method AddChain(g: Graph, a: RuleId, chain: seq<RuleId>)
    requires g.Valid() && g.sorted == None
    modifies g
    ensures g.Valid() && g.sorted == None && old(g.nodes) <= g.nodes
    ensures forall x, y :: DependencyGraph.Edge(g.adj, x, y) <==> DependencyGraph.Edge(old(g.adj), x, y) || (x == a && y in chain)
  {
    for i := 0 to |chain|
      invariant g.Valid() && g.sorted == None && old(g.nodes) <= g.nodes
      invariant forall x, y :: DependencyGraph.Edge(g.adj, x, y) <==> DependencyGraph.Edge(old(g.adj), x, y) || (x == a && y in chain[..i])
    {
      g.AddDependency(a, chain[i]);
      assert chain[..i + 1] == chain[..i] + [chain[i]];
    }
    assert chain[..|chain|] == chain;
  }

  ghost predicate AnyRefersTo(t: Tree, prog: Program, refs: seq<Reference>, b: RuleId) {
    exists i | 0 <= i < |refs| :: RefersTo(t, prog, refs[i], b)
  }

  lemma {:induction false} AnySnoc(t: Tree, prog: Program, refs: seq<Reference>, i: nat, b: RuleId)
    requires i < |refs|
    ensures AnyRefersTo(t, prog, refs[..i + 1], b) <==> AnyRefersTo(t, prog, refs[..i], b) || RefersTo(t, prog, refs[i], b)
  {
  }

  method AddRule(g: Graph, t: Tree, prog: Program, a: RuleId)
    requires g.Valid() && g.sorted == None
    modifies g
    ensures g.Valid() && g.sorted == None && old(g.nodes) + {a} <= g.nodes
    ensures forall x, y :: DependencyGraph.Edge(g.adj, x, y) <==>
              DependencyGraph.Edge(old(g.adj), x, y) || (x == a && AnyRefersTo(t, prog, prog.refs(a), y))
  {
    g.AddNode(a);
    var refs := prog.refs(a);
    for i := 0 to |refs|
      invariant g.Valid() && g.sorted == None && old(g.nodes) + {a} <= g.nodes
      invariant forall x, y :: DependencyGraph.Edge(g.adj, x, y) <==>
                  DependencyGraph.Edge(old(g.adj), x, y) || (x == a && AnyRefersTo(t, prog, refs[..i], y))
    {
      AddReference(g, t, prog, a, refs[i]);
      forall y ensures AnyRefersTo(t, prog, refs[..i + 1], y) <==> AnyRefersTo(t, prog, refs[..i], y) || RefersTo(t, prog, refs[i], y) {
        AnySnoc(t, prog, refs, i, y);
      }
    }
    assert refs[..|refs|] == refs;
  }

  /** The graph has an edge between two rules exactly when one could refer to the other. */
  method NewGraph(t: Tree, prog: Program) returns (g: Graph)
    ensures fresh(g) && g.Valid() && g.sorted == None
    ensures forall a | a in prog.rules :: a in g.nodes
    ensures forall a, b :: DependencyGraph.Edge(g.adj, a, b) <==> a in prog.rules && AnyRefersTo(t, prog, prog.refs(a), b)
  {
    g := new DependencyGraph.Graph();
    for i := 0 to |prog.rules|
      invariant fresh(g) && g.Valid() && g.sorted == None
      invariant forall a | a in prog.rules[..i] :: a in g.nodes
      invariant forall a, b :: DependencyGraph.Edge(g.adj, a, b) <==> a in prog.rules[..i] && AnyRefersTo(t, prog, prog.refs(a), b)
    {
      AddRule(g, t, prog, prog.rules[i]);
      assert prog.rules[..i + 1] == prog.rules[..i] + [prog.rules[i]];
    }
    assert prog.rules[..|prog.rules|] == prog.rules;
  }

  /** No edge is missed: a rule is an edge away from every rule that an instance of one of its references names. */
  lemma {:induction false} NoEdgeMissed(es: seq<Entry>, prog: Program, adj: DependencyGraph.Edges<RuleId>, a: RuleId, i: nat, g: Reference, c: RuleId, p: Path, b: RuleId)
    requires forall x, y :: DependencyGraph.Edge(adj, x, y) <==> x in prog.rules && AnyRefersTo(RuleTreeOf(es), prog, prog.refs(x), y)
    requires a in prog.rules && i < |prog.refs(a)| && Instance(g, prog.refs(a)[i])
    requires Listed(es, p, c) && Agrees(p, g) && b in prog.chain(c)
    ensures DependencyGraph.Edge(adj, a, b)
  {
    var t, ref := RuleTreeOf(es), prog.refs(a)[i];
    LookupExact(es, g, c);
    CoversInstances(es, ref, g, c);
    assert RefersTo(t, prog, ref, b);
    assert AnyRefersTo(t, prog, prog.refs(a), b);
  }
}
