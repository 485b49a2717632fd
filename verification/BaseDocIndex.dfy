/** The index over base documents: built once from the rules, then asked with a resolver. */
module BaseDocIndex {
  import opened Syntax
  import opened Semantics
  import opened IndexTrie
  import opened IndexOnce
  import opened RuleIndex
  import opened IndexLookup

  lemma {:induction false} BodyConstraintsSnoc(isVirtual: Term -> bool, args: seq<Term>, body: seq<Expr>, i: nat)
    requires i < |body|
    ensures BodyConstraints(isVirtual, args, body[..i + 1]) ==
            match ExprConstraint(isVirtual, args, body[i])
            case None => BodyConstraints(isVirtual, args, body[..i])
            case Some(c) => BodyConstraints(isVirtual, args, body[..i])[c.ref := c.pattern]
  {
    assert body[..i + 1][..i] == body[..i];
  }

  lemma {:induction false} FilterPrioritised(es: seq<Entry>, rs: set<RuleNode>)
    requires DistinctPlaces(es) && rs <= Everything(es)
    ensures Prioritised(rs)
  {
    forall a, b | a in rs && b in rs && a.idx == b.idx && a.prio == b.prio ensures a == b {
      var i :| 0 <= i < |es| && es[i].rn == a;
      var j :| 0 <= j < |es| && es[j].rn == b;
    }
  }

  lemma {:induction false} FilterInEverything(res: Resolver, es: seq<Entry>)
    ensures Filter(res, es) <= Everything(es)
  {
  }

  lemma {:induction false} OneHeadValue(rs: set<RuleNode>, v: Term)
    ensures HeadValues(rs) == {v} <==> rs != {} && forall rn | rn in rs :: rn.value == v
  {
    if HeadValues(rs) == {v} {
      assert v in HeadValues(rs);
      forall rn | rn in rs ensures rn.value == v {
        assert rn.value in HeadValues(rs);
      }
    }
    if rs != {} && forall rn | rn in rs :: rn.value == v {
      var rn :| rn in rs;
      assert rn.value in HeadValues(rs);
    }
  }

  /** Evaluation may stop at the first result: all reported rules yield the same ground value. */
  ghost predicate MayExitEarly(rs: set<RuleNode>) {
    rs != {} && exists v :: IsGround(v) && forall rn | rn in rs :: rn.value == v
  }

  lemma {:induction false} EarlyExitMeans(rs: set<RuleNode>)
    ensures (exists v :: HeadValues(rs) == {v} && IsGround(v)) <==> MayExitEarly(rs)
  {
    if v :| HeadValues(rs) == {v} && IsGround(v) {
      OneHeadValue(rs, v);
    }
    if MayExitEarly(rs) {
      var v :| IsGround(v) && forall rn | rn in rs :: rn.value == v;
      OneHeadValue(rs, v);
      assert HeadValues(rs) == {v};
    }
  }

  predicate AllComplete(rules: seq<Chain>) {
    forall i, j | 0 <= i < |rules| && 0 <= j < |rules[i]| :: rules[i][j].isDefault || rules[i][j].complete
  }

  lemma {:induction false} ChainComplete(read: Rule -> map<Term, Pattern>, idx: nat, chain: Chain)
    requires forall j | 0 <= j < |chain| :: chain[j].isDefault || chain[j].complete
    ensures CompleteEntries(ChainEntries(read, idx, chain))
    decreases chain
  {
    if chain != [] {
      ChainComplete(read, idx, chain[..|chain| - 1]);
    }
  }

  lemma {:induction false} EntriesComplete(read: Rule -> map<Term, Pattern>, rules: seq<Chain>)
    requires AllComplete(rules)
    ensures CompleteEntries(Entries(read, rules))
    decreases rules
  {
    if rules != [] {
      var n := |rules| - 1;
      ChainComplete(read, n, rules[n]);
      EntriesComplete(read, rules[..n]);
    }
  }

  lemma {:induction false} WholeTrie(es: seq<Entry>, refs: seq<Term>)
    requires DistinctPlaces(es) && Covers(refs, es)
    ensures Once(TrieOf(EMPTY, es, refs)) && All(TrieOf(EMPTY, es, refs)) == Everything(es)
  {
    TrieOfEntries(_ => Unknown, es, refs);
  }

  class BaseDocEqIndex {
    const isVirtual: Term -> bool
    var root: Trie
    ghost var entries: seq<Entry>
    ghost var refs: seq<Term>

    /** The trie holds the entries, laid out in the given order. */
    ghost predicate Holds(order: seq<Term>)
      reads this
    {
      root == TrieOf(EMPTY, entries, order)
    }

    ghost predicate Valid()
      reads this
    {
      Holds(refs) && Covers(refs, entries) && DistinctPlaces(entries)
    }

    constructor (isVirtual: Term -> bool)
      ensures this.isVirtual == isVirtual && root == EMPTY && entries == [] && Valid()
    {
      this.isVirtual := isVirtual;
      root, entries, refs := EMPTY, [], [];
    }

    /** Collects the constraints of one rule, unless it prints. */
    method IndexRule(rule: Rule) returns (cs: map<Term, Pattern>)
      ensures cs == Constraints(isVirtual, rule)
    {
      cs := map[];
      for i := 0 to |rule.body|
        invariant forall j | 0 <= j < i :: !(rule.body[j].form.Operation? && rule.body[j].form.op == INTERNAL_PRINT)
      {
        if rule.body[i].form.Operation? && rule.body[i].form.op == INTERNAL_PRINT {
          return;
        }
      }
      for i := 0 to |rule.body|
        invariant cs == BodyConstraints(isVirtual, rule.args, rule.body[..i])
      {
        BodyConstraintsSnoc(isVirtual, rule.args, rule.body, i);
        var c := ExprConstraint(isVirtual, rule.args, rule.body[i]);
        if c.Some? {
          cs := cs[c.value.ref := c.value.pattern];
        }
      }
      assert rule.body[..|rule.body|] == rule.body;
    }

    /** Collects the constraints of all rules, and the references they are about. */
    method IndexRules(rules: seq<Chain>) returns (indices: map<(nat, nat), map<Term, Pattern>>, found: set<Term>)
      ensures forall i: nat, j: nat | i < |rules| && j < |rules[i]| && !rules[i][j].isDefault ::
                && (i, j) in indices && indices[(i, j)] == Constraints(isVirtual, rules[i][j])
                && forall ref | ref in indices[(i, j)] :: ref in found
    {
      indices, found := map[], {};
      for i := 0 to |rules|
        invariant forall k: nat, l: nat | k < i && l < |rules[k]| && !rules[k][l].isDefault ::
          && (k, l) in indices && indices[(k, l)] == Constraints(isVirtual, rules[k][l])
          && forall ref | ref in indices[(k, l)] :: ref in found
      {
        for j := 0 to |rules[i]|
          invariant forall k: nat, l: nat | ((k < i && l < |rules[k]|) || (k == i && l < j)) && !rules[k][l].isDefault ::
            && (k, l) in indices && indices[(k, l)] == Constraints(isVirtual, rules[k][l])
            && forall ref | ref in indices[(k, l)] :: ref in found
        {
          if !rules[i][j].isDefault {
            var cs := IndexRule(rules[i][j]);
            indices := indices[(i, j) := cs];
            found := found + cs.Keys;
          }
        }
      }
    }

    /** Lays the references out in some order. */
    method Layout(found: set<Term>) returns (order: seq<Term>)
      ensures forall ref :: ref in order <==> ref in found
    {
      order := [];
      var todo := found;
      while todo != {}
        invariant todo <= found && forall ref :: ref in order <==> ref in found - todo
        decreases todo
      {
        var ref :| ref in todo;
        order := order + [ref];
        todo := todo - {ref};
      }
    }

    /** One more entry is one more path through the trie. */
    method InsertRule(e: Entry, order: seq<Term>)
      requires Holds(order)
      modifies this
      ensures Holds(order) && entries == old(entries) + [e]
    {
      TrieOfSnoc(entries, e, order);
      root := InsertPath(root, Path(e.constraints, order), e.rn);
      entries := entries + [e];
    }

    /** Inserts the rules of one chain behind the entries already there, counting priorities. */
    method InsertChain(i: nat, chain: Chain, indices: map<(nat, nat), map<Term, Pattern>>, order: seq<Term>)
      requires Holds(order)
      requires forall j: nat | j < |chain| && !chain[j].isDefault ::
                 (i, j) in indices && indices[(i, j)] == Constraints(isVirtual, chain[j])
      modifies this
      ensures Holds(order) && entries == old(entries) + ChainEntries(Reading(isVirtual), i, chain)
    {
      var prio := 0;
      ghost var read := Reading(isVirtual);
      for j := 0 to |chain|
        invariant prio == |ChainEntries(read, i, chain[..j])|
        invariant Holds(order) && entries == old(entries) + ChainEntries(read, i, chain[..j])
      {
        assert chain[..j + 1][..j] == chain[..j];
        if !chain[j].isDefault {
          InsertRule(Entry(RuleNode(i, prio, chain[j].value, chain[j].complete), indices[(i, j)]), order);
          prio := prio + 1;
        }
      }
      assert chain[..|chain|] == chain;
    }

    /** Fills an empty index; there is nothing to index in an empty rule list. */
    method Build(rules: seq<Chain>) returns (ok: bool)
      requires root == EMPTY && entries == []
      modifies this
      ensures ok <==> rules != []
      ensures ok ==> Valid() && entries == Entries(Reading(isVirtual), rules)
      ensures !ok ==> unchanged(this)
    {
      if rules == [] {
        return false;
      }
      var indices, found := IndexRules(rules);
      var order := Layout(found);
      for i := 0 to |rules|
        invariant Holds(order) && entries == Entries(Reading(isVirtual), rules[..i])
      {
        InsertChain(i, rules[i], indices, order);
        assert rules[..i + 1][..i] == rules[..i];
      }
      assert rules[..|rules|] == rules;
      refs := order;
      EntriesCovered(Reading(isVirtual), rules, order);
      EntryPlaces(Reading(isVirtual), rules);
      ok := true;
    }

    /** Reports exactly the rules that the plain filter keeps, each once. */
    method Lookup(res: Resolver) returns (r: IndexResult)
      requires Valid()
      ensures Reports(r, Filter(res, entries))
      ensures CompleteEntries(entries) ==> (r.earlyExit <==> MayExitEarly(Filter(res, entries)))
    {
      var tr := new TraversalResult();
      ghost var rs := Filter(res, entries);
      TrieOfEntries(res, entries, refs);
      if CompleteEntries(entries) {
        TrieOfValues(entries, refs);
      }
      Traverse(res, root, tr);
      FilterInEverything(res, entries);
      FilterPrioritised(entries, rs);
      r := Summarise(tr, rs);
      EarlyExitMeans(rs);
    }

    /** Reports every rule that is not a default. */
    method AllRules() returns (r: IndexResult)
      requires Valid()
      ensures Reports(r, Everything(entries))
      ensures CompleteEntries(entries) ==> (r.earlyExit <==> MayExitEarly(Everything(entries)))
    {
      var tr := new TraversalResult();
      ghost var rs := Everything(entries);
      WholeTrie(entries, refs);
      if CompleteEntries(entries) {
        TrieOfValues(entries, refs);
      }
      Walk(root, tr);
      FilterPrioritised(entries, rs);
      r := Summarise(tr, rs);
      EarlyExitMeans(rs);
    }
  }

  lemma {:induction false} TrieOfSnoc(es: seq<Entry>, e: Entry, refs: seq<Term>)
    ensures TrieOf(EMPTY, es + [e], refs) == InsertPath(TrieOf(EMPTY, es, refs), Path(e.constraints, refs), e.rn)
  {
    assert (es + [e])[..|es|] == es;
  }

  lemma {:induction false} ChainCovered(read: Rule -> map<Term, Pattern>, idx: nat, chain: Chain, refs: seq<Term>)
    requires forall j: nat, ref | j < |chain| && !chain[j].isDefault && ref in read(chain[j]) :: ref in refs
    ensures Covers(refs, ChainEntries(read, idx, chain))
    decreases chain
  {
    if chain != [] {
      ChainCovered(read, idx, chain[..|chain| - 1], refs);
    }
  }

  lemma {:induction false} EntriesCovered(read: Rule -> map<Term, Pattern>, rules: seq<Chain>, refs: seq<Term>)
    requires forall i: nat, j: nat, ref | i < |rules| && j < |rules[i]| && !rules[i][j].isDefault && ref in read(rules[i][j]) ::
               ref in refs
    ensures Covers(refs, Entries(read, rules))
    decreases rules
  {
    if rules != [] {
      var n := |rules| - 1;
      ChainCovered(read, n, rules[n], refs);
      EntriesCovered(read, rules[..n], refs);
    }
  }

  /** An empty-handed resolver rules nothing out: everything is reported, and every lookup reports a part of it. */
  lemma {:induction false} LookupWithinAllRules(res: Resolver, es: seq<Entry>)
    ensures Filter(res, es) <= Everything(es)
    ensures Filter(_ => Unknown, es) == Everything(es)
  {
  }
}
