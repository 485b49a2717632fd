/** Which constraints a rule list gives rise to, and the trie built from them. */
module RuleIndex {
  import opened Syntax
  import opened IndexTrie
  import opened IndexReach
  import opened IndexOnce

  /** A rule as the index sees it; an else chain is the list of its rules. */
  datatype Rule = Rule(isDefault: bool, args: seq<Term>, body: seq<Expr>, value: Term, complete: bool)

  type Chain = seq<Rule>

  const EQUAL := Ref([Var("equal")])
  const INTERNAL_PRINT := Ref([Var("internal"), Const(String("print"))])
  const FUNCTION_ARGS := Var("args")
  const ROOTS := {Var("data"), Var("input")}

  // From a body to constraints.

  predicate IsGround(t: Term)
    decreases t, 0
  {
    match t
    case Const(_) => true
    case Var(_) => false
    case Ref(parts) => AllGround(Tail(parts))
    case Call(op, args) => IsGround(op) && AllGround(args)
    case Array(elems) => AllGround(elems)
    case Object(items) => AllItemsGround(items)
    case Set(members) => AllGround(members)
    case Comprehension(_, heads, body) => AllGround(heads) && BodyGround(body)
  }

  predicate AllGround(ts: seq<Term>)
    decreases ts, 0
  {
    ts == [] || (IsGround(ts[0]) && AllGround(ts[1..]))
  }

  predicate AllItemsGround(items: seq<Item>)
    decreases items, 0
  {
    items == [] || (ItemGround(items[0]) && AllItemsGround(items[1..]))
  }

  predicate ItemGround(item: Item)
    decreases item, 0
  {
    IsGround(item.key) && IsGround(item.value)
  }

  predicate BodyGround(body: seq<Expr>)
    decreases body, 0
  {
    body == [] || (ExprGround(body[0]) && BodyGround(body[1..]))
  }

  predicate ExprGround(e: Expr)
    decreases e, 0
  {
    match e.form
    case Single(t) => IsGround(t)
    case Operation(_, operands) => AllGround(operands)
  }

  predicate IsNested(parts: seq<Term>) {
    exists i | 0 <= i < |parts| :: parts[i].Ref?
  }

  predicate SlotTerm(t: Term) {
    t.Const? || t.Var?
  }

  function ToSlot(t: Term): Slot {
    if t.Const? then ScalarSlot(t.scalar) else AnySlot
  }

  function IndexValue(t: Term): Option<Pattern> {
    match t
    case Const(s) => Some(Exactly(s))
    case Var(_) => Some(AnyValue)
    case Array(elems) =>
      if forall i | 0 <= i < |elems| :: SlotTerm(elems[i])
      then Some(Tuple(seq(|elems|, i requires 0 <= i < |elems| => ToSlot(elems[i])))) else None
    case _ => None
  }

  function ArgRef(i: nat): Term {
    Ref([FUNCTION_ARGS, Const(Number(i))])
  }

  /** The first argument position that holds the term. */
  function ArgIndex(args: seq<Term>, t: Term): (r: Option<nat>)
    ensures r.Some? ==> r.value < |args| && args[r.value] == t
  {
    if args == [] then None
    else if args[0] == t then Some(0)
    else match ArgIndex(args[1..], t) case None => None case Some(i) => Some(i + 1)
  }

  function OperandsConstraint(isVirtual: Term -> bool, args: seq<Term>, a: Term, b: Term): Option<Constraint> {
    match (a, IndexValue(b))
    case (Var(_), Some(p)) => (match ArgIndex(args, a) case None => None case Some(i) => Some(Constraint(ArgRef(i), p)))
    case (Ref(parts), Some(p)) =>
      if parts != [] && parts[0] in ROOTS && !isVirtual(a) && !IsNested(parts) && AllGround(Tail(parts))
      then Some(Constraint(a, p)) else None
    case _ => None
  }

  function ExprConstraint(isVirtual: Term -> bool, args: seq<Term>, e: Expr): Option<Constraint> {
    if e.negated || e.withs != [] || !e.form.Operation? || |e.form.operands| < 2 then None
    else if e.form.op == EQUALITY || (e.form.op == EQUAL && |e.form.operands| == 2) then
      var a, b := e.form.operands[0], e.form.operands[1];
      if OperandsConstraint(isVirtual, args, a, b).Some? then OperandsConstraint(isVirtual, args, a, b)
      else OperandsConstraint(isVirtual, args, b, a)
    else None
  }

  predicate Prints(body: seq<Expr>) {
    exists i | 0 <= i < |body| :: body[i].form.Operation? && body[i].form.op == INTERNAL_PRINT
  }

  /** Per reference, the last constraint of the body. */
  function BodyConstraints(isVirtual: Term -> bool, args: seq<Term>, body: seq<Expr>): map<Term, Pattern> {
    if body == [] then map[]
    else
      var before := BodyConstraints(isVirtual, args, body[..|body| - 1]);
      match ExprConstraint(isVirtual, args, body[|body| - 1])
      case None => before
      case Some(c) => before[c.ref := c.pattern]
  }

  function Constraints(isVirtual: Term -> bool, rule: Rule): map<Term, Pattern> {
    if Prints(rule.body) then map[] else BodyConstraints(isVirtual, rule.args, rule.body)
  }

  /** How a rule is read: its constraints, where some references are virtual. */
  function Reading(isVirtual: Term -> bool): Rule -> map<Term, Pattern> {
    rule => Constraints(isVirtual, rule)
  }

  // The entries of the index, in source order.

  datatype Entry = Entry(rn: RuleNode, constraints: map<Term, Pattern>)

  /** The rules of a chain that are not defaults, numbered in order. */
  function ChainEntries(read: Rule -> map<Term, Pattern>, idx: nat, chain: Chain): seq<Entry>
    decreases chain
  {
    if chain == [] then []
    else
      var es, last := ChainEntries(read, idx, chain[..|chain| - 1]), chain[|chain| - 1];
      if last.isDefault then es else es + [Entry(RuleNode(idx, |es|, last.value, last.complete), read(last))]
  }

  function Entries(read: Rule -> map<Term, Pattern>, rules: seq<Chain>): seq<Entry>
    decreases rules
  {
    if rules == [] then []
    else
      var n := |rules| - 1;
      Entries(read, rules[..n]) + ChainEntries(read, n, rules[n])
  }

  /** The entries carry different rules, one place each. */
  ghost predicate DistinctPlaces(es: seq<Entry>) {
    forall i, j | 0 <= i < j < |es| :: es[i].rn.idx != es[j].rn.idx || es[i].rn.prio != es[j].rn.prio
  }

  ghost predicate Numbered(es: seq<Entry>, idx: nat) {
    forall i | 0 <= i < |es| :: es[i].rn.idx == idx && es[i].rn.prio == i
  }

  ghost predicate Before(es: seq<Entry>, n: nat) {
    forall i | 0 <= i < |es| :: es[i].rn.idx < n
  }

  lemma {:induction false} ChainPlaces(read: Rule -> map<Term, Pattern>, idx: nat, chain: Chain)
    ensures Numbered(ChainEntries(read, idx, chain), idx)
    decreases chain
  {
    if chain != [] {
      ChainPlaces(read, idx, chain[..|chain| - 1]);
    }
  }

  lemma {:induction false} EntryPlaces(read: Rule -> map<Term, Pattern>, rules: seq<Chain>)
    ensures DistinctPlaces(Entries(read, rules)) && Before(Entries(read, rules), |rules|)
    decreases rules
  {
    if rules != [] {
      var n := |rules| - 1;
      EntryPlaces(read, rules[..n]);
      ChainPlaces(read, n, rules[n]);
    }
  }

  // The trie for a layout of the references.

  function Path(cs: map<Term, Pattern>, refs: seq<Term>): seq<Constraint> {
    if cs == map[] then []
    else seq(|refs|, i requires 0 <= i < |refs| => Constraint(refs[i], if refs[i] in cs then cs[refs[i]] else Absent))
  }

  function TrieOf(t: Trie, es: seq<Entry>, refs: seq<Term>): Trie
    requires t.Node?
    ensures TrieOf(t, es, refs).Node?
  {
    if es == [] then t
    else
      var t' := TrieOf(t, es[..|es| - 1], refs);
      InsertPath(t', Path(es[|es| - 1].constraints, refs), es[|es| - 1].rn)
  }

  ghost predicate Covers(refs: seq<Term>, es: seq<Entry>) {
    forall i, ref | 0 <= i < |es| && ref in es[i].constraints :: ref in refs
  }

  /** The plain filter: no reference contradicts what the rule demands of it. */
  ghost predicate Selected(res: Resolver, cs: map<Term, Pattern>) {
    forall ref | ref in cs :: Matches(cs[ref], res(ref))
  }

  ghost function Filter(res: Resolver, es: seq<Entry>): set<RuleNode> {
    set i | 0 <= i < |es| && Selected(res, es[i].constraints) :: es[i].rn
  }

  ghost function Everything(es: seq<Entry>): set<RuleNode> {
    set i | 0 <= i < |es| :: es[i].rn
  }

  lemma {:induction false} PathSelects(res: Resolver, cs: map<Term, Pattern>, refs: seq<Term>)
    requires forall ref | ref in cs :: ref in refs
    ensures MatchesAll(res, Path(cs, refs)) <==> Selected(res, cs)
    ensures Along(Path(cs, refs), refs)
  {
    var path := Path(cs, refs);
    if cs != map[] {
      if MatchesAll(res, path) {
        forall ref | ref in cs ensures Matches(cs[ref], res(ref)) {
          var i :| 0 <= i < |refs| && refs[i] == ref;
          assert Matches(path[i].pattern, res(path[i].ref));
        }
      }
    }
  }

  /** What holds of the trie of any rule list and any layout. */
  lemma {:induction false} TrieOfEntries(res: Resolver, es: seq<Entry>, refs: seq<Term>)
    requires DistinctPlaces(es) && Covers(refs, es)
    ensures var t := TrieOf(EMPTY, es, refs);
            && Shaped(t, refs) && Once(t) && All(t) == Everything(es) && Reach(res, t) == Filter(res, es)
  {
    if es == [] {
      EmptyAll(EMPTY);
      EmptyReach(res, EMPTY);
    } else {
      var n := |es| - 1;
      var init, e := es[..n], es[n];
      assert Covers(refs, init);
      TrieOfEntries(res, init, refs);
      var t, path := TrieOf(EMPTY, init, refs), Path(e.constraints, refs);
      assert forall ref | ref in e.constraints :: ref in refs;
      PathSelects(res, e.constraints, refs);
      InsertPathShaped(t, path, e.rn, refs);
      ReachInsertPath(res, t, path, e.rn, refs);
      assert e.rn !in Everything(init);
      AllInsertPath(t, path, e.rn);
      OnceInsertPath(t, path, e.rn);
      SnocEntries(res, es);
    }
  }

  lemma {:induction false} SnocEntries(res: Resolver, es: seq<Entry>)
    requires es != []
    ensures var n := |es| - 1;
            && Everything(es) == Everything(es[..n]) + {es[n].rn}
            && Filter(res, es) == Filter(res, es[..n]) + Hit(Selected(res, es[n].constraints), es[n].rn)
  {
  }

  /** Whatever order the references are laid out in, the same rules are reached. */
  lemma {:induction false} LayoutIrrelevant(res: Resolver, es: seq<Entry>, refs: seq<Term>, refs': seq<Term>)
    requires DistinctPlaces(es) && Covers(refs, es) && Covers(refs', es)
    ensures Reach(res, TrieOf(EMPTY, es, refs)) == Reach(res, TrieOf(EMPTY, es, refs'))
  {
    TrieOfEntries(res, es, refs);
    TrieOfEntries(res, es, refs');
  }

  ghost predicate CompleteEntries(es: seq<Entry>) {
    forall i | 0 <= i < |es| :: es[i].rn.complete
  }

  lemma {:induction false} TrieOfValues(es: seq<Entry>, refs: seq<Term>)
    requires CompleteEntries(es)
    ensures ValuesKept(TrieOf(EMPTY, es, refs))
  {
    if es != [] {
      var n := |es| - 1;
      TrieOfValues(es[..n], refs);
      ValuesInsertPath(TrieOf(EMPTY, es[..n], refs), Path(es[n].constraints, refs), es[n].rn);
    }
  }
}
