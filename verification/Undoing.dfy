/** Renaming can be undone: the map of rewritten variables leads back to the source. */
module Undoing {
  import opened Syntax
  import opened Renaming

  // Going back.

  function Back(r: map<Name, Name>, x: Name): Name {
    if x in r then r[x] else x
  }

  function RestoreTerm(r: map<Name, Name>, t: Phrase): Phrase
    decreases t, 1
  {
    match t
    case Lit(_) => t
    case Variable(x) => Variable(Back(r, x))
    case RootDocument(x) => Variable(Back(r, x))
    case Invoke(op, args) => Invoke(RestoreTerm(r, op), RestoreTerms(r, args))
    case Ordered(parts) => Ordered(RestoreTerms(r, parts))
    case Listing(elems) => Listing(RestoreTerms(r, elems))
    case Record(items) => Record(RestoreItems(r, items))
    case Closure(heads, body) => Closure(RestoreTerms(r, heads), NonEmpty(RestoreBody(r, body)))
  }

  function RestoreTerms(r: map<Name, Name>, ts: seq<Phrase>): seq<Phrase>
    decreases ts, 0
  {
    if ts == [] then [] else [RestoreTerm(r, ts[0])] + RestoreTerms(r, ts[1..])
  }

  function RestoreItems(r: map<Name, Name>, items: seq<Entry>): seq<Entry>
    decreases items, 0
  {
    if items == [] then [] else [RestoreItem(r, items[0])] + RestoreItems(r, items[1..])
  }

  function RestoreItem(r: map<Name, Name>, item: Entry): Entry
    decreases item, 0
  {
    Entry(RestoreTerm(r, item.key), RestoreTerm(r, item.value))
  }

  /** Declarations are dropped, and assignments become equalities. */
  function RestoreBody(r: map<Name, Name>, body: seq<Stmt>): seq<Stmt>
    decreases body, 0
  {
    if body == [] then [] else RestoreStmt(r, body[0]) + RestoreBody(r, body[1..])
  }

  function RestoreStmt(r: map<Name, Name>, s: Stmt): seq<Stmt>
    decreases s, 0
  {
    match s
    case Plain(terms) => [Plain(RestoreTerms(r, terms))]
    case Assign(_, lhs, rhs) => [Plain([EQ, RestoreTerm(r, lhs), RestoreTerm(r, rhs)])]
    case SomeDecl(_) => []
  }

  // What the stack keeps.

  /** A name stands for a source variable: itself, or recorded as rewritten from it. */
  ghost predicate StandsFor(r: map<Name, Name>, source: set<Name>, x: Name, y: Name) {
    x in source && (y == x || (y in r && r[y] == x))
  }

  ghost predicate FrameClean(r: map<Name, Name>, source: set<Name>, f: Frame) {
    forall x | x in f.vs :: StandsFor(r, source, x, f.vs[x])
  }

  ghost predicate Clean(gen: nat -> Name, source: set<Name>, st: State) {
    && Supply(gen, source)
    && st.frames != []
    && (forall i | 0 <= i < |st.frames| :: FrameClean(st.rewritten, source, st.frames[i]))
    && st.rewritten.Keys !! source
    && (forall y :: y in st.rewritten <==> Issued(gen, st.next, y))
  }

  ghost predicate Issued(gen: nat -> Name, n: nat, y: Name) {
    exists k: nat | k < n :: gen(k) == y
  }

  ghost predicate Extends(r: map<Name, Name>, r': map<Name, Name>) {
    forall y | y in r :: y in r' && r'[y] == r[y]
  }

  /** The state after a step: still clean, with nothing forgotten. */
  ghost predicate Kept(gen: nat -> Name, source: set<Name>, st: State, st': State) {
    Clean(gen, source, st') && Extends(st.rewritten, st'.rewritten)
  }

  lemma {:induction false} LookupStandsFor(r: map<Name, Name>, source: set<Name>, frames: seq<Frame>, x: Name)
    requires forall i | 0 <= i < |frames| :: FrameClean(r, source, frames[i])
    requires x in source
    ensures Lookup(frames, x).Some? ==> StandsFor(r, source, x, Lookup(frames, x).value)
    decreases |frames|
  {
    if frames != [] {
      LookupStandsFor(r, source, frames[..|frames| - 1], x);
    }
  }

  lemma {:induction false} VarKept(gen: nat -> Name, source: set<Name>, st: State, x: Name)
    requires Clean(gen, source, st) && x in source
    ensures Kept(gen, source, st, RewriteVar(st, x))
  {
  }

  lemma {:induction false} DeclareKept(gen: nat -> Name, source: set<Name>, st: State, x: Name, occ: Occurrence)
    requires Clean(gen, source, st) && x in source
    ensures Kept(gen, source, st, Declare(gen, st, x, occ))
  {
  }

  lemma {:induction false} FailKept(gen: nat -> Name, source: set<Name>, st: State)
    requires Clean(gen, source, st)
    ensures Kept(gen, source, st, Fail(st))
  {
  }

  lemma {:induction false} DeclareAllKept(gen: nat -> Name, source: set<Name>, st: State, names: seq<Name>, st': State)
    requires Clean(gen, source, st) && (forall x | x in names :: x in source) && st' == DeclareAll(gen, st, names)
    ensures Kept(gen, source, st, st')
    decreases names
  {
    if names != [] {
      DeclareKept(gen, source, st, names[0], Declared);
      DeclareAllKept(gen, source, Declare(gen, st, names[0], Declared), names[1..], st');
    }
  }

  lemma {:induction false} PushClean(gen: nat -> Name, source: set<Name>, st: State)
    requires Clean(gen, source, st)
    ensures Clean(gen, source, Push(st))
  {
  }

  lemma {:induction false} PopClean(gen: nat -> Name, source: set<Name>, st: State)
    requires Clean(gen, source, st) && |st.frames| > 1
    ensures Clean(gen, source, Pop(st))
  {
  }

  // Every step keeps the stack clean.

  lemma {:induction false} TermKept(gen: nat -> Name, source: set<Name>, st: State, t: Phrase)
    requires Clean(gen, source, st) && Names(t) <= source
    ensures Kept(gen, source, st, RewriteTerm(gen, st, t).0)
    decreases t, 1
  {
    match t
    case Lit(_) =>
    case Variable(x) => VarKept(gen, source, st, x);
    case RootDocument(_) =>
    case Invoke(op, args) =>
      var st1 := if Shadowed(st, op) then Fail(st) else st;
      FailKept(gen, source, st);
      TermKept(gen, source, st1, op);
      TermsKept(gen, source, RewriteTerm(gen, st1, op).0, args);
    case Ordered(parts) => TermsKept(gen, source, st, parts);
    case Listing(elems) => TermsKept(gen, source, st, elems);
    case Record(items) => ItemsKept(gen, source, st, items);
    case Closure(heads, body) =>
      PushClean(gen, source, st);
      BodyKept(gen, source, Push(st), body);
      var b := RewriteBody(gen, Push(st), body);
      TermsKept(gen, source, b.0, heads);
      PopClean(gen, source, RewriteTerms(gen, b.0, heads).0);
  }

  lemma {:induction false} TermsKept(gen: nat -> Name, source: set<Name>, st: State, ts: seq<Phrase>)
    requires Clean(gen, source, st) && NamesOf(ts) <= source
    ensures Kept(gen, source, st, RewriteTerms(gen, st, ts).0)
    decreases ts, 0
  {
    if ts != [] {
      TermKept(gen, source, st, ts[0]);
      TermsKept(gen, source, RewriteTerm(gen, st, ts[0]).0, ts[1..]);
    }
  }

  lemma {:induction false} ItemsKept(gen: nat -> Name, source: set<Name>, st: State, items: seq<Entry>)
    requires Clean(gen, source, st) && ItemNames(items) <= source
    ensures Kept(gen, source, st, RewriteItems(gen, st, items).0)
    decreases items, 0
  {
    if items != [] {
      ItemKept(gen, source, st, items[0]);
      ItemsKept(gen, source, RewriteItem(gen, st, items[0]).0, items[1..]);
    }
  }

  lemma {:induction false} ItemKept(gen: nat -> Name, source: set<Name>, st: State, item: Entry)
    requires Clean(gen, source, st) && EntryNames(item) <= source
    ensures Kept(gen, source, st, RewriteItem(gen, st, item).0)
    decreases item, 0
  {
    TermKept(gen, source, st, item.key);
    TermKept(gen, source, RewriteTerm(gen, st, item.key).0, item.value);
  }

  lemma {:induction false} BodyKept(gen: nat -> Name, source: set<Name>, st: State, body: seq<Stmt>)
    requires Clean(gen, source, st) && BodyNames(body) <= source
    ensures Kept(gen, source, st, RewriteBody(gen, st, body).0)
    decreases body, 0
  {
    if body != [] {
      StmtKept(gen, source, st, body[0]);
      BodyKept(gen, source, RewriteStmt(gen, st, body[0]).0, body[1..]);
    }
  }

  lemma {:induction false} StmtKept(gen: nat -> Name, source: set<Name>, st: State, s: Stmt)
    requires Clean(gen, source, st) && StmtNames(s) <= source
    ensures Kept(gen, source, st, RewriteStmt(gen, st, s).0)
    decreases s, 0
  {
    match s
    case Plain(terms) => TermsKept(gen, source, st, terms);
    case SomeDecl(names) => DeclareAllKept(gen, source, st, names, DeclareAll(gen, st, names));
    case Assign(negated, lhs, rhs) =>
      if negated {
        FailKept(gen, source, st);
      } else {
        TermKept(gen, source, st, rhs);
        PatternKept(gen, source, RewriteTerm(gen, st, rhs).0, lhs);
      }
  }

  lemma {:induction false} PatternKept(gen: nat -> Name, source: set<Name>, st: State, t: Phrase)
    requires Clean(gen, source, st) && Names(t) <= source
    ensures Kept(gen, source, st, RewritePattern(gen, st, t).0)
    decreases t, 1
  {
    match t
    case Variable(x) => DeclareKept(gen, source, st, x, Assigned);
    case RootDocument(x) => DeclareKept(gen, source, st, x, Assigned);
    case Listing(elems) => PatternsKept(gen, source, st, elems);
    case Record(items) => ItemPatternsKept(gen, source, st, items);
    case _ => FailKept(gen, source, st);
  }

  lemma {:induction false} PatternsKept(gen: nat -> Name, source: set<Name>, st: State, ts: seq<Phrase>)
    requires Clean(gen, source, st) && NamesOf(ts) <= source
    ensures Kept(gen, source, st, RewritePatterns(gen, st, ts).0)
    decreases ts, 0
  {
    if ts != [] {
      PatternKept(gen, source, st, ts[0]);
      PatternsKept(gen, source, RewritePattern(gen, st, ts[0]).0, ts[1..]);
    }
  }

  lemma {:induction false} ItemPatternsKept(gen: nat -> Name, source: set<Name>, st: State, items: seq<Entry>)
    requires Clean(gen, source, st) && ItemNames(items) <= source
    ensures Kept(gen, source, st, RewriteItemPatterns(gen, st, items).0)
    decreases items, 0
  {
    if items != [] {
      ItemPatternKept(gen, source, st, items[0]);
      ItemPatternsKept(gen, source, RewriteItemPattern(gen, st, items[0]).0, items[1..]);
    }
  }

  lemma {:induction false} ItemPatternKept(gen: nat -> Name, source: set<Name>, st: State, item: Entry)
    requires Clean(gen, source, st) && EntryNames(item) <= source
    ensures Kept(gen, source, st, RewriteItemPattern(gen, st, item).0)
    decreases item, 0
  {
    PatternKept(gen, source, st, item.value);
  }

  // Going back restores the source.

  /** A map that records at least what the state does, and no source variable. */
  ghost predicate LeadsBack(r: map<Name, Name>, source: set<Name>, st: State) {
    Extends(st.rewritten, r) && r.Keys !! source
  }

  lemma {:induction false} LeadsBackBefore(gen: nat -> Name, r: map<Name, Name>, source: set<Name>, st: State, st': State)
    requires Kept(gen, source, st, st') && LeadsBack(r, source, st')
    ensures LeadsBack(r, source, st)
  {
  }

  lemma {:induction false} NameUndone(gen: nat -> Name, source: set<Name>, st: State, x: Name, r: map<Name, Name>)
    requires Clean(gen, source, st) && x in source && LeadsBack(r, source, st)
    ensures Back(r, NewName(st, x)) == x && Back(map[], x) == x
  {
    LookupStandsFor(st.rewritten, source, st.frames, x);
  }

  lemma {:induction false} TermUndone(gen: nat -> Name, source: set<Name>, st: State, t: Phrase, r: map<Name, Name>)
    requires Clean(gen, source, st) && Names(t) <= source && RewriteTerm(gen, st, t).0.ok
    requires LeadsBack(r, source, RewriteTerm(gen, st, t).0)
    ensures RestoreTerm(r, RewriteTerm(gen, st, t).1) == RestoreTerm(map[], t)
    decreases t, 1
  {
    TermKept(gen, source, st, t);
    match t
    case Lit(_) =>
    case Variable(x) => NameUndone(gen, source, st, x, r);
    case RootDocument(x) => NameUndone(gen, source, st, x, r);
    case Invoke(op, args) =>
      TermKept(gen, source, st, op);
      var o := RewriteTerm(gen, st, op);
      TermsKept(gen, source, o.0, args);
      TermUndone(gen, source, st, op, r);
      TermsUndone(gen, source, o.0, args, r);
    case Ordered(parts) => TermsUndone(gen, source, st, parts, r);
    case Listing(elems) => TermsUndone(gen, source, st, elems, r);
    case Record(items) => ItemsUndone(gen, source, st, items, r);
    case Closure(heads, body) => ClosureUndone(gen, source, st, heads, body, r);
  }

  lemma {:induction false} ClosureUndone(gen: nat -> Name, source: set<Name>, st: State, heads: seq<Phrase>, body: seq<Stmt>, r: map<Name, Name>)
    requires Clean(gen, source, st) && NamesOf(heads) <= source && BodyNames(body) <= source
    requires RewriteTerm(gen, st, Closure(heads, body)).0.ok && LeadsBack(r, source, RewriteTerm(gen, st, Closure(heads, body)).0)
    ensures RestoreTerm(r, RewriteTerm(gen, st, Closure(heads, body)).1) == RestoreTerm(map[], Closure(heads, body))
    decreases Closure(heads, body), 0
  {
    PushClean(gen, source, st);
    BodyKept(gen, source, Push(st), body);
    var b := RewriteBody(gen, Push(st), body);
    TermsKept(gen, source, b.0, heads);
    var h := RewriteTerms(gen, b.0, heads);
    assert LeadsBack(r, source, h.0);
    LeadsBackBefore(gen, r, source, b.0, h.0);
    BodyUndone(gen, source, Push(st), body, r);
    TermsUndone(gen, source, b.0, heads, r);
    NonEmptyUndone(r, b.1, RestoreBody(map[], body));
  }

  lemma {:induction false} NonEmptyUndone(r: map<Name, Name>, b: seq<Stmt>, c: seq<Stmt>)
    requires RestoreBody(r, b) == c
    ensures NonEmpty(RestoreBody(r, NonEmpty(b))) == NonEmpty(c)
  {
    if b == [] {
      assert [TRUE][1..] == [] && [Lit("true")][1..] == [];
      assert RestoreTerms(r, [Lit("true")]) == [Lit("true")];
      assert RestoreBody(r, [TRUE]) == [TRUE];
    }
  }

  lemma {:induction false} TermsUndone(gen: nat -> Name, source: set<Name>, st: State, ts: seq<Phrase>, r: map<Name, Name>)
    requires Clean(gen, source, st) && NamesOf(ts) <= source && RewriteTerms(gen, st, ts).0.ok
    requires LeadsBack(r, source, RewriteTerms(gen, st, ts).0)
    ensures RestoreTerms(r, RewriteTerms(gen, st, ts).1) == RestoreTerms(map[], ts)
    decreases ts, 0
  {
    if ts != [] {
      TermKept(gen, source, st, ts[0]);
      var a := RewriteTerm(gen, st, ts[0]);
      TermsKept(gen, source, a.0, ts[1..]);
      TermUndone(gen, source, st, ts[0], r);
      TermsUndone(gen, source, a.0, ts[1..], r);
      assert RewriteTerms(gen, st, ts).1[1..] == RewriteTerms(gen, a.0, ts[1..]).1;
    }
  }

  lemma {:induction false} ItemsUndone(gen: nat -> Name, source: set<Name>, st: State, items: seq<Entry>, r: map<Name, Name>)
    requires Clean(gen, source, st) && ItemNames(items) <= source && RewriteItems(gen, st, items).0.ok
    requires LeadsBack(r, source, RewriteItems(gen, st, items).0)
    ensures RestoreItems(r, RewriteItems(gen, st, items).1) == RestoreItems(map[], items)
    decreases items, 0
  {
    if items != [] {
      ItemKept(gen, source, st, items[0]);
      var a := RewriteItem(gen, st, items[0]);
      ItemsKept(gen, source, a.0, items[1..]);
      ItemUndone(gen, source, st, items[0], r);
      ItemsUndone(gen, source, a.0, items[1..], r);
      assert RewriteItems(gen, st, items).1[1..] == RewriteItems(gen, a.0, items[1..]).1;
    }
  }

  lemma {:induction false} ItemUndone(gen: nat -> Name, source: set<Name>, st: State, item: Entry, r: map<Name, Name>)
    requires Clean(gen, source, st) && EntryNames(item) <= source && RewriteItem(gen, st, item).0.ok
    requires LeadsBack(r, source, RewriteItem(gen, st, item).0)
    ensures RestoreItem(r, RewriteItem(gen, st, item).1) == RestoreItem(map[], item)
    decreases item, 0
  {
    TermKept(gen, source, st, item.key);
    var k := RewriteTerm(gen, st, item.key);
    TermKept(gen, source, k.0, item.value);
    TermUndone(gen, source, st, item.key, r);
    TermUndone(gen, source, k.0, item.value, r);
  }

  lemma {:induction false} BodyUndone(gen: nat -> Name, source: set<Name>, st: State, body: seq<Stmt>, r: map<Name, Name>)
    requires Clean(gen, source, st) && BodyNames(body) <= source && RewriteBody(gen, st, body).0.ok
    requires LeadsBack(r, source, RewriteBody(gen, st, body).0)
    ensures RestoreBody(r, RewriteBody(gen, st, body).1) == RestoreBody(map[], body)
    decreases body, 0
  {
    if body != [] {
      StmtKept(gen, source, st, body[0]);
      var a := RewriteStmt(gen, st, body[0]);
      BodyKept(gen, source, a.0, body[1..]);
      StmtUndone(gen, source, st, body[0], r);
      BodyUndone(gen, source, a.0, body[1..], r);
      RestoreConcat(r, a.1, RewriteBody(gen, a.0, body[1..]).1);
    }
  }

  lemma {:induction false} RestoreHead(r: map<Name, Name>, all: seq<Stmt>, s: Stmt, rest: seq<Stmt>)
    requires all == [s] + rest
    ensures RestoreBody(r, all) == RestoreStmt(r, s) + RestoreBody(r, rest)
  {
  }

  lemma {:induction false} Associate(a: seq<Stmt>, b: seq<Stmt>, c: seq<Stmt>)
    ensures a + (b + c) == (a + b) + c
  {
  }

  lemma {:induction false} RestoreConcat(r: map<Name, Name>, a: seq<Stmt>, b: seq<Stmt>)
    ensures RestoreBody(r, a + b) == RestoreBody(r, a) + RestoreBody(r, b)
    decreases a
  {
    if a == [] {
      assert a + b == b;
    } else {
      RestoreConcat(r, a[1..], b);
      RestoreHead(r, a + b, a[0], a[1..] + b);
      Associate(RestoreStmt(r, a[0]), RestoreBody(r, a[1..]), RestoreBody(r, b));
    }
  }

  lemma {:induction false} StmtUndone(gen: nat -> Name, source: set<Name>, st: State, s: Stmt, r: map<Name, Name>)
    requires Clean(gen, source, st) && StmtNames(s) <= source && RewriteStmt(gen, st, s).0.ok
    requires LeadsBack(r, source, RewriteStmt(gen, st, s).0)
    ensures RestoreBody(r, RewriteStmt(gen, st, s).1) == RestoreStmt(map[], s)
    decreases s, 0
  {
    match s
    case Plain(terms) =>
      TermsUndone(gen, source, st, terms, r);
      RestoreOne(r, Plain(RewriteTerms(gen, st, terms).1));
    case SomeDecl(_) =>
    case Assign(_, lhs, rhs) =>
      TermKept(gen, source, st, rhs);
      var b := RewriteTerm(gen, st, rhs);
      PatternKept(gen, source, b.0, lhs);
      TermUndone(gen, source, st, rhs, r);
      PatternUndone(gen, source, b.0, lhs, r);
      var a := RewritePattern(gen, b.0, lhs);
      RestoreOne(r, Plain([EQ, a.1, b.1]));
      RestoreEquality(r, a.1, b.1);
  }

  lemma {:induction false} RestoreOne(r: map<Name, Name>, s: Stmt)
    ensures RestoreBody(r, [s]) == RestoreStmt(r, s)
  {
  }

  lemma {:induction false} RestoreEquality(r: map<Name, Name>, a: Phrase, b: Phrase)
    ensures RestoreTerms(r, [EQ, a, b]) == [EQ, RestoreTerm(r, a), RestoreTerm(r, b)]
  {
    assert [EQ, a, b][1..] == [a, b] && [a, b][1..] == [b] && [b][1..] == [];
    assert RestoreTerms(r, [b]) == [RestoreTerm(r, b)];
    assert RestoreTerms(r, [a, b]) == [RestoreTerm(r, a), RestoreTerm(r, b)];
  }

  lemma {:induction false} PatternUndone(gen: nat -> Name, source: set<Name>, st: State, t: Phrase, r: map<Name, Name>)
    requires Clean(gen, source, st) && Names(t) <= source && RewritePattern(gen, st, t).0.ok
    requires LeadsBack(r, source, RewritePattern(gen, st, t).0)
    ensures RestoreTerm(r, RewritePattern(gen, st, t).1) == RestoreTerm(map[], t)
    decreases t, 1
  {
    match t
    case Variable(x) => DeclareUndone(gen, source, st, x, r);
    case RootDocument(x) => DeclareUndone(gen, source, st, x, r);
    case Listing(elems) => PatternsUndone(gen, source, st, elems, r);
    case Record(items) => ItemPatternsUndone(gen, source, st, items, r);
    case _ =>
  }

  lemma {:induction false} DeclareUndone(gen: nat -> Name, source: set<Name>, st: State, x: Name, r: map<Name, Name>)
    requires Clean(gen, source, st) && x in source && Declare(gen, st, x, Assigned).ok
    requires LeadsBack(r, source, Declare(gen, st, x, Assigned))
    ensures Back(r, gen(st.next)) == x && Back(map[], x) == x
  {
  }

  lemma {:induction false} PatternsUndone(gen: nat -> Name, source: set<Name>, st: State, ts: seq<Phrase>, r: map<Name, Name>)
    requires Clean(gen, source, st) && NamesOf(ts) <= source && RewritePatterns(gen, st, ts).0.ok
    requires LeadsBack(r, source, RewritePatterns(gen, st, ts).0)
    ensures RestoreTerms(r, RewritePatterns(gen, st, ts).1) == RestoreTerms(map[], ts)
    decreases ts, 0
  {
    if ts != [] {
      PatternKept(gen, source, st, ts[0]);
      var a := RewritePattern(gen, st, ts[0]);
      PatternsKept(gen, source, a.0, ts[1..]);
      PatternUndone(gen, source, st, ts[0], r);
      PatternsUndone(gen, source, a.0, ts[1..], r);
      assert RewritePatterns(gen, st, ts).1[1..] == RewritePatterns(gen, a.0, ts[1..]).1;
    }
  }

  lemma {:induction false} ItemPatternsUndone(gen: nat -> Name, source: set<Name>, st: State, items: seq<Entry>, r: map<Name, Name>)
    requires Clean(gen, source, st) && ItemNames(items) <= source && RewriteItemPatterns(gen, st, items).0.ok
    requires LeadsBack(r, source, RewriteItemPatterns(gen, st, items).0)
    ensures RestoreItems(r, RewriteItemPatterns(gen, st, items).1) == RestoreItems(map[], items)
    decreases items, 0
  {
    if items != [] {
      ItemPatternKept(gen, source, st, items[0]);
      var a := RewriteItemPattern(gen, st, items[0]);
      ItemPatternsKept(gen, source, a.0, items[1..]);
      ItemPatternUndone(gen, source, st, items[0], r);
      ItemPatternsUndone(gen, source, a.0, items[1..], r);
      assert RewriteItemPatterns(gen, st, items).1[1..] == RewriteItemPatterns(gen, a.0, items[1..]).1;
    }
  }

  lemma {:induction false} ItemPatternUndone(gen: nat -> Name, source: set<Name>, st: State, item: Entry, r: map<Name, Name>)
    requires Clean(gen, source, st) && EntryNames(item) <= source && RewriteItemPattern(gen, st, item).0.ok
    requires LeadsBack(r, source, RewriteItemPattern(gen, st, item).0)
    ensures RestoreItem(r, RewriteItemPattern(gen, st, item).1) == RestoreItem(map[], item)
    decreases item, 0
  {
    PatternUndone(gen, source, st, item.value, r);
    SourceStays(source, item.key, r);
  }

  // Source terms have nothing to restore.

  lemma {:induction false} SourceStays(source: set<Name>, t: Phrase, r: map<Name, Name>)
    requires Names(t) <= source && r.Keys !! source
    ensures RestoreTerm(r, t) == RestoreTerm(map[], t)
    decreases t, 1
  {
    match t
    case Lit(_) =>
    case Variable(_) =>
    case RootDocument(_) =>
    case Invoke(op, args) =>
      SourceStays(source, op, r);
      SourcesStay(source, args, r);
    case Ordered(parts) => SourcesStay(source, parts, r);
    case Listing(elems) => SourcesStay(source, elems, r);
    case Record(items) => SourceItemsStay(source, items, r);
    case Closure(heads, body) =>
      SourcesStay(source, heads, r);
      SourceBodyStays(source, body, r);
  }

  lemma {:induction false} SourcesStay(source: set<Name>, ts: seq<Phrase>, r: map<Name, Name>)
    requires NamesOf(ts) <= source && r.Keys !! source
    ensures RestoreTerms(r, ts) == RestoreTerms(map[], ts)
    decreases ts, 0
  {
    if ts != [] {
      SourceStays(source, ts[0], r);
      SourcesStay(source, ts[1..], r);
    }
  }

  lemma {:induction false} SourceItemsStay(source: set<Name>, items: seq<Entry>, r: map<Name, Name>)
    requires ItemNames(items) <= source && r.Keys !! source
    ensures RestoreItems(r, items) == RestoreItems(map[], items)
    decreases items, 0
  {
    if items != [] {
      SourceItemStays(source, items[0], r);
      SourceItemsStay(source, items[1..], r);
    }
  }

  lemma {:induction false} SourceItemStays(source: set<Name>, item: Entry, r: map<Name, Name>)
    requires EntryNames(item) <= source && r.Keys !! source
    ensures RestoreItem(r, item) == RestoreItem(map[], item)
    decreases item, 0
  {
    SourceStays(source, item.key, r);
    SourceStays(source, item.value, r);
  }

  lemma {:induction false} SourceBodyStays(source: set<Name>, body: seq<Stmt>, r: map<Name, Name>)
    requires BodyNames(body) <= source && r.Keys !! source
    ensures RestoreBody(r, body) == RestoreBody(map[], body)
    decreases body, 0
  {
    if body != [] {
      SourceStmtStays(source, body[0], r);
      SourceBodyStays(source, body[1..], r);
    }
  }

  lemma {:induction false} SourceStmtStays(source: set<Name>, s: Stmt, r: map<Name, Name>)
    requires StmtNames(s) <= source && r.Keys !! source
    ensures RestoreStmt(r, s) == RestoreStmt(map[], s)
    decreases s, 0
  {
    match s
    case Plain(terms) => SourcesStay(source, terms, r);
    case SomeDecl(_) =>
    case Assign(_, lhs, rhs) =>
      SourceStays(source, lhs, r);
      SourceStays(source, rhs, r);
  }
}
