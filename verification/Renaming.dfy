/** Declared local variables get generated names: the pass over bodies and its stack of scopes. */
module Renaming {
  import opened Syntax

  // Bodies before renaming (with declarations) and after (without).

  /** `Ordered` stands for references and sets, which cannot be assigned to; `Listing` for arrays, which can. */
  datatype Phrase =
    | Lit(text: string)
    | Variable(name: Name)
    | RootDocument(name: Name)
    | Invoke(op: Phrase, args: seq<Phrase>)
    | Ordered(parts: seq<Phrase>)
    | Listing(elems: seq<Phrase>)
    | Record(items: seq<Entry>)
    | Closure(heads: seq<Phrase>, body: seq<Stmt>)

  datatype Entry = Entry(key: Phrase, value: Phrase)

  datatype Stmt = Plain(terms: seq<Phrase>) | Assign(negated: bool, lhs: Phrase, rhs: Phrase) | SomeDecl(names: seq<Name>)

  const EQ := Lit("eq")
  const TRUE := Plain([Lit("true")])

  /** Generated names are new to the source, and never the same twice. */
  ghost predicate Supply(gen: nat -> Name, source: set<Name>) {
    && (forall k :: gen(k) !in source)
    && (forall j, k | gen(j) == gen(k) :: j == k)
  }

  // The stack.

  datatype Occurrence = Argument | Seen | Assigned | Declared

  datatype Frame = Frame(vs: map<Name, Name>, occ: map<Name, Occurrence>)

  /** The scopes from the outermost in, what generated names stand for, the next name to generate, and no error so far. */
  datatype State = State(frames: seq<Frame>, rewritten: map<Name, Name>, next: nat, ok: bool)

  const EMPTY := Frame(map[], map[])

  function Lookup(frames: seq<Frame>, x: Name): Option<Name>
    decreases |frames|
  {
    if frames == [] then None
    else
      var n := |frames| - 1;
      if x in frames[n].vs then Some(frames[n].vs[x]) else Lookup(frames[..n], x)
  }

  function GlobalOccurrence(frames: seq<Frame>, x: Name): Option<Occurrence>
    decreases |frames|
  {
    if frames == [] then None
    else
      var n := |frames| - 1;
      if x in frames[n].occ then Some(frames[n].occ[x]) else GlobalOccurrence(frames[..n], x)
  }

  function Insert(st: State, x: Name, y: Name, occ: Occurrence): State
    requires st.frames != []
  {
    var n := |st.frames| - 1;
    var f := st.frames[n];
    st.(frames := st.frames[n := Frame(f.vs[x := y], f.occ[x := occ])],
        rewritten := if x != y then st.rewritten[y := x] else st.rewritten)
  }

  function Push(st: State): State {
    st.(frames := st.frames + [EMPTY])
  }

  function Pop(st: State): State
    requires st.frames != []
  {
    st.(frames := st.frames[..|st.frames| - 1])
  }

  function Fail(st: State): State {
    st.(ok := false)
  }

  // The pass.

  function RewriteVar(st: State, x: Name): State
    requires st.frames != []
    ensures |RewriteVar(st, x).frames| == |st.frames|
  {
    if Lookup(st.frames, x).None? && x !in st.frames[|st.frames| - 1].occ then Insert(st, x, x, Seen) else st
  }

  function NewName(st: State, x: Name): Name {
    match Lookup(st.frames, x) case None => x case Some(y) => y
  }

  function RewriteRoot(st: State, x: Name): Phrase {
    match GlobalOccurrence(st.frames, x)
    case None => RootDocument(x)
    case Some(occ) => if occ == Seen then RootDocument(x) else Variable(NewName(st, x))
  }

  /** Declares a variable, unless it has occurred in the current scope. */
  function Declare(gen: nat -> Name, st: State, x: Name, occ: Occurrence): State
    requires st.frames != []
    ensures |Declare(gen, st, x, occ).frames| == |st.frames|
    ensures Declare(gen, st, x, occ).ok ==> st.ok
  {
    if x in st.frames[|st.frames| - 1].occ then Fail(st)
    else Insert(st, x, gen(st.next), occ).(next := st.next + 1)
  }

  function DeclareAll(gen: nat -> Name, st: State, names: seq<Name>): State
    requires st.frames != []
    ensures |DeclareAll(gen, st, names).frames| == |st.frames|
    ensures DeclareAll(gen, st, names).ok ==> st.ok
    decreases names
  {
    if names == [] then st else DeclareAll(gen, Declare(gen, st, names[0], Declared), names[1..])
  }

  /** The variables of a call's operator. */
  function OperatorVars(t: Phrase): set<Name>
    decreases t
  {
    match t
    case Variable(x) => {x}
    case RootDocument(x) => {x}
    case Ordered(parts) => set i, x | 0 <= i < |parts| && x in OperatorVars(parts[i]) :: x
    case _ => {}
  }

  predicate Shadowed(st: State, op: Phrase) {
    exists x | x in OperatorVars(op) :: Lookup(st.frames, x).Some? && Lookup(st.frames, x).value != x
  }

  function RewriteTerm(gen: nat -> Name, st: State, t: Phrase): (r: (State, Phrase))
    requires st.frames != []
    ensures |r.0.frames| == |st.frames| && (r.0.ok ==> st.ok)
    decreases t, 1
  {
    match t
    case Lit(_) => (st, t)
    case Variable(x) => (RewriteVar(st, x), Variable(NewName(st, x)))
    case RootDocument(x) => (st, RewriteRoot(st, x))
    case Invoke(op, args) =>
      var o := RewriteTerm(gen, if Shadowed(st, op) then Fail(st) else st, op);
      var a := RewriteTerms(gen, o.0, args);
      (a.0, Invoke(o.1, a.1))
    case Ordered(parts) => var a := RewriteTerms(gen, st, parts); (a.0, Ordered(a.1))
    case Listing(elems) => var a := RewriteTerms(gen, st, elems); (a.0, Listing(a.1))
    case Record(items) => var a := RewriteItems(gen, st, items); (a.0, Record(a.1))
    case Closure(heads, body) =>
      var b := RewriteBody(gen, Push(st), body);
      var h := RewriteTerms(gen, b.0, heads);
      (Pop(h.0), Closure(h.1, NonEmpty(b.1)))
  }

  function RewriteTerms(gen: nat -> Name, st: State, ts: seq<Phrase>): (r: (State, seq<Phrase>))
    requires st.frames != []
    ensures |r.0.frames| == |st.frames| && (r.0.ok ==> st.ok)
    decreases ts, 0
  {
    if ts == [] then (st, [])
    else
      var a := RewriteTerm(gen, st, ts[0]);
      var b := RewriteTerms(gen, a.0, ts[1..]);
      (b.0, [a.1] + b.1)
  }

  function RewriteItems(gen: nat -> Name, st: State, items: seq<Entry>): (r: (State, seq<Entry>))
    requires st.frames != []
    ensures |r.0.frames| == |st.frames| && (r.0.ok ==> st.ok)
    decreases items, 0
  {
    if items == [] then (st, [])
    else
      var a := RewriteItem(gen, st, items[0]);
      var b := RewriteItems(gen, a.0, items[1..]);
      (b.0, [a.1] + b.1)
  }

  function RewriteItem(gen: nat -> Name, st: State, item: Entry): (r: (State, Entry))
    requires st.frames != []
    ensures |r.0.frames| == |st.frames| && (r.0.ok ==> st.ok)
    decreases item, 0
  {
    var k := RewriteTerm(gen, st, item.key);
    var v := RewriteTerm(gen, k.0, item.value);
    (v.0, Entry(k.1, v.1))
  }

  /** Bodies of nothing but declarations become true. */
  function NonEmpty(body: seq<Stmt>): seq<Stmt> {
    if body == [] then [TRUE] else body
  }

  function RewriteBody(gen: nat -> Name, st: State, body: seq<Stmt>): (r: (State, seq<Stmt>))
    requires st.frames != []
    ensures |r.0.frames| == |st.frames| && (r.0.ok ==> st.ok)
    decreases body, 0
  {
    if body == [] then (st, [])
    else
      var a := RewriteStmt(gen, st, body[0]);
      var b := RewriteBody(gen, a.0, body[1..]);
      (b.0, a.1 + b.1)
  }

  function RewriteStmt(gen: nat -> Name, st: State, s: Stmt): (r: (State, seq<Stmt>))
    requires st.frames != []
    ensures |r.0.frames| == |st.frames| && (r.0.ok ==> st.ok)
    decreases s, 0
  {
    match s
    case Plain(terms) => var a := RewriteTerms(gen, st, terms); (a.0, [Plain(a.1)])
    case SomeDecl(names) => (DeclareAll(gen, st, names), [])
    case Assign(negated, lhs, rhs) =>
      if negated then (Fail(st), [s])
      else
        var b := RewriteTerm(gen, st, rhs);
        var a := RewritePattern(gen, b.0, lhs);
        (a.0, [Plain([EQ, a.1, b.1])])
  }

  /** The left-hand side of an assignment: variables in arrays and in the values of objects are declared. */
  function RewritePattern(gen: nat -> Name, st: State, t: Phrase): (r: (State, Phrase))
    requires st.frames != []
    ensures |r.0.frames| == |st.frames| && (r.0.ok ==> st.ok)
    decreases t, 1
  {
    match t
    case Variable(x) => var d := Declare(gen, st, x, Assigned); (d, if d.ok then Variable(gen(st.next)) else t)
    case RootDocument(x) => var d := Declare(gen, st, x, Assigned); (d, if d.ok then Variable(gen(st.next)) else t)
    case Listing(elems) => var a := RewritePatterns(gen, st, elems); (a.0, Listing(a.1))
    case Record(items) => var a := RewriteItemPatterns(gen, st, items); (a.0, Record(a.1))
    case _ => (Fail(st), t)
  }

  function RewritePatterns(gen: nat -> Name, st: State, ts: seq<Phrase>): (r: (State, seq<Phrase>))
    requires st.frames != []
    ensures |r.0.frames| == |st.frames| && (r.0.ok ==> st.ok)
    decreases ts, 0
  {
    if ts == [] then (st, [])
    else
      var a := RewritePattern(gen, st, ts[0]);
      var b := RewritePatterns(gen, a.0, ts[1..]);
      (b.0, [a.1] + b.1)
  }

  function RewriteItemPatterns(gen: nat -> Name, st: State, items: seq<Entry>): (r: (State, seq<Entry>))
    requires st.frames != []
    ensures |r.0.frames| == |st.frames| && (r.0.ok ==> st.ok)
    decreases items, 0
  {
    if items == [] then (st, [])
    else
      var a := RewriteItemPattern(gen, st, items[0]);
      var b := RewriteItemPatterns(gen, a.0, items[1..]);
      (b.0, [a.1] + b.1)
  }

  /** Keys are left as they are. */
  function RewriteItemPattern(gen: nat -> Name, st: State, item: Entry): (r: (State, Entry))
    requires st.frames != []
    ensures |r.0.frames| == |st.frames| && (r.0.ok ==> st.ok)
    decreases item, 0
  {
    var v := RewritePattern(gen, st, item.value);
    (v.0, Entry(item.key, v.1))
  }

  // Names.

  function Names(t: Phrase): set<Name>
    decreases t, 1
  {
    match t
    case Lit(_) => {}
    case Variable(x) => {x}
    case RootDocument(x) => {x}
    case Invoke(op, args) => Names(op) + NamesOf(args)
    case Ordered(parts) => NamesOf(parts)
    case Listing(elems) => NamesOf(elems)
    case Record(items) => ItemNames(items)
    case Closure(heads, body) => NamesOf(heads) + BodyNames(body)
  }

  function NamesOf(ts: seq<Phrase>): set<Name>
    decreases ts, 0
  {
    if ts == [] then {} else Names(ts[0]) + NamesOf(ts[1..])
  }

  function ItemNames(items: seq<Entry>): set<Name>
    decreases items, 0
  {
    if items == [] then {} else EntryNames(items[0]) + ItemNames(items[1..])
  }

  function EntryNames(item: Entry): set<Name>
    decreases item, 0
  {
    Names(item.key) + Names(item.value)
  }

  function BodyNames(body: seq<Stmt>): set<Name>
    decreases body, 0
  {
    if body == [] then {} else StmtNames(body[0]) + BodyNames(body[1..])
  }

  function StmtNames(s: Stmt): set<Name>
    decreases s, 0
  {
    match s
    case Plain(terms) => NamesOf(terms)
    case Assign(_, lhs, rhs) => Names(lhs) + Names(rhs)
    case SomeDecl(names) => set x | x in names
  }
}
