/** Lexical scoping, stated without the bookkeeping of the renaming pass, and its agreement with that pass. */
module Scoping {
  import opened Syntax
  import opened Renaming

  /** The declarations in scope, by number, from the outermost scope in. */
  type Env = seq<map<Name, nat>>

  datatype Scoped = Scoped(env: Env, n: nat, body: seq<Stmt>)

  datatype Declaring<T> = Declaring(env: Env, n: nat, out: T)

  function Find(env: Env, x: Name): Option<nat>
    decreases |env|
  {
    if env == [] then None
    else
      var i := |env| - 1;
      if x in env[i] then Some(env[i][x]) else Find(env[..i], x)
  }

  function Bind(env: Env, x: Name, id: nat): Env
    requires env != []
  {
    var i := |env| - 1;
    var scope: map<Name, nat> := env[i][x := id];
    env[i := scope]
  }

  function ResolveName(gen: nat -> Name, env: Env, x: Name): Name {
    match Find(env, x) case None => x case Some(id) => gen(id)
  }

  function ResolveTerm(gen: nat -> Name, env: Env, n: nat, t: Phrase): (nat, Phrase)
    decreases t, 1
  {
    match t
    case Lit(_) => (n, t)
    case Variable(x) => (n, Variable(ResolveName(gen, env, x)))
    case RootDocument(x) => (n, if Find(env, x).None? then t else Variable(ResolveName(gen, env, x)))
    case Invoke(op, args) =>
      var o := ResolveTerm(gen, env, n, op);
      var a := ResolveTerms(gen, env, o.0, args);
      (a.0, Invoke(o.1, a.1))
    case Ordered(parts) => var a := ResolveTerms(gen, env, n, parts); (a.0, Ordered(a.1))
    case Listing(elems) => var a := ResolveTerms(gen, env, n, elems); (a.0, Listing(a.1))
    case Record(items) => var a := ResolveItems(gen, env, n, items); (a.0, Record(a.1))
    case Closure(heads, body) =>
      var b := ResolveBody(gen, env + [map[]], n, body);
      var h := ResolveTerms(gen, b.env, b.n, heads);
      (h.0, Closure(h.1, NonEmpty(b.body)))
  }

  function ResolveTerms(gen: nat -> Name, env: Env, n: nat, ts: seq<Phrase>): (nat, seq<Phrase>)
    decreases ts, 0
  {
    if ts == [] then (n, [])
    else
      var a := ResolveTerm(gen, env, n, ts[0]);
      var b := ResolveTerms(gen, env, a.0, ts[1..]);
      (b.0, [a.1] + b.1)
  }

  function ResolveItems(gen: nat -> Name, env: Env, n: nat, items: seq<Entry>): (nat, seq<Entry>)
    decreases items, 0
  {
    if items == [] then (n, [])
    else
      var a := ResolveItem(gen, env, n, items[0]);
      var b := ResolveItems(gen, env, a.0, items[1..]);
      (b.0, [a.1] + b.1)
  }

  function ResolveItem(gen: nat -> Name, env: Env, n: nat, item: Entry): (nat, Entry)
    decreases item, 0
  {
    var k := ResolveTerm(gen, env, n, item.key);
    var v := ResolveTerm(gen, env, k.0, item.value);
    (v.0, Entry(k.1, v.1))
  }

  /** Every statement sees the declarations of the statements before it. */
  function ResolveBody(gen: nat -> Name, env: Env, n: nat, body: seq<Stmt>): (r: Scoped)
    requires env != []
    ensures |r.env| == |env| && r.env[..|env| - 1] == env[..|env| - 1]
    decreases body, 0
  {
    if body == [] then Scoped(env, n, [])
    else
      var a := ResolveStmt(gen, env, n, body[0]);
      var b := ResolveBody(gen, a.env, a.n, body[1..]);
      Scoped(b.env, b.n, a.body + b.body)
  }

  function ResolveStmt(gen: nat -> Name, env: Env, n: nat, s: Stmt): (r: Scoped)
    requires env != []
    ensures |r.env| == |env| && r.env[..|env| - 1] == env[..|env| - 1]
    decreases s, 0
  {
    match s
    case Plain(terms) => var a := ResolveTerms(gen, env, n, terms); Scoped(env, a.0, [Plain(a.1)])
    case SomeDecl(names) => Scoped(BindAll(env, n, names), n + |names|, [])
    case Assign(_, lhs, rhs) =>
      var b := ResolveTerm(gen, env, n, rhs);
      var a := ResolvePattern(gen, env, b.0, lhs);
      Scoped(a.env, a.n, [Plain([EQ, a.out, b.1])])
  }

  function BindAll(env: Env, n: nat, names: seq<Name>): (r: Env)
    requires env != []
    ensures |r| == |env| && r[..|env| - 1] == env[..|env| - 1]
    decreases names
  {
    if names == [] then env else BindAll(Bind(env, names[0], n), n + 1, names[1..])
  }

  /** Assigned variables are declared from left to right; the keys of objects are ordinary terms. */
  function ResolvePattern(gen: nat -> Name, env: Env, n: nat, t: Phrase): (r: Declaring<Phrase>)
    requires env != []
    ensures |r.env| == |env| && r.env[..|env| - 1] == env[..|env| - 1]
    decreases t, 1
  {
    match t
    case Variable(x) => Declaring(Bind(env, x, n), n + 1, Variable(gen(n)))
    case RootDocument(x) => Declaring(Bind(env, x, n), n + 1, Variable(gen(n)))
    case Listing(elems) => var a := ResolvePatterns(gen, env, n, elems); Declaring(a.env, a.n, Listing(a.out))
    case Record(items) => var a := ResolveItemPatterns(gen, env, n, items); Declaring(a.env, a.n, Record(a.out))
    case _ => Declaring(env, n, t)
  }

  function ResolvePatterns(gen: nat -> Name, env: Env, n: nat, ts: seq<Phrase>): (r: Declaring<seq<Phrase>>)
    requires env != []
    ensures |r.env| == |env| && r.env[..|env| - 1] == env[..|env| - 1]
    decreases ts, 0
  {
    if ts == [] then Declaring(env, n, [])
    else
      var a := ResolvePattern(gen, env, n, ts[0]);
      var b := ResolvePatterns(gen, a.env, a.n, ts[1..]);
      Declaring(b.env, b.n, [a.out] + b.out)
  }

  function ResolveItemPatterns(gen: nat -> Name, env: Env, n: nat, items: seq<Entry>): (r: Declaring<seq<Entry>>)
    requires env != []
    ensures |r.env| == |env| && r.env[..|env| - 1] == env[..|env| - 1]
    decreases items, 0
  {
    if items == [] then Declaring(env, n, [])
    else
      var a := ResolveItemPattern(gen, env, n, items[0]);
      var b := ResolveItemPatterns(gen, a.env, a.n, items[1..]);
      Declaring(b.env, b.n, [a.out] + b.out)
  }

  function ResolveItemPattern(gen: nat -> Name, env: Env, n: nat, item: Entry): (r: Declaring<Entry>)
    requires env != []
    ensures |r.env| == |env| && r.env[..|env| - 1] == env[..|env| - 1]
    decreases item, 0
  {
    var k := ResolveTerm(gen, env, n, item.key);
    var v := ResolvePattern(gen, env, k.0, item.value);
    Declaring(v.env, v.n, Entry(k.1, v.out))
  }

  // Keys of assigned objects.

  /** No comprehension in the term. */
  predicate Flat(t: Phrase)
    decreases t, 1
  {
    match t
    case Lit(_) => true
    case Variable(_) => true
    case RootDocument(_) => true
    case Invoke(op, args) => Flat(op) && AllFlat(args)
    case Ordered(parts) => AllFlat(parts)
    case Listing(elems) => AllFlat(elems)
    case Record(items) => ItemsFlat(items)
    case Closure(_, _) => false
  }

  predicate AllFlat(ts: seq<Phrase>)
    decreases ts, 0
  {
    ts == [] || (Flat(ts[0]) && AllFlat(ts[1..]))
  }

  predicate ItemsFlat(items: seq<Entry>)
    decreases items, 0
  {
    items == [] || (ItemFlat(items[0]) && ItemsFlat(items[1..]))
  }

  predicate ItemFlat(item: Entry)
    decreases item, 0
  {
    Flat(item.key) && Flat(item.value)
  }

  /** None of the variables is declared. */
  predicate Free(env: Env, names: set<Name>) {
    forall x | x in names :: Find(env, x) == None
  }

  /** A term without comprehensions is left as it is exactly if none of its variables is declared. */
  lemma {:induction false} FlatStays(gen: nat -> Name, source: set<Name>, env: Env, n: nat, t: Phrase)
    requires Supply(gen, source) && Names(t) <= source && Flat(t)
    ensures ResolveTerm(gen, env, n, t).0 == n
    ensures ResolveTerm(gen, env, n, t).1 == t <==> Free(env, Names(t))
    decreases t, 1
  {
    match t
    case Lit(_) =>
    case Variable(_) =>
    case RootDocument(_) =>
    case Invoke(op, args) =>
      FlatStays(gen, source, env, n, op);
      FlatsStay(gen, source, env, n, args);
      FreeBoth(env, Names(op), NamesOf(args));
    case Ordered(parts) => FlatsStay(gen, source, env, n, parts);
    case Listing(elems) => FlatsStay(gen, source, env, n, elems);
    case Record(items) => FlatItemsStay(gen, source, env, n, items);
  }

  lemma {:induction false} FreeBoth(env: Env, a: set<Name>, b: set<Name>)
    ensures Free(env, a + b) <==> Free(env, a) && Free(env, b)
  {
  }

  lemma {:induction false} FlatsStay(gen: nat -> Name, source: set<Name>, env: Env, n: nat, ts: seq<Phrase>)
    requires Supply(gen, source) && NamesOf(ts) <= source && AllFlat(ts)
    ensures ResolveTerms(gen, env, n, ts).0 == n
    ensures ResolveTerms(gen, env, n, ts).1 == ts <==> Free(env, NamesOf(ts))
    decreases ts, 0
  {
    if ts != [] {
      FlatStays(gen, source, env, n, ts[0]);
      FlatsStay(gen, source, env, n, ts[1..]);
      FreeBoth(env, Names(ts[0]), NamesOf(ts[1..]));
      SameCons(ResolveTerm(gen, env, n, ts[0]).1, ResolveTerms(gen, env, n, ts[1..]).1, ts);
    }
  }

  lemma {:induction false} SameCons<T>(x: T, rest: seq<T>, all: seq<T>)
    requires all != []
    ensures [x] + rest == all <==> x == all[0] && rest == all[1..]
  {
    assert all == [all[0]] + all[1..];
    assert ([x] + rest)[1..] == rest;
  }

  lemma {:induction false} SameConcat<T>(a: seq<T>, b: seq<T>, c: seq<T>, d: seq<T>)
    requires |a| == |c|
    ensures a + b == c + d <==> a == c && b == d
  {
    assert (a + b)[..|a|] == a && (c + d)[..|c|] == c;
    assert (a + b)[|a|..] == b && (c + d)[|c|..] == d;
  }

  lemma {:induction false} FlatItemsStay(gen: nat -> Name, source: set<Name>, env: Env, n: nat, items: seq<Entry>)
    requires Supply(gen, source) && ItemNames(items) <= source && ItemsFlat(items)
    ensures ResolveItems(gen, env, n, items).0 == n
    ensures ResolveItems(gen, env, n, items).1 == items <==> Free(env, ItemNames(items))
    decreases items, 0
  {
    if items != [] {
      FlatItemStays(gen, source, env, n, items[0]);
      FlatItemsStay(gen, source, env, n, items[1..]);
      FreeBoth(env, EntryNames(items[0]), ItemNames(items[1..]));
      SameCons(ResolveItem(gen, env, n, items[0]).1, ResolveItems(gen, env, n, items[1..]).1, items);
    }
  }

  lemma {:induction false} FlatItemStays(gen: nat -> Name, source: set<Name>, env: Env, n: nat, item: Entry)
    requires Supply(gen, source) && EntryNames(item) <= source && ItemFlat(item)
    ensures ResolveItem(gen, env, n, item).0 == n
    ensures ResolveItem(gen, env, n, item).1 == item <==> Free(env, EntryNames(item))
    decreases item, 0
  {
    FlatStays(gen, source, env, n, item.key);
    FlatStays(gen, source, env, n, item.value);
    FreeBoth(env, Names(item.key), Names(item.value));
  }

  /** Keys of assigned objects contain no comprehensions, at every level. */
  predicate TermOk(t: Phrase)
    decreases t, 1
  {
    match t
    case Invoke(op, args) => TermOk(op) && TermsOk(args)
    case Ordered(parts) => TermsOk(parts)
    case Listing(elems) => TermsOk(elems)
    case Record(items) => ItemsOk(items)
    case Closure(heads, body) => TermsOk(heads) && BodyOk(body)
    case _ => true
  }

  predicate TermsOk(ts: seq<Phrase>)
    decreases ts, 0
  {
    ts == [] || (TermOk(ts[0]) && TermsOk(ts[1..]))
  }

  predicate ItemsOk(items: seq<Entry>)
    decreases items, 0
  {
    items == [] || (ItemOk(items[0]) && ItemsOk(items[1..]))
  }

  predicate ItemOk(item: Entry)
    decreases item, 0
  {
    TermOk(item.key) && TermOk(item.value)
  }

  predicate BodyOk(body: seq<Stmt>)
    decreases body, 0
  {
    body == [] || (StmtOk(body[0]) && BodyOk(body[1..]))
  }

  predicate StmtOk(s: Stmt)
    decreases s, 0
  {
    match s
    case Plain(terms) => TermsOk(terms)
    case Assign(_, lhs, rhs) => TermOk(rhs) && PatternOk(lhs)
    case SomeDecl(_) => true
  }

  predicate PatternOk(t: Phrase)
    decreases t, 1
  {
    match t
    case Listing(elems) => PatternsOk(elems)
    case Record(items) => ItemPatternsOk(items)
    case _ => true
  }

  predicate PatternsOk(ts: seq<Phrase>)
    decreases ts, 0
  {
    ts == [] || (PatternOk(ts[0]) && PatternsOk(ts[1..]))
  }

  predicate ItemPatternsOk(items: seq<Entry>)
    decreases items, 0
  {
    items == [] || (ItemPatternOk(items[0]) && ItemPatternsOk(items[1..]))
  }

  predicate ItemPatternOk(item: Entry)
    decreases item, 0
  {
    Flat(item.key) && PatternOk(item.value)
  }

  // Where no key of an assigned object has a variable that is declared at that point.

  predicate TermClear(gen: nat -> Name, env: Env, n: nat, t: Phrase)
    decreases t, 1
  {
    match t
    case Invoke(op, args) => TermClear(gen, env, n, op) && TermsClear(gen, env, ResolveTerm(gen, env, n, op).0, args)
    case Ordered(parts) => TermsClear(gen, env, n, parts)
    case Listing(elems) => TermsClear(gen, env, n, elems)
    case Record(items) => ItemsClear(gen, env, n, items)
    case Closure(heads, body) =>
      var b := ResolveBody(gen, env + [map[]], n, body);
      BodyClear(gen, env + [map[]], n, body) && TermsClear(gen, b.env, b.n, heads)
    case _ => true
  }

  predicate TermsClear(gen: nat -> Name, env: Env, n: nat, ts: seq<Phrase>)
    decreases ts, 0
  {
    ts == [] || (TermClear(gen, env, n, ts[0]) && TermsClear(gen, env, ResolveTerm(gen, env, n, ts[0]).0, ts[1..]))
  }

  predicate ItemsClear(gen: nat -> Name, env: Env, n: nat, items: seq<Entry>)
    decreases items, 0
  {
    items == [] || (ItemClear(gen, env, n, items[0]) && ItemsClear(gen, env, ResolveItem(gen, env, n, items[0]).0, items[1..]))
  }

  predicate ItemClear(gen: nat -> Name, env: Env, n: nat, item: Entry)
    decreases item, 0
  {
    TermClear(gen, env, n, item.key) && TermClear(gen, env, ResolveTerm(gen, env, n, item.key).0, item.value)
  }

  predicate BodyClear(gen: nat -> Name, env: Env, n: nat, body: seq<Stmt>)
    requires env != []
    decreases body, 0
  {
    body == [] ||
    var a := ResolveStmt(gen, env, n, body[0]);
    StmtClear(gen, env, n, body[0]) && BodyClear(gen, a.env, a.n, body[1..])
  }

  predicate StmtClear(gen: nat -> Name, env: Env, n: nat, s: Stmt)
    requires env != []
    decreases s, 0
  {
    match s
    case Plain(terms) => TermsClear(gen, env, n, terms)
    case SomeDecl(_) => true
    case Assign(_, lhs, rhs) => TermClear(gen, env, n, rhs) && PatternClear(gen, env, ResolveTerm(gen, env, n, rhs).0, lhs)
  }

  predicate PatternClear(gen: nat -> Name, env: Env, n: nat, t: Phrase)
    requires env != []
    decreases t, 1
  {
    match t
    case Listing(elems) => PatternsClear(gen, env, n, elems)
    case Record(items) => ItemPatternsClear(gen, env, n, items)
    case _ => true
  }

  predicate PatternsClear(gen: nat -> Name, env: Env, n: nat, ts: seq<Phrase>)
    requires env != []
    decreases ts, 0
  {
    ts == [] ||
    var a := ResolvePattern(gen, env, n, ts[0]);
    PatternClear(gen, env, n, ts[0]) && PatternsClear(gen, a.env, a.n, ts[1..])
  }

  predicate ItemPatternsClear(gen: nat -> Name, env: Env, n: nat, items: seq<Entry>)
    requires env != []
    decreases items, 0
  {
    items == [] ||
    var a := ResolveItemPattern(gen, env, n, items[0]);
    ItemPatternClear(gen, env, n, items[0]) && ItemPatternsClear(gen, a.env, a.n, items[1..])
  }

  predicate ItemPatternClear(gen: nat -> Name, env: Env, n: nat, item: Entry)
    requires env != []
    decreases item, 0
  {
    Free(env, Names(item.key)) && PatternClear(gen, env, ResolveTerm(gen, env, n, item.key).0, item.value)
  }

  // The stack agrees with the scopes.

  /** In one scope: declared variables have the name of their declaration; variables only seen are nowhere declared. */
  ghost predicate FrameAgrees(gen: nat -> Name, f: Frame, env: Env, i: nat)
    requires i < |env|
  {
    && f.occ.Keys == f.vs.Keys
    && (forall x | x in f.vs :: if f.occ[x] == Seen then f.vs[x] == x && Undeclared(env, i, x) else x in env[i] && f.vs[x] == gen(env[i][x]))
    && (forall x | x in env[i] :: x in f.vs && f.occ[x] != Seen)
  }

  ghost predicate Undeclared(env: Env, i: nat, x: Name)
    requires i < |env|
  {
    forall j | 0 <= j <= i :: x !in env[j]
  }

  ghost predicate FramesAgree(gen: nat -> Name, frames: seq<Frame>, env: Env) {
    |frames| == |env| && forall i | 0 <= i < |env| :: FrameAgrees(gen, frames[i], env, i)
  }

  ghost predicate Agree(gen: nat -> Name, st: State, env: Env, n: nat) {
    st.next == n && env != [] && FramesAgree(gen, st.frames, env)
  }

  lemma {:induction false} AgreePrefix(gen: nat -> Name, frames: seq<Frame>, env: Env)
    requires FramesAgree(gen, frames, env) && env != []
    ensures FramesAgree(gen, frames[..|env| - 1], env[..|env| - 1])
  {
    var fs, e := frames[..|env| - 1], env[..|env| - 1];
    forall i | 0 <= i < |e| ensures FrameAgrees(gen, fs[i], e, i) {
      assert FrameAgrees(gen, frames[i], env, i);
      forall x | x in fs[i].vs && fs[i].occ[x] == Seen ensures Undeclared(e, i, x) {
        assert Undeclared(env, i, x);
      }
    }
  }

  lemma {:induction false} UndeclaredFind(env: Env, i: nat, x: Name)
    requires i < |env| && Undeclared(env, i, x)
    ensures Find(env[..i + 1], x) == None
  {
    var e := env[..i + 1];
    assert e[..i] == env[..i];
    if i > 0 {
      UndeclaredFind(env, i - 1, x);
    }
  }

  /** Looking a variable up gives the name of its innermost declaration in scope, or the variable itself. */
  lemma {:induction false} LookupAgrees(gen: nat -> Name, frames: seq<Frame>, env: Env, x: Name)
    requires FramesAgree(gen, frames, env)
    ensures match Find(env, x)
            case Some(id) => Lookup(frames, x) == Some(gen(id)) && GlobalOccurrence(frames, x).Some? && GlobalOccurrence(frames, x) != Some(Seen)
            case None => (Lookup(frames, x) == None && GlobalOccurrence(frames, x) == None) || (Lookup(frames, x) == Some(x) && GlobalOccurrence(frames, x) == Some(Seen))
    decreases |frames|
  {
    if frames != [] {
      var i := |frames| - 1;
      assert FrameAgrees(gen, frames[i], env, i);
      if x !in frames[i].vs {
        AgreePrefix(gen, frames, env);
        LookupAgrees(gen, frames[..i], env[..i], x);
      } else if frames[i].occ[x] == Seen {
        UndeclaredFind(env, i, x);
        assert env[..i + 1] == env;
      }
    }
  }

  lemma {:induction false} LookupNone(frames: seq<Frame>, x: Name, i: nat)
    requires Lookup(frames, x) == None && i < |frames|
    ensures x !in frames[i].vs
    decreases |frames|
  {
    if i < |frames| - 1 {
      LookupNone(frames[..|frames| - 1], x, i);
    }
  }

  lemma {:induction false} RewriteVarAgrees(gen: nat -> Name, st: State, env: Env, n: nat, x: Name)
    requires Agree(gen, st, env, n)
    ensures Agree(gen, RewriteVar(st, x), env, n)
    ensures NewName(st, x) == ResolveName(gen, env, x)
  {
    LookupAgrees(gen, st.frames, env, x);
    var st' := RewriteVar(st, x);
    if st' != st {
      var i := |env| - 1;
      forall j | 0 <= j < |env| ensures x !in env[j] {
        LookupNone(st.frames, x, j);
        assert FrameAgrees(gen, st.frames[j], env, j);
      }
      forall j | 0 <= j < |env| ensures FrameAgrees(gen, st'.frames[j], env, j) {
        assert FrameAgrees(gen, st.frames[j], env, j);
      }
    }
  }

  lemma {:induction false} DeclareAgrees(gen: nat -> Name, st: State, env: Env, n: nat, x: Name, occ: Occurrence)
    requires Agree(gen, st, env, n) && Declare(gen, st, x, occ).ok && occ != Seen
    ensures Agree(gen, Declare(gen, st, x, occ), Bind(env, x, n), n + 1)
  {
    var st', env' := Declare(gen, st, x, occ), Bind(env, x, n);
    var i := |env| - 1;
    forall j | 0 <= j < |env'| ensures FrameAgrees(gen, st'.frames[j], env', j) {
      assert FrameAgrees(gen, st.frames[j], env, j);
      forall z | z in st'.frames[j].vs && st'.frames[j].occ[z] == Seen ensures Undeclared(env', j, z) {
        assert Undeclared(env, j, z);
      }
    }
  }

  lemma {:induction false} DeclareAllAgrees(gen: nat -> Name, st: State, env: Env, n: nat, names: seq<Name>, st': State, env': Env)
    requires Agree(gen, st, env, n) && st' == DeclareAll(gen, st, names) && st'.ok && env' == BindAll(env, n, names)
    ensures Agree(gen, st', env', n + |names|)
    decreases names
  {
    if names != [] {
      DeclareAgrees(gen, st, env, n, names[0], Declared);
      DeclareAllAgrees(gen, Declare(gen, st, names[0], Declared), Bind(env, names[0], n), n + 1, names[1..], st', env');
    }
  }

  lemma {:induction false} PushAgrees(gen: nat -> Name, st: State, env: Env, n: nat)
    requires Agree(gen, st, env, n)
    ensures Agree(gen, Push(st), env + [map[]], n)
  {
    var fs, e := st.frames + [EMPTY], env + [map[]];
    forall i | 0 <= i < |e| ensures FrameAgrees(gen, fs[i], e, i) {
      if i < |env| {
        assert FrameAgrees(gen, st.frames[i], env, i);
        forall x | x in fs[i].vs && fs[i].occ[x] == Seen ensures Undeclared(e, i, x) {
          assert Undeclared(env, i, x);
        }
      }
    }
  }

  lemma {:induction false} PopAgrees(gen: nat -> Name, st: State, env: Env, n: nat)
    requires Agree(gen, st, env, n) && |env| > 1
    ensures Agree(gen, Pop(st), env[..|env| - 1], n)
  {
    AgreePrefix(gen, st.frames, env);
  }

  // The pass computes lexical scoping.

  /** Generated names are new, and the term is made of source variables. */
  ghost predicate From(gen: nat -> Name, source: set<Name>, names: set<Name>) {
    Supply(gen, source) && names <= source
  }

  lemma {:induction false} TermResolves(gen: nat -> Name, source: set<Name>, st: State, env: Env, n: nat, t: Phrase)
    requires Agree(gen, st, env, n) && From(gen, source, Names(t)) && TermOk(t) && RewriteTerm(gen, st, t).0.ok
    ensures var r, s := RewriteTerm(gen, st, t), ResolveTerm(gen, env, n, t);
            (r.1 == s.1 <==> TermClear(gen, env, n, t)) && Agree(gen, r.0, env, s.0)
    decreases t, 1
  {
    match t
    case Lit(_) =>
    case Variable(x) => RewriteVarAgrees(gen, st, env, n, x);
    case RootDocument(x) => LookupAgrees(gen, st.frames, env, x);
    case Invoke(op, args) =>
      TermResolves(gen, source, st, env, n, op);
      TermsResolve(gen, source, RewriteTerm(gen, st, op).0, env, ResolveTerm(gen, env, n, op).0, args);
    case Ordered(parts) => TermsResolve(gen, source, st, env, n, parts);
    case Listing(elems) => TermsResolve(gen, source, st, env, n, elems);
    case Record(items) => ItemsResolve(gen, source, st, env, n, items);
    case Closure(heads, body) => ClosureResolves(gen, source, st, env, n, heads, body);
  }

  lemma {:induction false} ClosureResolves(gen: nat -> Name, source: set<Name>, st: State, env: Env, n: nat, heads: seq<Phrase>, body: seq<Stmt>)
    requires Agree(gen, st, env, n) && From(gen, source, NamesOf(heads) + BodyNames(body))
    requires TermsOk(heads) && BodyOk(body) && RewriteTerm(gen, st, Closure(heads, body)).0.ok
    ensures var t := Closure(heads, body);
            var r, s := RewriteTerm(gen, st, t), ResolveTerm(gen, env, n, t);
            (r.1 == s.1 <==> TermClear(gen, env, n, t)) && Agree(gen, r.0, env, s.0)
    decreases Closure(heads, body), 0
  {
    PushAgrees(gen, st, env, n);
    var env1 := env + [map[]];
    BodyResolves(gen, source, Push(st), env1, n, body);
    var b, b' := RewriteBody(gen, Push(st), body), ResolveBody(gen, env1, n, body);
    TermsResolve(gen, source, b.0, b'.env, b'.n, heads);
    var h, h' := RewriteTerms(gen, b.0, heads), ResolveTerms(gen, b'.env, b'.n, heads);
    PopAgrees(gen, h.0, b'.env, h'.0);
    assert b'.env[..|env|] == env1[..|env|] == env;
    SameNonEmpty(b.1, b'.body);
  }

  lemma {:induction false} SameNonEmpty(a: seq<Stmt>, b: seq<Stmt>)
    requires |a| == |b|
    ensures NonEmpty(a) == NonEmpty(b) <==> a == b
  {
  }

  lemma {:induction false} TermsResolve(gen: nat -> Name, source: set<Name>, st: State, env: Env, n: nat, ts: seq<Phrase>)
    requires Agree(gen, st, env, n) && From(gen, source, NamesOf(ts)) && TermsOk(ts) && RewriteTerms(gen, st, ts).0.ok
    ensures var r, s := RewriteTerms(gen, st, ts), ResolveTerms(gen, env, n, ts);
            (r.1 == s.1 <==> TermsClear(gen, env, n, ts)) && Agree(gen, r.0, env, s.0)
    decreases ts, 0
  {
    if ts != [] {
      TermResolves(gen, source, st, env, n, ts[0]);
      var a, a' := RewriteTerm(gen, st, ts[0]), ResolveTerm(gen, env, n, ts[0]);
      TermsResolve(gen, source, a.0, env, a'.0, ts[1..]);
      SameConcat([a.1], RewriteTerms(gen, a.0, ts[1..]).1, [a'.1], ResolveTerms(gen, env, a'.0, ts[1..]).1);
    }
  }

  lemma {:induction false} ItemsResolve(gen: nat -> Name, source: set<Name>, st: State, env: Env, n: nat, items: seq<Entry>)
    requires Agree(gen, st, env, n) && From(gen, source, ItemNames(items)) && ItemsOk(items) && RewriteItems(gen, st, items).0.ok
    ensures var r, s := RewriteItems(gen, st, items), ResolveItems(gen, env, n, items);
            (r.1 == s.1 <==> ItemsClear(gen, env, n, items)) && Agree(gen, r.0, env, s.0)
    decreases items, 0
  {
    if items != [] {
      ItemResolves(gen, source, st, env, n, items[0]);
      var a, a' := RewriteItem(gen, st, items[0]), ResolveItem(gen, env, n, items[0]);
      ItemsResolve(gen, source, a.0, env, a'.0, items[1..]);
      SameConcat([a.1], RewriteItems(gen, a.0, items[1..]).1, [a'.1], ResolveItems(gen, env, a'.0, items[1..]).1);
    }
  }

  lemma {:induction false} ItemResolves(gen: nat -> Name, source: set<Name>, st: State, env: Env, n: nat, item: Entry)
    requires Agree(gen, st, env, n) && From(gen, source, EntryNames(item)) && ItemOk(item) && RewriteItem(gen, st, item).0.ok
    ensures var r, s := RewriteItem(gen, st, item), ResolveItem(gen, env, n, item);
            (r.1 == s.1 <==> ItemClear(gen, env, n, item)) && Agree(gen, r.0, env, s.0)
    decreases item, 0
  {
    TermResolves(gen, source, st, env, n, item.key);
    TermResolves(gen, source, RewriteTerm(gen, st, item.key).0, env, ResolveTerm(gen, env, n, item.key).0, item.value);
  }

  lemma {:induction false} BodyResolves(gen: nat -> Name, source: set<Name>, st: State, env: Env, n: nat, body: seq<Stmt>)
    requires Agree(gen, st, env, n) && From(gen, source, BodyNames(body)) && BodyOk(body) && RewriteBody(gen, st, body).0.ok
    ensures var r, s := RewriteBody(gen, st, body), ResolveBody(gen, env, n, body);
            && |r.1| == |s.body| && (r.1 == s.body <==> BodyClear(gen, env, n, body)) && Agree(gen, r.0, s.env, s.n)
    decreases body, 0
  {
    if body != [] {
      StmtResolves(gen, source, st, env, n, body[0]);
      var a, a' := RewriteStmt(gen, st, body[0]), ResolveStmt(gen, env, n, body[0]);
      BodyResolves(gen, source, a.0, a'.env, a'.n, body[1..]);
      SameConcat(a.1, RewriteBody(gen, a.0, body[1..]).1, a'.body, ResolveBody(gen, a'.env, a'.n, body[1..]).body);
    }
  }

  lemma {:induction false} StmtResolves(gen: nat -> Name, source: set<Name>, st: State, env: Env, n: nat, s: Stmt)
    requires Agree(gen, st, env, n) && From(gen, source, StmtNames(s)) && StmtOk(s) && RewriteStmt(gen, st, s).0.ok
    ensures var r, q := RewriteStmt(gen, st, s), ResolveStmt(gen, env, n, s);
            && |r.1| == |q.body| && (r.1 == q.body <==> StmtClear(gen, env, n, s)) && Agree(gen, r.0, q.env, q.n)
    decreases s, 0
  {
    match s
    case Plain(terms) => TermsResolve(gen, source, st, env, n, terms);
    case SomeDecl(names) => DeclareAllAgrees(gen, st, env, n, names, DeclareAll(gen, st, names), BindAll(env, n, names));
    case Assign(_, lhs, rhs) =>
      TermResolves(gen, source, st, env, n, rhs);
      var b, b' := RewriteTerm(gen, st, rhs), ResolveTerm(gen, env, n, rhs);
      PatternResolves(gen, source, b.0, env, b'.0, lhs);
      var a, a' := RewritePattern(gen, b.0, lhs), ResolvePattern(gen, env, b'.0, lhs);
      assert [EQ, a.1, b.1] == [EQ, a'.out, b'.1] <==> a.1 == a'.out && b.1 == b'.1 by {
        assert [EQ, a.1, b.1][1] == a.1 && [EQ, a.1, b.1][2] == b.1;
        assert [EQ, a'.out, b'.1][1] == a'.out && [EQ, a'.out, b'.1][2] == b'.1;
      }
  }

  lemma {:induction false} PatternResolves(gen: nat -> Name, source: set<Name>, st: State, env: Env, n: nat, t: Phrase)
    requires Agree(gen, st, env, n) && From(gen, source, Names(t)) && PatternOk(t) && RewritePattern(gen, st, t).0.ok
    ensures var r, s := RewritePattern(gen, st, t), ResolvePattern(gen, env, n, t);
            (r.1 == s.out <==> PatternClear(gen, env, n, t)) && Agree(gen, r.0, s.env, s.n)
    decreases t, 1
  {
    match t
    case Variable(x) => DeclareAgrees(gen, st, env, n, x, Assigned);
    case RootDocument(x) => DeclareAgrees(gen, st, env, n, x, Assigned);
    case Listing(elems) => PatternsResolve(gen, source, st, env, n, elems);
    case Record(items) => ItemPatternsResolve(gen, source, st, env, n, items);
    case _ =>
  }

  lemma {:induction false} PatternsResolve(gen: nat -> Name, source: set<Name>, st: State, env: Env, n: nat, ts: seq<Phrase>)
    requires Agree(gen, st, env, n) && From(gen, source, NamesOf(ts)) && PatternsOk(ts) && RewritePatterns(gen, st, ts).0.ok
    ensures var r, s := RewritePatterns(gen, st, ts), ResolvePatterns(gen, env, n, ts);
            (r.1 == s.out <==> PatternsClear(gen, env, n, ts)) && Agree(gen, r.0, s.env, s.n)
    decreases ts, 0
  {
    if ts != [] {
      PatternResolves(gen, source, st, env, n, ts[0]);
      var a, a' := RewritePattern(gen, st, ts[0]), ResolvePattern(gen, env, n, ts[0]);
      PatternsResolve(gen, source, a.0, a'.env, a'.n, ts[1..]);
      SameConcat([a.1], RewritePatterns(gen, a.0, ts[1..]).1, [a'.out], ResolvePatterns(gen, a'.env, a'.n, ts[1..]).out);
    }
  }

  lemma {:induction false} ItemPatternsResolve(gen: nat -> Name, source: set<Name>, st: State, env: Env, n: nat, items: seq<Entry>)
    requires Agree(gen, st, env, n) && From(gen, source, ItemNames(items)) && ItemPatternsOk(items) && RewriteItemPatterns(gen, st, items).0.ok
    ensures var r, s := RewriteItemPatterns(gen, st, items), ResolveItemPatterns(gen, env, n, items);
            (r.1 == s.out <==> ItemPatternsClear(gen, env, n, items)) && Agree(gen, r.0, s.env, s.n)
    decreases items, 0
  {
    if items != [] {
      ItemPatternResolves(gen, source, st, env, n, items[0]);
      var a, a' := RewriteItemPattern(gen, st, items[0]), ResolveItemPattern(gen, env, n, items[0]);
      ItemPatternsResolve(gen, source, a.0, a'.env, a'.n, items[1..]);
      SameConcat([a.1], RewriteItemPatterns(gen, a.0, items[1..]).1, [a'.out], ResolveItemPatterns(gen, a'.env, a'.n, items[1..]).out);
    }
  }

  lemma {:induction false} ItemPatternResolves(gen: nat -> Name, source: set<Name>, st: State, env: Env, n: nat, item: Entry)
    requires Agree(gen, st, env, n) && From(gen, source, EntryNames(item)) && ItemPatternOk(item) && RewriteItemPattern(gen, st, item).0.ok
    ensures var r, s := RewriteItemPattern(gen, st, item), ResolveItemPattern(gen, env, n, item);
            (r.1 == s.out <==> ItemPatternClear(gen, env, n, item)) && Agree(gen, r.0, s.env, s.n)
    decreases item, 0
  {
    FlatStays(gen, source, env, n, item.key);
    PatternResolves(gen, source, st, env, n, item.value);
  }
}
