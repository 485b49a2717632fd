/** The renaming of a body's local variables, with generated names. */
module LocalRenaming {
  import opened Syntax
  import opened Renaming
  import opened Scoping
  import opened Undoing
  import LocalVars

  // The pass over a body, with its stack of scopes as an object.

  class LocalDeclaredVars {
    const gen: nat -> Name
    var frames: seq<Frame>
    var rewritten: map<Name, Name>
    var next: nat
    var ok: bool

    constructor (gen: nat -> Name)
      ensures this.gen == gen && Current() == START
    {
      this.gen, frames, rewritten, next, ok := gen, [EMPTY], map[], 0, true;
    }

    function Current(): State
      reads this
    {
      State(frames, rewritten, next, ok)
    }

    method PushFrame()
      modifies `frames
      ensures Current() == Push(old(Current()))
    {
      frames := frames + [EMPTY];
    }

    method PopFrame()
      requires frames != []
      modifies `frames
      ensures Current() == Pop(old(Current()))
    {
      frames := frames[..|frames| - 1];
    }

    method InsertVar(x: Name, y: Name, occ: Occurrence)
      requires frames != []
      modifies `frames, `rewritten
      ensures Current() == Insert(old(Current()), x, y, occ)
    {
      var n := |frames| - 1;
      frames := frames[n := Frame(frames[n].vs[x := y], frames[n].occ[x := occ])];
      if x != y {
        rewritten := rewritten[y := x];
      }
    }

    /** Searches the scopes from the innermost out. */
    method DeclaredName(x: Name) returns (y: Option<Name>)
      ensures y == Lookup(frames, x)
    {
      var i := |frames|;
      assert frames[..i] == frames;
      while i > 0
        invariant 0 <= i <= |frames| && Lookup(frames, x) == Lookup(frames[..i], x)
      {
        assert frames[..i][..i - 1] == frames[..i - 1];
        i := i - 1;
        if x in frames[i].vs {
          return Some(frames[i].vs[x]);
        }
      }
      return None;
    }

    method AnyOccurrence(x: Name) returns (occ: Option<Occurrence>)
      ensures occ == GlobalOccurrence(frames, x)
    {
      var i := |frames|;
      assert frames[..i] == frames;
      while i > 0
        invariant 0 <= i <= |frames| && GlobalOccurrence(frames, x) == GlobalOccurrence(frames[..i], x)
      {
        assert frames[..i][..i - 1] == frames[..i - 1];
        i := i - 1;
        if x in frames[i].occ {
          return Some(frames[i].occ[x]);
        }
      }
      return None;
    }

    method CheckShadowed(op: Phrase) returns (r: bool)
      ensures r == Shadowed(Current(), op)
    {
      var todo := Renaming.OperatorVars(op);
      while todo != {}
        invariant todo <= Renaming.OperatorVars(op)
        invariant forall x | x in Renaming.OperatorVars(op) - todo :: Lookup(frames, x).None? || Lookup(frames, x).value == x
        decreases todo
      {
        var x :| x in todo;
        todo := todo - {x};
        var y := DeclaredName(x);
        if y.Some? && y.value != x {
          return true;
        }
      }
      return false;
    }

    method DeclareVar(x: Name, occ: Occurrence)
      requires frames != []
      modifies this
      ensures Current() == Declare(gen, old(Current()), x, occ)
    {
      if x in frames[|frames| - 1].occ {
        ok := false;
      } else {
        InsertVar(x, gen(next), occ);
        next := next + 1;
      }
    }

    method DeclareNames(names: seq<Name>)
      requires frames != []
      modifies this
      ensures Current() == DeclareAll(gen, old(Current()), names)
    {
      for i := 0 to |names|
        invariant frames != [] && DeclareAll(gen, old(Current()), names) == DeclareAll(gen, Current(), names[i..])
      {
        assert names[i..][1..] == names[i + 1..];
        DeclareVar(names[i], Declared);
      }
    }

    method Var(x: Name) returns (r: Phrase)
      requires frames != []
      modifies `frames, `rewritten
      ensures Current() == RewriteVar(old(Current()), x) && r == Variable(NewName(old(Current()), x))
    {
      var y := DeclaredName(x);
      if y.Some? {
        return Variable(y.value);
      }
      if x !in frames[|frames| - 1].occ {
        InsertVar(x, x, Seen);
      }
      return Variable(x);
    }

    method Root(x: Name) returns (r: Phrase)
      ensures r == RewriteRoot(Current(), x)
    {
      var occ := AnyOccurrence(x);
      if occ.None? || occ.value == Seen {
        return RootDocument(x);
      }
      var y := DeclaredName(x);
      return Variable(if y.Some? then y.value else x);
    }

    method Term(t: Phrase) returns (r: Phrase)
      requires frames != []
      modifies this
      ensures (Current(), r) == RewriteTerm(gen, old(Current()), t)
      decreases t, 1
    {
      match t {
        case Lit(_) => r := t;
        case Variable(x) => r := Var(x);
        case RootDocument(x) => r := Root(x);
        case Invoke(op, args) =>
          var shadowed := CheckShadowed(op);
          if shadowed {
            ok := false;
          }
          var o := Term(op);
          var a := Terms(args);
          r := Invoke(o, a);
        case Ordered(parts) =>
          var a := Terms(parts);
          r := Ordered(a);
        case Listing(elems) =>
          var a := Terms(elems);
          r := Listing(a);
        case Record(items) =>
          var a := Items(items);
          r := Record(a);
        case Closure(heads, body) =>
          PushFrame();
          var b := Body(body);
          var h := Terms(heads);
          PopFrame();
          r := Closure(h, NonEmpty(b));
      }
    }

    method Terms(ts: seq<Phrase>) returns (r: seq<Phrase>)
      requires frames != []
      modifies this
      ensures (Current(), r) == RewriteTerms(gen, old(Current()), ts)
      decreases ts, 0
    {
      r := [];
      for i := 0 to |ts|
        invariant frames != []
        invariant var whole, rest := RewriteTerms(gen, old(Current()), ts), RewriteTerms(gen, Current(), ts[i..]);
                  whole.0 == rest.0 && whole.1 == r + rest.1
      {
        assert ts[i..][1..] == ts[i + 1..];
        var x := Term(ts[i]);
        Regroup(r, [x], RewriteTerms(gen, Current(), ts[i + 1..]).1);
        r := r + [x];
      }
      assert ts[|ts|..] == [] && r + [] == r;
    }

    method Items(items: seq<Entry>) returns (r: seq<Entry>)
      requires frames != []
      modifies this
      ensures (Current(), r) == RewriteItems(gen, old(Current()), items)
      decreases items, 0
    {
      r := [];
      for i := 0 to |items|
        invariant frames != []
        invariant var whole, rest := RewriteItems(gen, old(Current()), items), RewriteItems(gen, Current(), items[i..]);
                  whole.0 == rest.0 && whole.1 == r + rest.1
      {
        assert items[i..][1..] == items[i + 1..];
        var x := Item(items[i]);
        Regroup(r, [x], RewriteItems(gen, Current(), items[i + 1..]).1);
        r := r + [x];
      }
      assert items[|items|..] == [] && r + [] == r;
    }

    method Item(item: Entry) returns (r: Entry)
      requires frames != []
      modifies this
      ensures (Current(), r) == RewriteItem(gen, old(Current()), item)
      decreases item, 0
    {
      var k := Term(item.key);
      var v := Term(item.value);
      r := Entry(k, v);
    }

    method Body(body: seq<Stmt>) returns (r: seq<Stmt>)
      requires frames != []
      modifies this
      ensures (Current(), r) == RewriteBody(gen, old(Current()), body)
      decreases body, 0
    {
      r := [];
      for i := 0 to |body|
        invariant frames != []
        invariant var whole, rest := RewriteBody(gen, old(Current()), body), RewriteBody(gen, Current(), body[i..]);
                  whole.0 == rest.0 && whole.1 == r + rest.1
      {
        assert body[i..][1..] == body[i + 1..];
        var x := Statement(body[i]);
        Regroup(r, x, RewriteBody(gen, Current(), body[i + 1..]).1);
        r := r + x;
      }
      assert body[|body|..] == [] && r + [] == r;
    }

    method Statement(s: Stmt) returns (r: seq<Stmt>)
      requires frames != []
      modifies this
      ensures (Current(), r) == RewriteStmt(gen, old(Current()), s)
      decreases s, 0
    {
      match s {
        case Plain(terms) =>
          var ts := Terms(terms);
          r := [Plain(ts)];
        case SomeDecl(names) =>
          DeclareNames(names);
          r := [];
        case Assign(negated, lhs, rhs) =>
          if negated {
            ok := false;
            return [s];
          }
          var b := Term(rhs);
          var a := Pattern(lhs);
          r := [Plain([EQ, a, b])];
      }
    }

    method Pattern(t: Phrase) returns (r: Phrase)
      requires frames != []
      modifies this
      ensures (Current(), r) == RewritePattern(gen, old(Current()), t)
      decreases t, 1
    {
      match t {
        case Variable(x) => r := DeclarePattern(x, t);
        case RootDocument(x) => r := DeclarePattern(x, t);
        case Listing(elems) =>
          var a := Patterns(elems);
          r := Listing(a);
        case Record(items) =>
          var a := ItemPatterns(items);
          r := Record(a);
        case _ =>
          ok := false;
          r := t;
      }
    }

    method DeclarePattern(x: Name, t: Phrase) returns (r: Phrase)
      requires frames != []
      modifies this
      ensures Current() == Declare(gen, old(Current()), x, Assigned)
      ensures r == if ok then Variable(gen(old(next))) else t
    {
      var n := next;
      DeclareVar(x, Assigned);
      r := if ok then Variable(gen(n)) else t;
    }

    method Patterns(ts: seq<Phrase>) returns (r: seq<Phrase>)
      requires frames != []
      modifies this
      ensures (Current(), r) == RewritePatterns(gen, old(Current()), ts)
      decreases ts, 0
    {
      r := [];
      for i := 0 to |ts|
        invariant frames != []
        invariant var whole, rest := RewritePatterns(gen, old(Current()), ts), RewritePatterns(gen, Current(), ts[i..]);
                  whole.0 == rest.0 && whole.1 == r + rest.1
      {
        assert ts[i..][1..] == ts[i + 1..];
        var x := Pattern(ts[i]);
        Regroup(r, [x], RewritePatterns(gen, Current(), ts[i + 1..]).1);
        r := r + [x];
      }
      assert ts[|ts|..] == [] && r + [] == r;
    }

    method ItemPatterns(items: seq<Entry>) returns (r: seq<Entry>)
      requires frames != []
      modifies this
      ensures (Current(), r) == RewriteItemPatterns(gen, old(Current()), items)
      decreases items, 0
    {
      r := [];
      for i := 0 to |items|
        invariant frames != []
        invariant var whole, rest := RewriteItemPatterns(gen, old(Current()), items), RewriteItemPatterns(gen, Current(), items[i..]);
                  whole.0 == rest.0 && whole.1 == r + rest.1
      {
        assert items[i..][1..] == items[i + 1..];
        var x := ItemPattern(items[i]);
        Regroup(r, [x], RewriteItemPatterns(gen, Current(), items[i + 1..]).1);
        r := r + [x];
      }
      assert items[|items|..] == [] && r + [] == r;
    }

    method ItemPattern(item: Entry) returns (r: Entry)
      requires frames != []
      modifies this
      ensures (Current(), r) == RewriteItemPattern(gen, old(Current()), item)
      decreases item, 0
    {
      var v := Pattern(item.value);
      r := Entry(item.key, v);
    }
  }

  // Whole bodies.

  const START := State([EMPTY], map[], 0, true)

  function RewriteLocals(gen: nat -> Name, body: seq<Stmt>): (State, seq<Stmt>) {
    var r := RewriteBody(gen, START, body);
    (r.0, NonEmpty(r.1))
  }

  /** Renames the local variables of a body; without errors the source can be read off the result. */
  method RewriteLocalVars(gen: nat -> Name, body: seq<Stmt>)
    returns (r: seq<Stmt>, rewritten: map<Name, Name>, ok: bool)
    ensures var s := RewriteLocals(gen, body); r == s.1 && rewritten == s.0.rewritten && ok == s.0.ok
    ensures ok && Supply(gen, BodyNames(body)) && BodyOk(body) ==>
              (r == NonEmpty(ResolveBody(gen, [map[]], 0, body).body) <==> BodyClear(gen, [map[]], 0, body))
    ensures ok && Supply(gen, BodyNames(body)) ==> NonEmpty(RestoreBody(rewritten, r)) == NonEmpty(RestoreBody(map[], body))
  {
    var vars := new LocalDeclaredVars(gen);
    r := vars.Body(body);
    r, rewritten, ok := NonEmpty(r), vars.rewritten, vars.ok;
    if ok && Supply(gen, BodyNames(body)) {
      RenamingUndone(gen, BodyNames(body), body);
      if BodyOk(body) {
        RenamesByScope(gen, BodyNames(body), body);
      }
    }
  }

  /**
    Without errors, every occurrence gets the name of its innermost preceding declaration, and each declaration
    a name of its own, exactly if no key of an assigned object has a variable that is declared at that point.
   */
  lemma {:induction false} RenamesByScope(gen: nat -> Name, source: set<Name>, body: seq<Stmt>)
    requires From(gen, source, BodyNames(body)) && BodyOk(body) && RewriteLocals(gen, body).0.ok
    ensures var r, s := RewriteLocals(gen, body), ResolveBody(gen, [map[]], 0, body);
            (r.1 == NonEmpty(s.body) <==> BodyClear(gen, [map[]], 0, body)) && r.0.next == s.n
  {
    assert FramesAgree(gen, [EMPTY], [map[]]);
    BodyResolves(gen, source, START, [map[]], 0, body);
    SameNonEmpty(RewriteBody(gen, START, body).1, ResolveBody(gen, [map[]], 0, body).body);
  }

  lemma {:induction false} StartClean(gen: nat -> Name, source: set<Name>)
    requires Supply(gen, source)
    ensures Clean(gen, source, START)
  {
  }

  /** Without errors, mapping names back through the rewritten variables restores the source. */
  lemma {:induction false} RenamingUndone(gen: nat -> Name, source: set<Name>, body: seq<Stmt>)
    requires Supply(gen, source) && BodyNames(body) <= source && RewriteLocals(gen, body).0.ok
    ensures var r := RewriteLocals(gen, body); NonEmpty(RestoreBody(r.0.rewritten, r.1)) == NonEmpty(RestoreBody(map[], body))
  {
    StartClean(gen, source);
    BodyKept(gen, source, START, body);
    var r := RewriteBody(gen, START, body);
    BodyUndone(gen, source, START, body, r.0.rewritten);
    NonEmptyUndone(r.0.rewritten, r.1, RestoreBody(map[], body));
  }

  /** The rewritten names are the generated ones, one for each declaration, and none is a variable of the source. */
  lemma {:induction false} RewrittenNames(gen: nat -> Name, source: set<Name>, body: seq<Stmt>)
    requires Supply(gen, source) && BodyNames(body) <= source
    ensures var st := RewriteLocals(gen, body).0;
            (forall y :: y in st.rewritten <==> Issued(gen, st.next, y)) && st.rewritten.Keys !! source
  {
    StartClean(gen, source);
    BodyKept(gen, source, START, body);
  }

  // The supply of names.

  /** The counter values at which names are handed out, given the first usable counter from any other. */
  function Iterate(next: nat -> nat, k: nat): nat {
    if k == 0 then next(0) else next(Iterate(next, k - 1) + 1)
  }

  lemma {:induction false} IterateIncreases(next: nat -> nat, j: nat, k: nat)
    requires j < k && forall n: nat :: n <= next(n)
    ensures Iterate(next, j) < Iterate(next, k)
  {
    assert Iterate(next, k - 1) + 1 <= next(Iterate(next, k - 1) + 1);
    if j < k - 1 {
      IterateIncreases(next, j, k - 1);
    }
  }

  function GeneratedName(g: LocalVars.Generator, k: nat): Name {
    LocalVars.Local(g, Iterate((n: nat) => LocalVars.FirstFree(g, n), k))
  }

  lemma {:induction false} IterateOnto(g: LocalVars.Generator, next: nat -> nat, k: nat)
    requires forall n: nat :: LocalVars.Local(g, next(n)) !in g.exclude
    ensures LocalVars.Local(g, Iterate(next, k)) !in g.exclude
  {
  }

  /** Successive generated names are new to the source and all different. */
  lemma {:induction false} GeneratorSupplies(g: LocalVars.Generator)
    ensures Supply((k: nat) => GeneratedName(g, k), g.exclude)
  {
    var next := (n: nat) => LocalVars.FirstFree(g, n);
    forall k: nat ensures GeneratedName(g, k) !in g.exclude {
      IterateOnto(g, next, k);
    }
    forall j: nat, k: nat | GeneratedName(g, j) == GeneratedName(g, k) ensures j == k {
      LocalVars.LocalInjective(g, Iterate(next, j), Iterate(next, k));
      if j < k { IterateIncreases(next, j, k); }
      if k < j { IterateIncreases(next, k, j); }
    }
  }

  // Keys of assigned objects.

  lemma {:induction false} OneItem(gen: nat -> Name, st: State, env: Env, n: nat, item: Entry)
    requires st.frames != [] && env != []
    ensures RewritePattern(gen, st, Record([item])) == (RewriteItemPattern(gen, st, item).0, Record([RewriteItemPattern(gen, st, item).1]))
    ensures var q := ResolveItemPattern(gen, env, n, item);
            ResolvePattern(gen, env, n, Record([item])) == Declaring(q.env, q.n, Record([q.out]))
  {
    var one := [item];
    assert one[0] == item && one[1..] == [];
    var p, q := RewriteItemPattern(gen, st, item), ResolveItemPattern(gen, env, n, item);
    assert RewriteItemPatterns(gen, p.0, []) == (p.0, []);
    assert RewriteItemPatterns(gen, st, one) == (p.0, [p.1] + []);
    assert ResolveItemPatterns(gen, q.env, q.n, []) == Declaring(q.env, q.n, []);
    assert ResolveItemPatterns(gen, env, n, one) == Declaring(q.env, q.n, [q.out] + []);
    assert [p.1] + [] == [p.1] && [q.out] + [] == [q.out];
  }

  /** After `x := 1`, the key in `{x: y} := 2` is still the source variable. */
  lemma {:induction false} KeyLeftBehind(gen: nat -> Name, a: Stmt, b: Stmt, item: Entry)
    requires a == Assign(false, Variable("x"), Lit("1")) && b == Assign(false, Record([item]), Lit("2"))
    requires item == Entry(Variable("x"), Variable("y"))
    ensures var st := RewriteStmt(gen, START, a).0;
            && RewriteStmt(gen, st, b).0.ok
            && RewriteStmt(gen, st, b).1 == [Plain([EQ, Record([Entry(Variable("x"), Variable(gen(1)))]), Lit("2")])]
    ensures var r := ResolveStmt(gen, [map[]], 0, a);
            ResolveStmt(gen, r.env, r.n, b).body == [Plain([EQ, Record([Entry(Variable(gen(0)), Variable(gen(1)))]), Lit("2")])]
  {
    var st, r := RewriteStmt(gen, START, a).0, ResolveStmt(gen, [map[]], 0, a);
    assert st.frames == [Frame(map["x" := gen(0)], map["x" := Assigned])] && st.next == 1;
    assert r.env == [map["x" := 0]] && r.n == 1;
    assert "x"[0] != "y"[0];
    OneItem(gen, st, r.env, 1, item);
  }
}
