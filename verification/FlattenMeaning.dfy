/** Flattening preserves meaning: each solution extends to the generated variables in exactly one way. */
module FlattenMeaning {
  import opened Syntax
  import opened Semantics
  import opened LocalVars
  import opened Flatten

  /** None of the names can be handed out any more. */
  ghost predicate Stale(g: Generator, n: nat, names: set<Name>) {
    forall x | x in names :: !Ahead(g, n, x)
  }

  /** The assignments differ at most on names generated while the counter ran from `n` to `m`. */
  ghost predicate SameOff(g: Generator, n: nat, m: nat, e1: Env, e2: Env) {
    forall x :: !Generated(g, n, m, x) ==> e1(x) == e2(x)
  }

  ghost predicate SameOn(g: Generator, n: nat, m: nat, e1: Env, e2: Env) {
    forall x :: Generated(g, n, m, x) ==> e1(x) == e2(x)
  }

  lemma {:induction false} StaleLater(g: Generator, n: nat, m: nat, names: set<Name>)
    requires n <= m && Stale(g, n, names)
    ensures Stale(g, m, names)
  {
  }

  lemma {:induction false} SameOffStale(g: Generator, n: nat, m: nat, e1: Env, e2: Env, names: set<Name>)
    requires SameOff(g, n, m, e1, e2) && Stale(g, n, names)
    ensures Agree(e1, e2, names)
  {
  }

  lemma {:induction false} SameOffJoin(g: Generator, n: nat, m: nat, p: nat, e1: Env, e2: Env, e3: Env)
    requires n <= m <= p && SameOff(g, n, m, e1, e2) && SameOff(g, m, p, e2, e3)
    ensures SameOff(g, n, p, e1, e3)
  {
    forall x | !Generated(g, n, p, x) ensures e1(x) == e3(x) {
      GeneratedSplits(g, n, m, p, x);
    }
  }

  /** Names mentioned up to `m` are stale from `m` on. */
  lemma {:induction false} MentionedStale(g: Generator, n: nat, m: nat, original: set<Name>, names: set<Name>)
    requires n <= m && Stale(g, n, original) && AllMentioned(g, n, m, original, names)
    ensures Stale(g, m, names)
  {
    forall x | x in names ensures !Ahead(g, m, x) {
      GeneratedSplits(g, n, m, m, x);
      if x in original { StaleLater(g, n, m, original); }
    }
  }

  lemma {:induction false} WithinStale(g: Generator, n: nat, original: set<Name>, support: seq<Expr>, names: set<Name>, m: nat)
    requires Within(g, n, original, support, names, m) && Stale(g, n, original)
    ensures Stale(g, m, BodyVars(OPERANDS, support)) && Stale(g, m, names)
  {
    MentionedStale(g, n, m, original, BodyVars(OPERANDS, support) + names);
  }

  ghost function Update(env: Env, x: Name, v: Value): Env {
    y => if y == x then v else env(y)
  }

  /** Giving a value to the next fresh name disturbs nothing stale. */
  lemma {:induction false} UpdateFresh(g: Generator, n: nat, env: Env, v: Value)
    ensures var k := FirstFree(g, n); SameOff(g, n, k + 1, env, Update(env, Local(g, k), v))
  {
    var k := FirstFree(g, n);
    var env' := Update(env, Local(g, k), v);
    forall x | !Generated(g, n, k + 1, x) ensures env(x) == env'(x) {
      GeneratedOnce(g, n, x);
    }
  }

  // Existence.

  ghost predicate Extends(w: World, g: Generator, n: nat, m: nat, support: seq<Expr>, env: Env, env': Env) {
    SameOff(g, n, m, env, env') && HoldsBody(w, env', support)
  }

  lemma {:induction false} ExtendsJoin(w: World, g: Generator, n: nat, k: nat, m: nat, s1: seq<Expr>, s2: seq<Expr>, e1: Env, e2: Env, e3: Env)
    requires Lexical(w) && n <= k <= m
    requires Extends(w, g, n, k, s1, e1, e2) && Extends(w, g, k, m, s2, e2, e3)
    requires Stale(g, k, BodyVars(OPERANDS, s1))
    ensures Extends(w, g, n, m, s1 + s2, e1, e3)
  {
    SameOffJoin(g, n, k, m, e1, e2, e3);
    SameOffStale(g, k, m, e2, e3, BodyVars(OPERANDS, s1));
    HoldsBodyLocal(w, e2, e3, s1);
    HoldsBodyConcat(w, e3, s1, s2);
  }

  lemma {:induction false} ExtendsBind(w: World, g: Generator, n: nat, next: nat, s: seq<Expr>, e1: Env, e2: Env, v: Value, def: Expr)
    requires Lexical(w) && n <= next && Extends(w, g, n, next, s, e1, e2) && Stale(g, next, BodyVars(OPERANDS, s))
    requires var x := Local(g, FirstFree(g, next)); Holds(w, Update(e2, x, v), def)
    ensures var k := FirstFree(g, next); Extends(w, g, n, k + 1, s + [def], e1, Update(e2, Local(g, k), v))
  {
    var k := FirstFree(g, next);
    UpdateFresh(g, next, e2, v);
    ExtendsJoin(w, g, n, next, k + 1, s, [def], e1, e2, Update(e2, Local(g, k), v));
  }

  lemma {:induction false} ExtendTerm(w: World, m: Mode, g: Generator, n: nat, t: Term, env: Env) returns (env': Env)
    requires Lexical(w) && Wf(w, t) && Stale(g, n, Vars(OPERANDS, t)) && Eval(w, env, t).Some?
    ensures var x := Lift(m, g, n, t); Extends(w, g, n, x.next, x.support, env, env')
    decreases t, 0
  {
    match t
    case Const(_) => env' := env;
    case Var(_) => env' := env;
    case Call(op, args) =>
      if m.Calls? {
        env' := ExtendCall(w, g, n, op, args, env);
      } else {
        env' := env;
      }
    case Ref(parts) => env' := ExtendRef(w, m, g, n, parts, env);
    case Array(elems) => env' := ExtendSeq(w, Inner(m), g, n, elems, env);
    case Object(items) => env' := ExtendItems(w, Inner(m), g, n, items, env);
    case Set(members) => env' := ExtendSeq(w, Inner(m), g, n, members, env);
  }

  lemma {:induction false} ExtendCall(w: World, g: Generator, n: nat, op: Term, args: seq<Term>, env: Env) returns (env': Env)
    requires var t := Call(op, args); Lexical(w) && Wf(w, t) && Stale(g, n, Vars(OPERANDS, t)) && Eval(w, env, t).Some?
    ensures var x := Lift(Calls, g, n, Call(op, args)); Extends(w, g, n, x.next, x.support, env, env')
    decreases args, 1
  {
    var xs := LiftSeq(Calls, g, n, args);
    var x, v := Local(g, FirstFree(g, xs.next)), Eval(w, env, Call(op, args)).value;
    var e1 := ExtendSeq(w, Calls, g, n, args, env);
    env' := Update(e1, x, v);
    SeqAfter(w, Calls, g, n, args, env, e1, v);
    CaptureHolds(w, env', op, xs.terms, x);
    ExtendsBind(w, g, n, xs.next, xs.support, env, e1, v, Capture(op, xs.terms, x));
  }

  /** The lifted terms keep the original values, also once the next fresh name has got a value. */
  lemma {:induction false} SeqAfter(w: World, m: Mode, g: Generator, n: nat, ts: seq<Term>, env: Env, e1: Env, v: Value)
    requires Lexical(w) && WfSeq(w, ts) && Stale(g, n, SeqVars(OPERANDS, ts))
    requires var xs := LiftSeq(m, g, n, ts); Extends(w, g, n, xs.next, xs.support, env, e1)
    ensures var xs := LiftSeq(m, g, n, ts);
            && n <= xs.next && |xs.terms| == |ts|
            && Stale(g, xs.next, BodyVars(OPERANDS, xs.support)) && Stale(g, xs.next, SeqVars(OPERANDS, xs.terms))
            && EvalSeq(w, Update(e1, Local(g, FirstFree(g, xs.next)), v), xs.terms) == EvalSeq(w, env, ts)
  {
    var xs := LiftSeq(m, g, n, ts);
    LiftSeqWithin(m, g, n, ts);
    WithinStale(g, n, SeqVars(OPERANDS, ts), xs.support, SeqVars(OPERANDS, xs.terms), xs.next);
    LiftSeqEval(w, m, g, n, ts, e1);
    SameOffStale(g, n, xs.next, env, e1, SeqVars(OPERANDS, ts));
    EvalSeqLocal(w, env, e1, ts);
    var k := FirstFree(g, xs.next);
    var e2 := Update(e1, Local(g, k), v);
    UpdateFresh(g, xs.next, e1, v);
    SameOffStale(g, xs.next, k + 1, e1, e2, SeqVars(OPERANDS, xs.terms));
    EvalSeqLocal(w, e1, e2, xs.terms);
  }

  lemma {:induction false} ExtendRef(w: World, m: Mode, g: Generator, n: nat, parts: seq<Term>, env: Env) returns (env': Env)
    requires Lexical(w) && WfSeq(w, parts) && Stale(g, n, SeqVars(OPERANDS, parts)) && Eval(w, env, Ref(parts)).Some?
    ensures var x := Lift(m, g, n, Ref(parts)); Extends(w, g, n, x.next, x.support, env, env')
    decreases parts, 1
  {
    if m.Calls? {
      var xs := LiftSeq(Calls, g, n, parts);
      env' := ExtendSeq(w, Calls, g, n, parts, env);
      if xs.terms != [] && Composite(xs.terms[0]) {
        var x, v := Local(g, FirstFree(g, xs.next)), EvalSeq(w, env, parts).value[0];
        SeqAfter(w, Calls, g, n, parts, env, env', v);
        EqualityHolds(w, Update(env', x, v), Var(x), xs.terms[0]);
        ExtendsBind(w, g, n, xs.next, xs.support, env, env', v, Equality(Var(x), xs.terms[0]));
        env' := Update(env', x, v);
      }
    } else {
      var xs := LiftSeq(Refs, g, n, Tail(parts));
      env' := ExtendSeq(w, Refs, g, n, Tail(parts), env);
      if !m.Top? {
        var ref := Ref(Head(parts) + xs.terms);
        var x, v := Local(g, FirstFree(g, xs.next)), Eval(w, env, Ref(parts)).value;
        SeqAfter(w, Refs, g, n, Tail(parts), env, env', v);
        KeptRefAfter(w, g, n, parts, env, env', v);
        EqualityHolds(w, Update(env', x, v), Var(x), ref);
        ExtendsBind(w, g, n, xs.next, xs.support, env, env', v, Equality(Var(x), ref));
        env' := Update(env', x, v);
      }
    }
  }

  lemma {:induction false} KeptRefAfter(w: World, g: Generator, n: nat, parts: seq<Term>, env: Env, e1: Env, v: Value)
    requires Lexical(w) && WfSeq(w, parts) && Stale(g, n, SeqVars(OPERANDS, parts))
    requires var xs := LiftSeq(Refs, g, n, Tail(parts)); Extends(w, g, n, xs.next, xs.support, env, e1)
    ensures var xs := LiftSeq(Refs, g, n, Tail(parts));
            var e2 := Update(e1, Local(g, FirstFree(g, xs.next)), v);
            Eval(w, e2, Ref(Head(parts) + xs.terms)) == Eval(w, env, Ref(parts))
  {
    var xs := LiftSeq(Refs, g, n, Tail(parts));
    var k := FirstFree(g, xs.next);
    var e2 := Update(e1, Local(g, k), v);
    SeqAfter(w, Refs, g, n, Tail(parts), env, e1, v);
    if parts != [] {
      UpdateFresh(g, xs.next, e1, v);
      SameOffJoin(g, n, xs.next, k + 1, env, e1, e2);
      SameOffStale(g, n, k + 1, env, e2, SeqVars(OPERANDS, parts));
      EvalLocal(w, env, e2, parts[0]);
      var ts := Head(parts) + xs.terms;
      assert ts[0] == parts[0] && ts[1..] == xs.terms;
    } else {
      assert Head(parts) + xs.terms == [];
    }
  }

  lemma {:induction false} ExtendSeq(w: World, m: Mode, g: Generator, n: nat, ts: seq<Term>, env: Env) returns (env': Env)
    requires Lexical(w) && WfSeq(w, ts) && Stale(g, n, SeqVars(OPERANDS, ts)) && EvalSeq(w, env, ts).Some?
    ensures var xs := LiftSeq(m, g, n, ts); Extends(w, g, n, xs.next, xs.support, env, env')
    decreases ts, 0
  {
    if ts == [] {
      env' := env;
    } else {
      var x := Lift(m, g, n, ts[0]);
      var e1 := ExtendTerm(w, m, g, n, ts[0], env);
      LiftWithin(m, g, n, ts[0]);
      WithinStale(g, n, Vars(OPERANDS, ts[0]), x.support, Vars(OPERANDS, x.term), x.next);
      SameOffStale(g, n, x.next, env, e1, SeqVars(OPERANDS, ts[1..]));
      EvalSeqLocal(w, env, e1, ts[1..]);
      StaleLater(g, n, x.next, SeqVars(OPERANDS, ts[1..]));
      env' := ExtendSeq(w, m, g, x.next, ts[1..], e1);
      var xs := LiftSeq(m, g, x.next, ts[1..]);
      LiftSeqWithin(m, g, x.next, ts[1..]);
      ExtendsJoin(w, g, n, x.next, xs.next, x.support, xs.support, env, e1, env');
    }
  }

  lemma {:induction false} ExtendItems(w: World, m: Mode, g: Generator, n: nat, items: seq<Item>, env: Env) returns (env': Env)
    requires Lexical(w) && WfItems(w, items) && Stale(g, n, ItemsVars(OPERANDS, items)) && EvalItems(w, env, items).Some?
    ensures var xs := LiftItems(m, g, n, items); Extends(w, g, n, xs.next, xs.support, env, env')
    decreases items, 0
  {
    if items == [] {
      env' := env;
    } else {
      var x := LiftItem(m, g, n, items[0]);
      var e1 := ExtendItem(w, m, g, n, items[0], env);
      LiftItemWithin(m, g, n, items[0]);
      WithinStale(g, n, ItemVars(OPERANDS, items[0]), x.support, ItemVars(OPERANDS, x.items[0]), x.next);
      SameOffStale(g, n, x.next, env, e1, ItemsVars(OPERANDS, items[1..]));
      EvalItemsLocal(w, env, e1, items[1..]);
      StaleLater(g, n, x.next, ItemsVars(OPERANDS, items[1..]));
      env' := ExtendItems(w, m, g, x.next, items[1..], e1);
      var xs := LiftItems(m, g, x.next, items[1..]);
      LiftItemsWithin(m, g, x.next, items[1..]);
      ExtendsJoin(w, g, n, x.next, xs.next, x.support, xs.support, env, e1, env');
    }
  }

  lemma {:induction false} ExtendItem(w: World, m: Mode, g: Generator, n: nat, item: Item, env: Env) returns (env': Env)
    requires Lexical(w) && WfItem(w, item) && Stale(g, n, ItemVars(OPERANDS, item)) && EvalItem(w, env, item).Some?
    ensures var x := LiftItem(m, g, n, item); Extends(w, g, n, x.next, x.support, env, env')
    decreases item, 0
  {
    var k := Lift(m, g, n, item.key);
    var e1 := ExtendTerm(w, m, g, n, item.key, env);
    LiftWithin(m, g, n, item.key);
    WithinStale(g, n, Vars(OPERANDS, item.key), k.support, Vars(OPERANDS, k.term), k.next);
    SameOffStale(g, n, k.next, env, e1, Vars(OPERANDS, item.value));
    EvalLocal(w, env, e1, item.value);
    StaleLater(g, n, k.next, Vars(OPERANDS, item.value));
    env' := ExtendTerm(w, m, g, k.next, item.value, e1);
    var v := Lift(m, g, k.next, item.value);
    LiftWithin(m, g, k.next, item.value);
    ExtendsJoin(w, g, n, k.next, v.next, k.support, v.support, env, e1, env');
  }

  // Uniqueness.

  lemma {:induction false} UniqueJoin(g: Generator, n: nat, m: nat, p: nat, e1: Env, e2: Env)
    requires n <= m <= p && SameOn(g, n, m, e1, e2) && SameOn(g, m, p, e1, e2)
    ensures SameOn(g, n, p, e1, e2)
  {
    forall x | Generated(g, n, p, x) ensures e1(x) == e2(x) {
      GeneratedSplits(g, n, m, p, x);
    }
  }

  lemma {:induction false} UniqueBind(g: Generator, n: nat, m: nat, e1: Env, e2: Env)
    requires n <= m && SameOn(g, n, m, e1, e2)
    requires var x := Local(g, FirstFree(g, m)); e1(x) == e2(x)
    ensures SameOn(g, n, FirstFree(g, m) + 1, e1, e2)
  {
    var k := FirstFree(g, m);
    forall x | Generated(g, m, k + 1, x) ensures e1(x) == e2(x) {
      GeneratedOnce(g, m, x);
    }
    UniqueJoin(g, n, m, k + 1, e1, e2);
  }

  ghost predicate BothHold(w: World, e1: Env, e2: Env, support: seq<Expr>) {
    HoldsBody(w, e1, support) && HoldsBody(w, e2, support)
  }

  lemma {:induction false} BothSplit(w: World, e1: Env, e2: Env, s1: seq<Expr>, s2: seq<Expr>)
    requires BothHold(w, e1, e2, s1 + s2)
    ensures BothHold(w, e1, e2, s1) && BothHold(w, e1, e2, s2)
  {
    HoldsBodyConcat(w, e1, s1, s2);
    HoldsBodyConcat(w, e2, s1, s2);
  }

  lemma {:induction false} UniqueTerm(w: World, m: Mode, g: Generator, n: nat, t: Term, e1: Env, e2: Env)
    requires Lexical(w) && Wf(w, t) && Agree(e1, e2, Vars(OPERANDS, t)) && BothHold(w, e1, e2, Lift(m, g, n, t).support)
    ensures SameOn(g, n, Lift(m, g, n, t).next, e1, e2)
    decreases t, 0
  {
    match t
    case Const(_) =>
    case Var(_) =>
    case Call(op, args) => if m.Calls? { UniqueCall(w, g, n, op, args, e1, e2); }
    case Ref(parts) => UniqueRef(w, m, g, n, parts, e1, e2);
    case Array(elems) => UniqueSeq(w, Inner(m), g, n, elems, e1, e2);
    case Object(items) => UniqueItems(w, Inner(m), g, n, items, e1, e2);
    case Set(members) => UniqueSeq(w, Inner(m), g, n, members, e1, e2);
  }

  lemma {:induction false} UniqueCall(w: World, g: Generator, n: nat, op: Term, args: seq<Term>, e1: Env, e2: Env)
    requires Lexical(w) && Wf(w, Call(op, args)) && Agree(e1, e2, SeqVars(OPERANDS, args))
    requires BothHold(w, e1, e2, Lift(Calls, g, n, Call(op, args)).support)
    ensures SameOn(g, n, Lift(Calls, g, n, Call(op, args)).next, e1, e2)
    decreases args, 1
  {
    var xs := LiftSeq(Calls, g, n, args);
    var x := Local(g, FirstFree(g, xs.next));
    var def := Capture(op, xs.terms, x);
    BothSplit(w, e1, e2, xs.support, [def]);
    UniqueSeq(w, Calls, g, n, args, e1, e2);
    LiftSeqWithin(Calls, g, n, args);
    LiftSeqEval(w, Calls, g, n, args, e1);
    LiftSeqEval(w, Calls, g, n, args, e2);
    EvalSeqLocal(w, e1, e2, args);
    assert Holds(w, e1, [def][0]) && Holds(w, e2, [def][0]);
    CaptureHolds(w, e1, op, xs.terms, x);
    CaptureHolds(w, e2, op, xs.terms, x);
    UniqueBind(g, n, xs.next, e1, e2);
  }

  lemma {:induction false} UniqueRef(w: World, m: Mode, g: Generator, n: nat, parts: seq<Term>, e1: Env, e2: Env)
    requires Lexical(w) && WfSeq(w, parts) && Agree(e1, e2, SeqVars(OPERANDS, parts))
    requires BothHold(w, e1, e2, Lift(m, g, n, Ref(parts)).support)
    ensures SameOn(g, n, Lift(m, g, n, Ref(parts)).next, e1, e2)
    decreases parts, 1
  {
    EvalSeqLocal(w, e1, e2, parts);
    if m.Calls? {
      var xs := LiftSeq(Calls, g, n, parts);
      LiftSeqWithin(Calls, g, n, parts);
      if xs.terms != [] && Composite(xs.terms[0]) {
        var def := Equality(Var(Local(g, FirstFree(g, xs.next))), xs.terms[0]);
        BothSplit(w, e1, e2, xs.support, [def]);
        UniqueSeq(w, Calls, g, n, parts, e1, e2);
        UniqueSubject(w, g, n, parts, e1, e2);
        UniqueDefinition(w, g, n, xs.next, e1, e2, xs.terms[0], parts[0]);
      } else {
        UniqueSeq(w, Calls, g, n, parts, e1, e2);
      }
    } else {
      var xs := LiftSeq(Refs, g, n, Tail(parts));
      LiftSeqWithin(Refs, g, n, Tail(parts));
      if m.Top? {
        UniqueSeq(w, Refs, g, n, Tail(parts), e1, e2);
      } else {
        var ref := Ref(Head(parts) + xs.terms);
        var def := Equality(Var(Local(g, FirstFree(g, xs.next))), ref);
        BothSplit(w, e1, e2, xs.support, [def]);
        UniqueSeq(w, Refs, g, n, Tail(parts), e1, e2);
        LiftRefEval(w, Top, g, n, parts, e1);
        LiftRefEval(w, Top, g, n, parts, e2);
        UniqueDefinition(w, g, n, xs.next, e1, e2, ref, Ref(parts));
      }
    }
  }

  /** The lifted subject of a reference has the subject's own value under both assignments. */
  lemma {:induction false} UniqueSubject(w: World, g: Generator, n: nat, parts: seq<Term>, e1: Env, e2: Env)
    requires Lexical(w) && parts != [] && WfSeq(w, parts) && Agree(e1, e2, SeqVars(OPERANDS, parts))
    requires BothHold(w, e1, e2, LiftSeq(Calls, g, n, parts).support)
    ensures var xs := LiftSeq(Calls, g, n, parts);
            && xs.terms != [] && Eval(w, e1, parts[0]) == Eval(w, e2, parts[0])
            && Eval(w, e1, xs.terms[0]) == Eval(w, e1, parts[0]) && Eval(w, e2, xs.terms[0]) == Eval(w, e2, parts[0])
  {
    var x := Lift(Calls, g, n, parts[0]);
    BothSplit(w, e1, e2, x.support, LiftSeq(Calls, g, x.next, parts[1..]).support);
    LiftEval(w, Calls, g, n, parts[0], e1);
    LiftEval(w, Calls, g, n, parts[0], e2);
    EvalLocal(w, e1, e2, parts[0]);
  }

  lemma {:induction false} UniqueDefinition(w: World, g: Generator, n: nat, next: nat, e1: Env, e2: Env, lifted: Term, t: Term)
    requires n <= next && SameOn(g, n, next, e1, e2)
    requires BothHold(w, e1, e2, [Equality(Var(Local(g, FirstFree(g, next))), lifted)])
    requires Eval(w, e1, lifted) == Eval(w, e1, t) == Eval(w, e2, t) == Eval(w, e2, lifted)
    ensures SameOn(g, n, FirstFree(g, next) + 1, e1, e2)
  {
    var x := Local(g, FirstFree(g, next));
    var defs := [Equality(Var(x), lifted)];
    assert Holds(w, e1, defs[0]) && Holds(w, e2, defs[0]);
    EqualityHolds(w, e1, Var(x), lifted);
    EqualityHolds(w, e2, Var(x), lifted);
    UniqueBind(g, n, next, e1, e2);
  }

  lemma {:induction false} UniqueSeq(w: World, m: Mode, g: Generator, n: nat, ts: seq<Term>, e1: Env, e2: Env)
    requires Lexical(w) && WfSeq(w, ts) && Agree(e1, e2, SeqVars(OPERANDS, ts)) && BothHold(w, e1, e2, LiftSeq(m, g, n, ts).support)
    ensures SameOn(g, n, LiftSeq(m, g, n, ts).next, e1, e2)
    decreases ts, 0
  {
    if ts != [] {
      var x := Lift(m, g, n, ts[0]);
      var xs := LiftSeq(m, g, x.next, ts[1..]);
      BothSplit(w, e1, e2, x.support, xs.support);
      UniqueTerm(w, m, g, n, ts[0], e1, e2);
      UniqueSeq(w, m, g, x.next, ts[1..], e1, e2);
      LiftWithin(m, g, n, ts[0]);
      LiftSeqWithin(m, g, x.next, ts[1..]);
      UniqueJoin(g, n, x.next, xs.next, e1, e2);
    }
  }

  lemma {:induction false} UniqueItems(w: World, m: Mode, g: Generator, n: nat, items: seq<Item>, e1: Env, e2: Env)
    requires Lexical(w) && WfItems(w, items) && Agree(e1, e2, ItemsVars(OPERANDS, items)) && BothHold(w, e1, e2, LiftItems(m, g, n, items).support)
    ensures SameOn(g, n, LiftItems(m, g, n, items).next, e1, e2)
    decreases items, 0
  {
    if items != [] {
      var x := LiftItem(m, g, n, items[0]);
      var xs := LiftItems(m, g, x.next, items[1..]);
      BothSplit(w, e1, e2, x.support, xs.support);
      UniqueItem(w, m, g, n, items[0], e1, e2);
      UniqueItems(w, m, g, x.next, items[1..], e1, e2);
      LiftItemWithin(m, g, n, items[0]);
      LiftItemsWithin(m, g, x.next, items[1..]);
      UniqueJoin(g, n, x.next, xs.next, e1, e2);
    }
  }

  lemma {:induction false} UniqueItem(w: World, m: Mode, g: Generator, n: nat, item: Item, e1: Env, e2: Env)
    requires Lexical(w) && WfItem(w, item) && Agree(e1, e2, ItemVars(OPERANDS, item)) && BothHold(w, e1, e2, LiftItem(m, g, n, item).support)
    ensures SameOn(g, n, LiftItem(m, g, n, item).next, e1, e2)
    decreases item, 0
  {
    var k := Lift(m, g, n, item.key);
    var v := Lift(m, g, k.next, item.value);
    BothSplit(w, e1, e2, k.support, v.support);
    UniqueTerm(w, m, g, n, item.key, e1, e2);
    UniqueTerm(w, m, g, k.next, item.value, e1, e2);
    LiftWithin(m, g, n, item.key);
    LiftWithin(m, g, k.next, item.value);
    UniqueJoin(g, n, k.next, v.next, e1, e2);
  }
}
