/** The safety check's reordering of closure-free bodies. */
module Safety {
  import opened Syntax
  import opened OutputVars
  import opened Reordering
  import opened Twins

  function Needs(e: Expr): set<Name> {
    ExprVars(SAFETY_CHECK, e)
  }

  ghost function SafetyRules(arity: Term -> int): Rules<Expr> {
    Rules(Needs, (safe, e) => Outputs(arity, safe, e))
  }

  predicate PlainBody(body: seq<Expr>) {
    forall i | 0 <= i < |body| :: PlainExpr(body[i])
  }

  lemma {:induction false} RulesMonotone(arity: Term -> int)
    ensures Monotone(SafetyRules(arity))
  {
    var rules := SafetyRules(arity);
    forall s, s', e | s <= s' ensures s + rules.outputs(s, e) <= s' + rules.outputs(s', e) {
      OutputsMonotone(arity, s, s', e);
    }
  }

  lemma {:induction false} RulesBounded(arity: Term -> int, body: seq<Expr>)
    requires PlainBody(body)
    ensures Bounded(SafetyRules(arity), body)
  {
    var rules := SafetyRules(arity);
    forall s, i | 0 <= i < |body| ensures rules.outputs(s, body[i]) <= rules.needs(body[i]) + s {
      OutputsBounded(arity, s, body[i]);
    }
  }

  ghost predicate SafeFor(arity: Term -> int, globals: set<Name>, body: seq<Expr>, order: seq<nat>) {
    && IsPermutation(body, order)
    && SafeOrder(SafetyRules(arity), Start(SafetyRules(arity), globals, body).safe, Picks(body, order))
  }

  /** When nothing is reported unsafe, the result is the whole body in a safe order. */
  lemma {:induction false} ReorderedBodyIsSafe(arity: Term -> int, globals: set<Name>, body: seq<Expr>)
    requires Reorder(SafetyRules(arity), globals, body).unsafe == map[]
    ensures SafeFor(arity, globals, body, Reorder(SafetyRules(arity), globals, body).reordered)
  {
    RulesMonotone(arity);
    ReorderSound(SafetyRules(arity), globals, body);
  }

  /** For closure-free bodies without twins, nothing is reported unsafe exactly when some order is safe. */
  lemma {:induction false} ReorderFindsSafeOrder(arity: Term -> int, globals: set<Name>, body: seq<Expr>)
    requires PlainBody(body) && NoTwins(body)
    ensures Reorder(SafetyRules(arity), globals, body).unsafe == map[] <==> exists order :: SafeFor(arity, globals, body, order)
  {
    RulesMonotone(arity);
    RulesBounded(arity, body);
    ReorderExact(SafetyRules(arity), globals, body);
    var safe0 := Start(SafetyRules(arity), globals, body).safe;
    if order :| IsPermutation(body, order) && SafeOrder(SafetyRules(arity), safe0, Picks(body, order)) {
      assert SafeFor(arity, globals, body, order);
    }
  }

  /** With twins, the order that would be found without them must not put one after its index holds the other. */
  lemma {:induction false} ReorderWithTwins(arity: Term -> int, globals: set<Name>, body: seq<Expr>)
    requires PlainBody(body)
    ensures Reorder(SafetyRules(arity), globals, body).unsafe == map[] <==>
            && (exists order :: SafeFor(arity, globals, body, order))
            && Undisturbed(body, Reference(SafetyRules(arity), globals, body).reordered)
  {
    RulesMonotone(arity);
    RulesBounded(arity, body);
    TwinsExact(SafetyRules(arity), globals, body);
    var safe0 := Start(SafetyRules(arity), globals, body).safe;
    if order :| IsPermutation(body, order) && SafeOrder(SafetyRules(arity), safe0, Picks(body, order)) {
      assert SafeFor(arity, globals, body, order);
    }
  }

  /** A body that is already safe comes back unchanged, twins or not. */
  lemma {:induction false} SafeBodyUnchanged(arity: Term -> int, globals: set<Name>, body: seq<Expr>)
    requires SafeFor(arity, globals, body, Identity(|body|))
    ensures Reorder(SafetyRules(arity), globals, body).reordered == Identity(|body|)
    ensures Picks(body, Identity(|body|)) == body
    ensures Reorder(SafetyRules(arity), globals, body).unsafe == map[]
  {
    RulesMonotone(arity);
    assert Picks(body, Identity(|body|)) == body;
    ReorderMinimal(SafetyRules(arity), globals, body);
  }

  // The loop itself.

  method ReorderBodyForSafety(arity: Term -> int, globals: set<Name>, body: seq<Expr>)
    returns (reordered: seq<nat>, unsafe: map<nat, set<Name>>)
    ensures reordered == Reorder(SafetyRules(arity), globals, body).reordered
    ensures unsafe == Reorder(SafetyRules(arity), globals, body).unsafe
  {
    var safe: set<Name>;
    safe, unsafe := Classify(arity, globals, body);
    reordered := [];
    var n := -1;
    while |reordered| != n
      invariant Positions(body, reordered) && -1 <= n <= |reordered|
      invariant var st := Progress(reordered, safe, unsafe);
                if |reordered| == n then st == Reorder(SafetyRules(arity), globals, body)
                else Run(SafetyRules(arity), body, st) == Reorder(SafetyRules(arity), globals, body)
      decreases |body| - |reordered|, |reordered| - n
    {
      n := |reordered|;
      ghost var st := Progress(reordered, safe, unsafe);
      VisitFromPositions(SafetyRules(arity), body, 0, st);
      PositionsBounded(body, VisitFrom(SafetyRules(arity), body, 0, st).reordered);
      for i := 0 to |body|
        invariant VisitFrom(SafetyRules(arity), body, i, Progress(reordered, safe, unsafe)) == VisitFrom(SafetyRules(arity), body, 0, st)
      {
        ghost var before := Progress(reordered, safe, unsafe);
        if !Contains(body, reordered, i) {
          var ovs := OutputVarsForExpr(arity, safe, body[i]);
          if i in unsafe {
            unsafe := unsafe[i := unsafe[i] - ovs - safe];
          }
          if i !in unsafe || unsafe[i] == {} {
            unsafe := unsafe - {i};
            reordered := reordered + [i];
            safe := safe + ovs;
          }
        }
        assert unsafe == Visit(SafetyRules(arity), body, i, before).unsafe;
      }
    }
  }

  /** Splits the variables of each expression into known globals and what it lacks. */
  method Classify(ghost arity: Term -> int, globals: set<Name>, body: seq<Expr>) returns (safe: set<Name>, unsafe: map<nat, set<Name>>)
    ensures Start(SafetyRules(arity), globals, body) == Progress([], safe, unsafe)
  {
    safe, unsafe := {}, map[];
    for i := 0 to |body|
      invariant safe == AllNeeds(SafetyRules(arity), body[..i]) * globals
      invariant unsafe == map j: nat | j < i && Needs(body[j]) - globals != {} :: Needs(body[j]) - globals
    {
      AllNeedsSnoc(arity, body, i);
      safe := safe + Needs(body[i]) * globals;
      if Needs(body[i]) - globals != {} {
        unsafe := unsafe[i := Needs(body[i]) - globals];
      }
    }
    assert body[..|body|] == body;
  }

  lemma {:induction false} AllNeedsSnoc(arity: Term -> int, body: seq<Expr>, i: nat)
    requires i < |body|
    ensures AllNeeds(SafetyRules(arity), body[..i + 1]) == AllNeeds(SafetyRules(arity), body[..i]) + Needs(body[i])
  {
    if i > 0 {
      AllNeedsSnoc(arity, body[1..], i - 1);
      assert body[..i + 1][1..] == body[1..][..i] && body[..i][1..] == body[1..][..i - 1];
    } else {
      assert body[..1][1..] == [];
    }
  }

  // One such scene: f takes no inputs and returns its argument, g takes two inputs.

  const F := Ref([Var("f")])
  const G := Ref([Var("g")])

  function Binds(x: Name): Expr {
    Expr(false, Operation(F, [Var(x)]), [])
  }

  function UsesBoth(x: Name, y: Name): Expr {
    Expr(false, Operation(G, [Var(x), Var(y)]), [])
  }

  function TwinArity(op: Term): int {
    if op == G then 2 else 0
  }

  lemma {:induction false} OperatorsDiffer()
    ensures F != G && F != EQUALITY && G != EQUALITY
  {
  }

  lemma {:induction false} BindsOutputs(safe: set<Name>, x: Name)
    requires "f" !in safe
    ensures Needs(Binds(x)) == {x} && Outputs(TwinArity, safe, Binds(x)) == {x}
  {
    var e := Binds(x);
    OperatorsDiffer();
    assert Tail(F.parts) == [] && OperatorVars(SAFETY_CHECK, F) == {};
    assert SeqVars(SAFETY_CHECK, [Var(x)]) == {x} + SeqVars(SAFETY_CHECK, []);
    assert Needs(e) == {} + SeqVars(SAFETY_CHECK, [Var(x)]) + WithsVars(SAFETY_CHECK, []);
    assert SeqVars(CALL_OUTPUT, [Var(x)]) == {x} + SeqVars(CALL_OUTPUT, []);
    assert SeqVars(CALL_OUTPUT, [F]) == Vars(CALL_OUTPUT, F) + SeqVars(CALL_OUTPUT, []);
    assert SeqRefOutputs(safe, [Var(x)]) == RefOutputs(safe, Var(x)) + SeqRefOutputs(safe, []);
    var terms := [F] + [Var(x)];
    assert terms[..1] == [F] && terms[1..] == [Var(x)];
    assert TermOutputs(safe, e) == {};
    assert CallOutputs(0, safe, e) == {x};
  }

  lemma {:induction false} UsesBothOutputs(safe: set<Name>, x: Name, y: Name)
    requires "g" !in safe
    ensures Needs(UsesBoth(x, y)) == {x, y} && Outputs(TwinArity, safe, UsesBoth(x, y)) == {}
  {
    var e := UsesBoth(x, y);
    OperatorsDiffer();
    assert Tail(G.parts) == [] && OperatorVars(SAFETY_CHECK, G) == {};
    var ts := [Var(x), Var(y)];
    assert ts[1..] == [Var(y)];
    assert SeqVars(SAFETY_CHECK, [Var(y)]) == {y} + SeqVars(SAFETY_CHECK, []);
    assert SeqVars(SAFETY_CHECK, ts) == {x} + SeqVars(SAFETY_CHECK, [Var(y)]);
    assert Needs(e) == {} + SeqVars(SAFETY_CHECK, ts) + WithsVars(SAFETY_CHECK, []);
    assert SeqRefOutputs(safe, [Var(y)]) == RefOutputs(safe, Var(y)) + SeqRefOutputs(safe, []);
    assert SeqRefOutputs(safe, ts) == RefOutputs(safe, Var(x)) + SeqRefOutputs(safe, [Var(y)]);
    assert TermOutputs(safe, e) == {};
  }

  lemma {:induction false} TwinsExist()
    ensures TwinScene(SafetyRules(TwinArity), UsesBoth("x", "y"), Binds("x"), Binds("y"), "x", "y")
  {
    UsesBothOutputs({}, "x", "y");
    BindsOutputs({}, "x");
    BindsOutputs({}, "y");
    OperatorsDiffer();
    forall safe: set<Name> | safe <= {"x", "y"} ensures "f" !in safe && "g" !in safe {
      assert "f"[0] != "x"[0] && "f"[0] != "y"[0] && "g"[0] != "x"[0] && "g"[0] != "y"[0];
    }
    assert "x"[0] != "y"[0];
    forall safe | safe <= {"x", "y"}
      ensures Outputs(TwinArity, safe, UsesBoth("x", "y")) == {}
      ensures Outputs(TwinArity, safe, Binds("x")) == {"x"} && Outputs(TwinArity, safe, Binds("y")) == {"y"}
    {
      UsesBothOutputs(safe, "x", "y");
      BindsOutputs(safe, "x");
      BindsOutputs(safe, "y");
    }
  }

  /** A safe body with twins whose second copy is dropped and reported unsafe. */
  lemma {:induction false} TwinMisreported()
    ensures var a, b, c := UsesBoth("x", "y"), Binds("x"), Binds("y");
            var rules := SafetyRules(TwinArity);
            var end := Reorder(rules, {}, [a, b, a, c]);
            && end.reordered == [1, 3, 0] && 2 in end.unsafe
            && multiset([b, c, a, a]) == multiset([a, b, a, c]) && SafeOrder(rules, {}, [b, c, a, a])
  {
    TwinsExist();
    RulesMonotone(TwinArity);
    TwinsReported(SafetyRules(TwinArity), UsesBoth("x", "y"), Binds("x"), Binds("y"), "x", "y");
    TwinsSafeOrder(SafetyRules(TwinArity), UsesBoth("x", "y"), Binds("x"), Binds("y"), "x", "y");
  }
}
