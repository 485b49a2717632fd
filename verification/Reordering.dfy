/**
  The fixed point that reorders a body so that left-to-right evaluation never meets an unbound variable,
  for any notion of what expressions need and bind.
 */
module Reordering {
  import opened Syntax

  /** What an expression needs, and what it binds once others are known. */
  datatype Rules<!E> = Rules(needs: E -> set<Name>, outputs: (set<Name>, E) -> set<Name>)

  /** The new order as positions in the body, the variables known so far, and what each expression still lacks. */
  datatype Progress = Progress(reordered: seq<nat>, safe: set<Name>, unsafe: map<nat, set<Name>>)

  /** Knowing more beforehand never binds less. */
  ghost predicate Monotone<E(!new)>(rules: Rules<E>) {
    forall s, s', e {:trigger rules.outputs(s, e), rules.outputs(s', e)} | s <= s' ::
      s + rules.outputs(s, e) <= s' + rules.outputs(s', e)
  }

  /** The expressions of the body bind nothing they do not mention. */
  ghost predicate Bounded<E>(rules: Rules<E>, body: seq<E>) {
    forall s, i | 0 <= i < |body| :: rules.outputs(s, body[i]) <= rules.needs(body[i]) + s
  }

  lemma {:induction false} OutputsGrow<E(!new)>(rules: Rules<E>, s: set<Name>, s': set<Name>, e: E)
    requires Monotone(rules) && s <= s'
    ensures s + rules.outputs(s, e) <= s' + rules.outputs(s', e)
  {
  }

  function AllNeeds<E>(rules: Rules<E>, body: seq<E>): set<Name> {
    if body == [] then {} else rules.needs(body[0]) + AllNeeds(rules, body[1..])
  }

  function Lacking(st: Progress, i: nat): set<Name> {
    if i in st.unsafe then st.unsafe[i] else {}
  }

  function Start<E>(rules: Rules<E>, globals: set<Name>, body: seq<E>): Progress {
    Progress([], AllNeeds(rules, body) * globals,
             map i: nat | i < |body| && rules.needs(body[i]) - globals != {} :: rules.needs(body[i]) - globals)
  }

  /**
    Whether the reordered body seems to contain the expression at `i`. Expressions are compared together
    with their index, which appending overwrites: a placed expression finds itself, and one not placed
    yet also finds a twin that happens to have been placed at position `i`.
   */
  predicate Contains<E(==)>(body: seq<E>, reordered: seq<nat>, i: nat)
    requires i < |body|
  {
    i in reordered || (i < |reordered| && reordered[i] < |body| && body[reordered[i]] == body[i])
  }

  ghost function Visit<E(!new)>(rules: Rules<E>, body: seq<E>, i: nat, st: Progress): Progress
    requires i < |body|
  {
    if Contains(body, st.reordered, i) then st
    else
      var ovs := rules.outputs(st.safe, body[i]);
      var rest := Lacking(st, i) - ovs - st.safe;
      if rest == {} then Progress(st.reordered + [i], st.safe + ovs, st.unsafe - {i})
      else Progress(st.reordered, st.safe, st.unsafe[i := rest])
  }

  ghost function VisitFrom<E(!new)>(rules: Rules<E>, body: seq<E>, i: nat, st: Progress): Progress
    requires i <= |body|
    decreases |body| - i
  {
    if i == |body| then st else VisitFrom(rules, body, i + 1, Visit(rules, body, i, st))
  }

  ghost predicate Positions<E(!new)>(body: seq<E>, order: seq<nat>) {
    && (forall k | 0 <= k < |order| :: order[k] < |body|)
    && (forall j, k | 0 <= j < k < |order| :: order[j] != order[k])
  }

  ghost function Run<E(!new)>(rules: Rules<E>, body: seq<E>, st: Progress): Progress
    requires Positions(body, st.reordered)
    decreases |body| - |st.reordered|
  {
    var st' := VisitFrom(rules, body, 0, st);
    VisitFromPositions(rules, body, 0, st);
    if |st'.reordered| == |st.reordered| then st'
    else
      PositionsBounded(body, st'.reordered);
      Run(rules, body, st')
  }

  /** What reordering computes. */
  ghost function Reorder<E(!new)>(rules: Rules<E>, globals: set<Name>, body: seq<E>): Progress {
    Run(rules, body, Start(rules, globals, body))
  }

  lemma {:induction false} PositionsBounded<E(!new)>(body: seq<E>, order: seq<nat>)
    requires Positions(body, order)
    ensures |order| <= |body|
  {
    ElementsSize(order);
    Below(|body|);
    assert Elements(order) <= Under(|body|);
    assert |Under(|body|) - Elements(order)| == |Under(|body|)| - |Elements(order)|;
  }

  function Elements(order: seq<nat>): set<nat> {
    set x | x in order
  }

  function Under(n: nat): set<nat> {
    if n == 0 then {} else Under(n - 1) + {n - 1}
  }

  lemma {:induction false} Below(n: nat)
    ensures |Under(n)| == n && forall k: nat :: k in Under(n) <==> k < n
  {
    if n > 0 {
      Below(n - 1);
      assert n - 1 !in Under(n - 1);
    }
  }

  lemma {:induction false} ElementsSize(order: seq<nat>)
    requires forall j, k | 0 <= j < k < |order| :: order[j] != order[k]
    ensures |Elements(order)| == |order|
  {
    if order == [] {
      assert Elements(order) == {};
    } else {
      var n := |order| - 1;
      ElementsSize(order[..n]);
      assert Elements(order) == Elements(order[..n]) + {order[n]};
    }
  }

  lemma {:induction false} VisitPositions<E(!new)>(rules: Rules<E>, body: seq<E>, i: nat, st: Progress)
    requires i < |body| && Positions(body, st.reordered)
    ensures Positions(body, Visit(rules, body, i, st).reordered)
    ensures st.reordered <= Visit(rules, body, i, st).reordered
  {
  }

  lemma {:induction false} VisitFromPositions<E(!new)>(rules: Rules<E>, body: seq<E>, i: nat, st: Progress)
    requires i <= |body| && Positions(body, st.reordered)
    ensures Positions(body, VisitFrom(rules, body, i, st).reordered)
    ensures st.reordered <= VisitFrom(rules, body, i, st).reordered
    decreases |body| - i
  {
    if i < |body| {
      VisitPositions(rules, body, i, st);
      VisitFromPositions(rules, body, i + 1, Visit(rules, body, i, st));
    }
  }

  // What a safe order is.

  ghost function Picks<E(!new)>(body: seq<E>, order: seq<nat>): seq<E>
    requires forall k | 0 <= k < |order| :: order[k] < |body|
  {
    seq(|order|, k requires 0 <= k < |order| => body[order[k]])
  }

  ghost function SafeAfter<E(!new)>(rules: Rules<E>, safe: set<Name>, es: seq<E>): set<Name> {
    if es == [] then safe
    else
      var before := SafeAfter(rules, safe, es[..|es| - 1]);
      before + rules.outputs(before, es[|es| - 1])
  }

  /** Every variable of every expression is known beforehand, or bound by it or by an earlier one. */
  ghost predicate SafeOrder<E(!new)>(rules: Rules<E>, safe: set<Name>, es: seq<E>) {
    es == [] || (SafeOrder(rules, safe, es[..|es| - 1]) && rules.needs(es[|es| - 1]) <= SafeAfter(rules, safe, es))
  }

  ghost predicate IsPermutation<E(!new)>(body: seq<E>, order: seq<nat>) {
    Positions(body, order) && forall i: nat | i < |body| :: i in order
  }

  // The invariant of the passes.

  ghost predicate Sound<E(!new)>(rules: Rules<E>, safe0: set<Name>, body: seq<E>, st: Progress) {
    && Positions(body, st.reordered)
    && st.safe == SafeAfter(rules, safe0, Picks(body, st.reordered))
    && SafeOrder(rules, safe0, Picks(body, st.reordered))
  }

  ghost predicate Accounted<E(!new)>(rules: Rules<E>, body: seq<E>, st: Progress) {
    && (forall i | i in st.unsafe :: i < |body| && i !in st.reordered && st.unsafe[i] != {} && st.unsafe[i] <= rules.needs(body[i]))
    && (forall i | 0 <= i < |body| && i !in st.reordered ::
          rules.needs(body[i]) <= Lacking(st, i) + st.safe + rules.outputs(st.safe, body[i]))
    && (forall i | i in st.reordered :: i < |body| && rules.needs(body[i]) <= st.safe)
  }

  /** Of the first `n` expressions, each is placed or has something recorded that it lacks. */
  ghost predicate Seen(st: Progress, n: nat) {
    forall i | 0 <= i < n :: i in st.reordered || i in st.unsafe
  }

  lemma {:induction false} StartInvariant<E(!new)>(rules: Rules<E>, globals: set<Name>, body: seq<E>)
    ensures Sound(rules, Start(rules, globals, body).safe, body, Start(rules, globals, body))
    ensures Accounted(rules, body, Start(rules, globals, body))
  {
    var st := Start(rules, globals, body);
    forall i | 0 <= i < |body| ensures rules.needs(body[i]) <= Lacking(st, i) + st.safe {
      NeedsInBody(rules, body, i);
    }
  }

  lemma {:induction false} NeedsInBody<E(!new)>(rules: Rules<E>, body: seq<E>, i: nat)
    requires i < |body|
    ensures rules.needs(body[i]) <= AllNeeds(rules, body)
  {
    if i > 0 { NeedsInBody(rules, body[1..], i - 1); }
  }

  lemma {:induction false} VisitSound<E(!new)>(rules: Rules<E>, safe0: set<Name>, body: seq<E>, i: nat, st: Progress)
    requires i < |body| && Sound(rules, safe0, body, st) && Accounted(rules, body, st)
    ensures Sound(rules, safe0, body, Visit(rules, body, i, st))
  {
    var st' := Visit(rules, body, i, st);
    if st'.reordered != st.reordered {
      var es, es' := Picks(body, st.reordered), Picks(body, st'.reordered);
      assert es' == es + [body[i]] && es'[..|es'| - 1] == es;
      PlacedNeeds(rules, body, i, st);
    }
  }

  lemma {:induction false} PlacedNeeds<E(!new)>(rules: Rules<E>, body: seq<E>, i: nat, st: Progress)
    requires i < |body| && i !in st.reordered && Accounted(rules, body, st)
    requires Lacking(st, i) - rules.outputs(st.safe, body[i]) - st.safe == {}
    ensures rules.needs(body[i]) <= st.safe + rules.outputs(st.safe, body[i])
  {
    forall v | v in Lacking(st, i) ensures v in st.safe + rules.outputs(st.safe, body[i]) {
      assert v !in Lacking(st, i) - rules.outputs(st.safe, body[i]) - st.safe;
    }
  }

  lemma {:induction false} VisitAccounted<E(!new)>(rules: Rules<E>, body: seq<E>, i: nat, st: Progress)
    requires Monotone(rules)
    requires i < |body| && Accounted(rules, body, st)
    ensures Accounted(rules, body, Visit(rules, body, i, st))
  {
    var st' := Visit(rules, body, i, st);
    if !Contains(body, st.reordered, i) {
      assert rules.needs(body[i]) <= Lacking(st', i) + st.safe + rules.outputs(st.safe, body[i]);
    }
    forall j | 0 <= j < |body| && j !in st'.reordered
      ensures rules.needs(body[j]) <= Lacking(st', j) + st'.safe + rules.outputs(st'.safe, body[j])
    {
      OutputsGrow(rules, st.safe, st'.safe, body[j]);
    }
  }

  lemma {:induction false} VisitSeen<E(!new)>(rules: Rules<E>, body: seq<E>, i: nat, n: nat, st: Progress)
    requires i < |body| && Accounted(rules, body, st) && Seen(st, n)
    requires n == |body| || (n == i && |st.reordered| <= i)
    ensures Seen(Visit(rules, body, i, st), if n == |body| then n else n + 1)
  {
  }

  ghost predicate Invariant<E(!new)>(rules: Rules<E>, safe0: set<Name>, body: seq<E>, st: Progress, n: nat) {
    Sound(rules, safe0, body, st) && Accounted(rules, body, st) && Seen(st, n)
  }

  lemma {:induction false} VisitInvariant<E(!new)>(rules: Rules<E>, safe0: set<Name>, body: seq<E>, i: nat, n: nat, st: Progress)
    requires Monotone(rules)
    requires i < |body| && Invariant(rules, safe0, body, st, n)
    requires n == |body| || (n == i && |st.reordered| <= i)
    ensures Invariant(rules, safe0, body, Visit(rules, body, i, st), if n == |body| then n else n + 1)
    ensures |Visit(rules, body, i, st).reordered| <= |st.reordered| + 1
  {
    VisitSound(rules, safe0, body, i, st);
    VisitAccounted(rules, body, i, st);
    VisitSeen(rules, body, i, n, st);
  }

  lemma {:induction false} VisitFromInvariant<E(!new)>(rules: Rules<E>, safe0: set<Name>, body: seq<E>, i: nat, n: nat, st: Progress)
    requires Monotone(rules)
    requires i <= |body| && Invariant(rules, safe0, body, st, n)
    requires n == |body| || (n == i && |st.reordered| <= i)
    ensures Invariant(rules, safe0, body, VisitFrom(rules, body, i, st), |body|)
    decreases |body| - i
  {
    if i < |body| {
      VisitInvariant(rules, safe0, body, i, n, st);
      VisitFromInvariant(rules, safe0, body, i + 1, if n == |body| then n else n + 1, Visit(rules, body, i, st));
    }
  }

  /** A pass that places nothing leaves only expressions that lack something, or are taken for placed. */
  ghost predicate Stuck<E(!new)>(rules: Rules<E>, body: seq<E>, st: Progress, from: nat) {
    forall i | from <= i < |body| ::
      Contains(body, st.reordered, i) || !(rules.needs(body[i]) <= st.safe + rules.outputs(st.safe, body[i]))
  }

  lemma {:induction false} VisitStuck<E(!new)>(rules: Rules<E>, body: seq<E>, i: nat, st: Progress)
    requires i < |body| && Accounted(rules, body, st)
    requires |Visit(rules, body, i, st).reordered| == |st.reordered|
    ensures var st' := Visit(rules, body, i, st); st'.reordered == st.reordered && st'.safe == st.safe
    ensures Contains(body, st.reordered, i) || !(rules.needs(body[i]) <= st.safe + rules.outputs(st.safe, body[i]))
  {
    if !Contains(body, st.reordered, i) {
      var rest := Lacking(st, i) - rules.outputs(st.safe, body[i]) - st.safe;
      assert rest != {};
      var v :| v in rest;
      assert v in rules.needs(body[i]);
    }
  }

  lemma {:induction false} PassStuck<E(!new)>(rules: Rules<E>, body: seq<E>, i: nat, st: Progress, st': Progress)
    requires Monotone(rules)
    requires i <= |body| && Positions(body, st.reordered) && Accounted(rules, body, st)
    requires st' == VisitFrom(rules, body, i, st) && |st'.reordered| == |st.reordered|
    ensures st'.reordered == st.reordered && st'.safe == st.safe
    ensures Stuck(rules, body, st, i)
    decreases |body| - i
  {
    if i < |body| {
      var next := Visit(rules, body, i, st);
      VisitPositions(rules, body, i, st);
      VisitFromPositions(rules, body, i + 1, next);
      VisitAccounted(rules, body, i, st);
      VisitStuck(rules, body, i, st);
      PassStuck(rules, body, i + 1, next, st');
      StuckBefore(rules, body, i, st, next);
    }
  }

  lemma {:induction false} StuckBefore<E(!new)>(rules: Rules<E>, body: seq<E>, i: nat, st: Progress, next: Progress)
    requires i < |body| && Stuck(rules, body, next, i + 1)
    requires next.reordered == st.reordered && next.safe == st.safe
    requires Contains(body, st.reordered, i) || !(rules.needs(body[i]) <= st.safe + rules.outputs(st.safe, body[i]))
    ensures Stuck(rules, body, st, i)
  {
  }

  lemma {:induction false} RunInvariant<E(!new)>(rules: Rules<E>, safe0: set<Name>, body: seq<E>, st: Progress, n: nat)
    requires Monotone(rules)
    requires Sound(rules, safe0, body, st) && Accounted(rules, body, st) && Seen(st, n)
    requires n == |body| || (n == 0 && st.reordered == [])
    ensures var end := Run(rules, body, st);
            && Sound(rules, safe0, body, end) && Accounted(rules, body, end)
            && Seen(end, |body|) && Stuck(rules, body, end, 0)
    decreases |body| - |st.reordered|
  {
    var st' := VisitFrom(rules, body, 0, st);
    VisitFromPositions(rules, body, 0, st);
    VisitFromInvariant(rules, safe0, body, 0, n, st);
    if |st'.reordered| == |st.reordered| {
      PassStuck(rules, body, 0, st, st');
    } else {
      PositionsBounded(body, st'.reordered);
      RunInvariant(rules, safe0, body, st', |body|);
    }
  }

  lemma {:induction false} ReorderInvariant<E(!new)>(rules: Rules<E>, globals: set<Name>, body: seq<E>)
    requires Monotone(rules)
    ensures var end := Reorder(rules, globals, body);
            && Sound(rules, Start(rules, globals, body).safe, body, end) && Accounted(rules, body, end)
            && Seen(end, |body|) && Stuck(rules, body, end, 0)
  {
    StartInvariant(rules, globals, body);
    RunInvariant(rules, Start(rules, globals, body).safe, body, Start(rules, globals, body), 0);
  }

  /** When nothing is reported unsafe, the result is the whole body in a safe order. */
  lemma {:induction false} ReorderSound<E(!new)>(rules: Rules<E>, globals: set<Name>, body: seq<E>)
    requires Monotone(rules)
    requires Reorder(rules, globals, body).unsafe == map[]
    ensures var order := Reorder(rules, globals, body).reordered;
            IsPermutation(body, order) && SafeOrder(rules, Start(rules, globals, body).safe, Picks(body, order))
  {
    ReorderInvariant(rules, globals, body);
  }

  ghost predicate NoTwins<E(!new)>(body: seq<E>) {
    forall i, j | 0 <= i < j < |body| :: body[i] != body[j]
  }

  /** In a stuck state an expression whose variables are within reach has been placed. */
  lemma {:induction false} ReachIsPlaced<E(!new)>(rules: Rules<E>, body: seq<E>, st: Progress, before: set<Name>, i: nat)
    requires i < |body| && Monotone(rules) && Bounded(rules, body) && NoTwins(body)
    requires Positions(body, st.reordered) && Accounted(rules, body, st) && Stuck(rules, body, st, 0)
    requires before <= st.safe && rules.needs(body[i]) <= before + rules.outputs(before, body[i])
    ensures i in st.reordered && before + rules.outputs(before, body[i]) <= st.safe
  {
    OutputsGrow(rules, before, st.safe, body[i]);
    assert rules.needs(body[i]) <= st.safe + rules.outputs(st.safe, body[i]);
    assert Contains(body, st.reordered, i);
    assert rules.outputs(before, body[i]) <= rules.needs(body[i]) + before;
  }

  /** A stuck state has placed everything that some safe order places, step by step. */
  lemma {:induction false} SafeOrderPlaced<E(!new)>(rules: Rules<E>, safe0: set<Name>, body: seq<E>, st: Progress, order: seq<nat>)
    requires Monotone(rules) && Bounded(rules, body) && NoTwins(body) && Positions(body, order)
    requires Positions(body, st.reordered) && Accounted(rules, body, st) && Stuck(rules, body, st, 0)
    requires SafeOrder(rules, safe0, Picks(body, order))
    requires safe0 <= st.safe
    ensures forall k | 0 <= k < |order| :: order[k] in st.reordered
    ensures SafeAfter(rules, safe0, Picks(body, order)) <= st.safe
  {
    if order != [] {
      var n := |order| - 1;
      var es := Picks(body, order);
      assert es[..n] == Picks(body, order[..n]);
      SafeOrderPlaced(rules, safe0, body, st, order[..n]);
      ReachIsPlaced(rules, body, st, SafeAfter(rules, safe0, es[..n]), order[n]);
      forall k | 0 <= k < |order| ensures order[k] in st.reordered {
        if k < n { assert order[..n][k] in st.reordered; }
      }
    }
  }

  lemma {:induction false} SafeGrows<E(!new)>(rules: Rules<E>, safe: set<Name>, es: seq<E>)
    ensures safe <= SafeAfter(rules, safe, es)
  {
    if es != [] { SafeGrows(rules, safe, es[..|es| - 1]); }
  }

  /** If some order of a closure-free body without twins is safe, a safe order is found. */
  lemma {:induction false} ReorderComplete<E(!new)>(rules: Rules<E>, globals: set<Name>, body: seq<E>, order: seq<nat>)
    requires Monotone(rules) && Bounded(rules, body) && NoTwins(body)
    requires IsPermutation(body, order) && SafeOrder(rules, Start(rules, globals, body).safe, Picks(body, order))
    ensures Reorder(rules, globals, body).unsafe == map[]
  {
    var end, safe0 := Reorder(rules, globals, body), Start(rules, globals, body).safe;
    ReorderInvariant(rules, globals, body);
    SafeGrows(rules, safe0, Picks(body, end.reordered));
    SafeOrderPlaced(rules, safe0, body, end, order);
    forall i | 0 <= i < |body| ensures i in end.reordered {
      assert i in order;
      var k :| 0 <= k < |order| && order[k] == i;
      assert order[k] in end.reordered;
    }
    assert end.unsafe.Keys == {};
  }

  /** The reported unsafe variables vanish exactly for the bodies that have a safe order. */
  lemma {:induction false} ReorderExact<E(!new)>(rules: Rules<E>, globals: set<Name>, body: seq<E>)
    requires Monotone(rules) && Bounded(rules, body) && NoTwins(body)
    ensures Reorder(rules, globals, body).unsafe == map[] <==>
            exists order :: IsPermutation(body, order) && SafeOrder(rules, Start(rules, globals, body).safe, Picks(body, order))
  {
    if Reorder(rules, globals, body).unsafe == map[] {
      ReorderSound(rules, globals, body);
    }
    if order :| IsPermutation(body, order) && SafeOrder(rules, Start(rules, globals, body).safe, Picks(body, order)) {
      ReorderComplete(rules, globals, body, order);
    }
  }

  ghost function Identity(n: nat): seq<nat> {
    seq(n, k => k)
  }

  /** One pass over a body that is already safe places each expression where it was. */
  lemma {:induction false} PassKeepsOrder<E(!new)>(rules: Rules<E>, safe0: set<Name>, body: seq<E>, i: nat, st: Progress)
    requires Monotone(rules)
    requires i <= |body| && st.reordered == Identity(i) && Accounted(rules, body, st)
    requires st.safe == SafeAfter(rules, safe0, body[..i])
    requires forall k | 0 <= k <= |body| :: SafeOrder(rules, safe0, body[..k])
    ensures VisitFrom(rules, body, i, st).reordered == Identity(|body|)
    decreases |body| - i
  {
    if i < |body| {
      VisitPlaces(rules, safe0, body, i, st);
      VisitAccounted(rules, body, i, st);
      PassKeepsOrder(rules, safe0, body, i + 1, Visit(rules, body, i, st));
    }
  }

  lemma {:induction false} VisitPlaces<E(!new)>(rules: Rules<E>, safe0: set<Name>, body: seq<E>, i: nat, st: Progress)
    requires i < |body| && st.reordered == Identity(i) && Accounted(rules, body, st)
    requires st.safe == SafeAfter(rules, safe0, body[..i]) && SafeOrder(rules, safe0, body[..i + 1])
    ensures var st' := Visit(rules, body, i, st);
            st'.reordered == Identity(i + 1) && st'.safe == SafeAfter(rules, safe0, body[..i + 1])
  {
    assert body[..i + 1][..i] == body[..i];
    assert rules.needs(body[i]) <= st.safe + rules.outputs(st.safe, body[i]);
    assert Lacking(st, i) <= rules.needs(body[i]);
    assert !Contains(body, st.reordered, i);
    assert Identity(i + 1) == Identity(i) + [i];
  }

  lemma {:induction false} SafeOrderPrefix<E(!new)>(rules: Rules<E>, safe: set<Name>, es: seq<E>, k: nat)
    requires k <= |es| && SafeOrder(rules, safe, es)
    ensures SafeOrder(rules, safe, es[..k])
  {
    if k == |es| {
      assert es[..k] == es;
    } else {
      SafeOrderPrefix(rules, safe, es[..|es| - 1], k);
      assert es[..|es| - 1][..k] == es[..k];
    }
  }

  lemma {:induction false} AllPlacedIsFinal<E(!new)>(rules: Rules<E>, body: seq<E>, i: nat, st: Progress)
    requires i <= |body| && forall j | 0 <= j < |body| :: j in st.reordered
    ensures VisitFrom(rules, body, i, st) == st
    decreases |body| - i
  {
    if i < |body| { AllPlacedIsFinal(rules, body, i + 1, st); }
  }

  lemma {:induction false} RunOnePass<E(!new)>(rules: Rules<E>, body: seq<E>, st: Progress)
    requires Positions(body, st.reordered) && st.reordered == []
    requires VisitFrom(rules, body, 0, st).reordered == Identity(|body|)
    ensures Run(rules, body, st) == VisitFrom(rules, body, 0, st)
  {
    var st1 := VisitFrom(rules, body, 0, st);
    VisitFromPositions(rules, body, 0, st);
    forall j | 0 <= j < |body| ensures j in st1.reordered {
      assert st1.reordered[j] == j;
    }
    AllPlacedIsFinal(rules, body, 0, st1);
    if |body| > 0 { assert Run(rules, body, st1) == st1; }
  }

  /** A body that is already safe comes back unchanged, twins or not. */
  lemma {:induction false} ReorderMinimal<E(!new)>(rules: Rules<E>, globals: set<Name>, body: seq<E>)
    requires Monotone(rules)
    requires SafeOrder(rules, Start(rules, globals, body).safe, body)
    ensures Reorder(rules, globals, body).reordered == Identity(|body|)
    ensures Picks(body, Identity(|body|)) == body
    ensures Reorder(rules, globals, body).unsafe == map[]
  {
    var st, safe0 := Start(rules, globals, body), Start(rules, globals, body).safe;
    StartInvariant(rules, globals, body);
    forall k | 0 <= k <= |body| ensures SafeOrder(rules, safe0, body[..k]) {
      SafeOrderPrefix(rules, safe0, body, k);
    }
    PassKeepsOrder(rules, safe0, body, 0, st);
    RunOnePass(rules, body, st);
    NothingLacking(rules, globals, body);
  }

  lemma {:induction false} NothingLacking<E(!new)>(rules: Rules<E>, globals: set<Name>, body: seq<E>)
    requires Monotone(rules)
    requires Reorder(rules, globals, body).reordered == Identity(|body|)
    ensures Reorder(rules, globals, body).unsafe == map[]
  {
    var end := Reorder(rules, globals, body);
    ReorderInvariant(rules, globals, body);
    forall i | 0 <= i < |body| ensures i in end.reordered {
      assert Identity(|body|)[i] == i;
    }
    assert end.unsafe.Keys == {};
  }

  // Twins: an expression equal to one already placed at its own index is skipped for good.

  /** `a` uses x and y and binds nothing; `b` binds x; `c` binds y. */
  ghost predicate TwinScene<E(!new)>(rules: Rules<E>, a: E, b: E, c: E, x: Name, y: Name) {
    && x != y && a != b && a != c && b != c
    && rules.needs(a) == {x, y} && rules.needs(b) == {x} && rules.needs(c) == {y}
    && forall safe | safe <= {x, y} ::
         rules.outputs(safe, a) == {} && rules.outputs(safe, b) == {x} && rules.outputs(safe, c) == {y}
  }

  lemma {:induction false} NotPlaced<E(!new)>(rules: Rules<E>, body: seq<E>, i: nat, st: Progress, v: Name)
    requires i < |body| && !Contains(body, st.reordered, i)
    requires v in Lacking(st, i) && v !in st.safe && v !in rules.outputs(st.safe, body[i])
    ensures var st' := Visit(rules, body, i, st);
            && st'.reordered == st.reordered && st'.safe == st.safe
            && v in Lacking(st', i) && Lacking(st', i) <= Lacking(st, i) && forall j: nat | j != i :: Lacking(st', j) == Lacking(st, j)
  {
    assert v in Lacking(st, i) - rules.outputs(st.safe, body[i]) - st.safe;
  }

  lemma {:induction false} NowPlaced<E(!new)>(rules: Rules<E>, body: seq<E>, i: nat, st: Progress)
    requires i < |body| && !Contains(body, st.reordered, i)
    requires Lacking(st, i) <= st.safe + rules.outputs(st.safe, body[i])
    ensures var st' := Visit(rules, body, i, st);
            && st'.reordered == st.reordered + [i] && st'.safe == st.safe + rules.outputs(st.safe, body[i])
            && forall j: nat | j != i :: Lacking(st', j) == Lacking(st, j)
  {
  }

  lemma {:induction false} TwinsStart<E(!new)>(rules: Rules<E>, body: seq<E>)
    ensures var st := Start(rules, {}, body);
            st.reordered == [] && st.safe == {} && forall i: nat | i < |body| :: Lacking(st, i) == rules.needs(body[i])
  {
  }

  lemma {:induction false} TwinsFirstHalf<E(!new)>(rules: Rules<E>, a: E, b: E, c: E, x: Name, y: Name, st: Progress)
    requires TwinScene(rules, a, b, c, x, y) && st.reordered == [] && st.safe == {}
    requires Lacking(st, 0) == Lacking(st, 2) == {x, y} && Lacking(st, 1) == {x} && Lacking(st, 3) == {y}
    ensures var st' := Visit(rules, [a, b, a, c], 1, Visit(rules, [a, b, a, c], 0, st));
            && st'.reordered == [1] && st'.safe == {x}
            && Lacking(st', 0) <= {x, y} && Lacking(st', 2) == {x, y} && Lacking(st', 3) == {y}
  {
    var body := [a, b, a, c];
    NotPlaced(rules, body, 0, st, x);
    NowPlaced(rules, body, 1, Visit(rules, body, 0, st));
  }

  lemma {:induction false} TwinsSecondHalf<E(!new)>(rules: Rules<E>, a: E, b: E, c: E, x: Name, y: Name, st: Progress)
    requires TwinScene(rules, a, b, c, x, y)
    requires st.reordered == [1] && st.safe == {x}
    requires Lacking(st, 0) <= {x, y} && Lacking(st, 2) == {x, y} && Lacking(st, 3) == {y}
    ensures var st' := Visit(rules, [a, b, a, c], 3, Visit(rules, [a, b, a, c], 2, st));
            st'.reordered == [1, 3] && st'.safe == {x, y} && Lacking(st', 0) <= {x, y}
  {
    var body := [a, b, a, c];
    NotPlaced(rules, body, 2, st, y);
    NowPlaced(rules, body, 3, Visit(rules, body, 2, st));
  }

  lemma {:induction false} FourVisits<E(!new)>(rules: Rules<E>, body: seq<E>, st: Progress)
    requires |body| == 4
    ensures var st2 := Visit(rules, body, 1, Visit(rules, body, 0, st));
            VisitFrom(rules, body, 0, st) == Visit(rules, body, 3, Visit(rules, body, 2, st2))
  {
    var st2 := Visit(rules, body, 1, Visit(rules, body, 0, st));
    var st4 := Visit(rules, body, 3, Visit(rules, body, 2, st2));
    assert VisitFrom(rules, body, 3, Visit(rules, body, 2, st2)) == VisitFrom(rules, body, 4, st4);
    assert VisitFrom(rules, body, 1, Visit(rules, body, 0, st)) == VisitFrom(rules, body, 2, st2);
  }

  lemma {:induction false} TwinsFirstPass<E(!new)>(rules: Rules<E>, a: E, b: E, c: E, x: Name, y: Name)
    requires TwinScene(rules, a, b, c, x, y)
    ensures var st := VisitFrom(rules, [a, b, a, c], 0, Start(rules, {}, [a, b, a, c]));
            st.reordered == [1, 3] && st.safe == {x, y} && Lacking(st, 0) <= {x, y}
  {
    var body := [a, b, a, c];
    var st := Start(rules, {}, body);
    TwinsStart(rules, body);
    TwinsFirstHalf(rules, a, b, c, x, y, st);
    TwinsSecondHalf(rules, a, b, c, x, y, Visit(rules, body, 1, Visit(rules, body, 0, st)));
    FourVisits(rules, body, st);
  }

  lemma {:induction false} TwinsSettled<E(!new)>(rules: Rules<E>, body: seq<E>, st: Progress, i: nat)
    requires |body| == 4 && body[0] == body[2] && st.reordered == [1, 3, 0] && i <= 4
    ensures VisitFrom(rules, body, i, st) == st
    decreases 4 - i
  {
    if i < 4 {
      assert st.reordered[2] == 0;
      TwinsSettled(rules, body, st, i + 1);
    }
  }

  lemma {:induction false} RunStops<E(!new)>(rules: Rules<E>, body: seq<E>, st: Progress)
    requires Positions(body, st.reordered) && VisitFrom(rules, body, 0, st) == st
    ensures Run(rules, body, st) == st
  {
  }

  lemma {:induction false} RunGoesOn<E(!new)>(rules: Rules<E>, body: seq<E>, st: Progress, st': Progress)
    requires Positions(body, st.reordered) && Positions(body, st'.reordered)
    requires VisitFrom(rules, body, 0, st) == st' && |st.reordered| != |st'.reordered|
    ensures Run(rules, body, st) == Run(rules, body, st')
  {
  }

  lemma {:induction false} TwinsSecondPass<E(!new)>(rules: Rules<E>, body: seq<E>, st: Progress)
    requires |body| == 4 && body[0] == body[2] && st.reordered == [1, 3] && body[0] != body[1]
    requires Lacking(st, 0) <= st.safe
    ensures Run(rules, body, st).reordered == [1, 3, 0]
  {
    NowPlaced(rules, body, 0, st);
    var st2 := Visit(rules, body, 0, st);
    TwinsSettled(rules, body, st2, 1);
    TwinsSettled(rules, body, st2, 0);
    RunStops(rules, body, st2);
    RunGoesOn(rules, body, st, st2);
  }

  lemma {:induction false} TwinsRun<E(!new)>(rules: Rules<E>, body: seq<E>, st: Progress)
    requires |body| == 4 && body[0] == body[2] && body[0] != body[1] && st.reordered == []
    requires var st1 := VisitFrom(rules, body, 0, st); st1.reordered == [1, 3] && Lacking(st1, 0) <= st1.safe
    ensures Run(rules, body, st).reordered == [1, 3, 0]
  {
    var st1 := VisitFrom(rules, body, 0, st);
    TwinsSecondPass(rules, body, st1);
    RunGoesOn(rules, body, st, st1);
  }

  /** The second copy of `a` is never placed, and is reported unsafe. */
  lemma {:induction false} TwinsReported<E(!new)>(rules: Rules<E>, a: E, b: E, c: E, x: Name, y: Name)
    requires Monotone(rules)
    requires TwinScene(rules, a, b, c, x, y)
    ensures var r := Reorder(rules, {}, [a, b, a, c]); r.reordered == [1, 3, 0] && 2 in r.unsafe
  {
    var body := [a, b, a, c];
    TwinsFirstPass(rules, a, b, c, x, y);
    TwinsRun(rules, body, Start(rules, {}, body));
    LeftOutIsReported(rules, {}, body, 2);
  }

  lemma {:induction false} LeftOutIsReported<E(!new)>(rules: Rules<E>, globals: set<Name>, body: seq<E>, i: nat)
    requires Monotone(rules)
    requires i < |body| && i !in Reorder(rules, globals, body).reordered
    ensures i in Reorder(rules, globals, body).unsafe
  {
    ReorderInvariant(rules, globals, body);
  }

  /** Yet the body can be ordered safely: b, c, and both copies of a. */
  lemma {:induction false} TwinsSafeOrder<E(!new)>(rules: Rules<E>, a: E, b: E, c: E, x: Name, y: Name)
    requires TwinScene(rules, a, b, c, x, y)
    ensures multiset([b, c, a, a]) == multiset([a, b, a, c])
    ensures SafeOrder(rules, {}, [b, c, a, a])
  {
    var es := [b, c, a, a];
    assert es[..3] == [b, c, a] && [b, c, a][..2] == [b, c] && [b, c][..1] == [b] && [b][..0] == [];
    assert SafeAfter(rules, {}, [b]) == {x};
    assert SafeAfter(rules, {}, [b, c]) == {x, y};
    assert SafeAfter(rules, {}, [b, c, a]) == {x, y};
    assert SafeAfter(rules, {}, es) == {x, y};
    assert SafeOrder(rules, {}, [b, c]);
  }
}
