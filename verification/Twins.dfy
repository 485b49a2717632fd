/** When reordering succeeds although a body contains equal expressions. */
module Twins {
  import opened Syntax
  import opened Reordering

  // Expressions told apart by their positions.

  function Tag<E>(body: seq<E>): (r: seq<(nat, E)>)
    ensures |r| == |body| && forall i | 0 <= i < |body| :: r[i] == (i, body[i])
  {
    seq(|body|, i requires 0 <= i < |body| => (i, body[i]))
  }

  ghost function TagRules<E(!new)>(rules: Rules<E>): Rules<(nat, E)> {
    Rules((p: (nat, E)) => rules.needs(p.1), (s: set<Name>, p: (nat, E)) => rules.outputs(s, p.1))
  }

  /** The order that the passes find when they skip just the expressions they have placed. */
  ghost function Reference<E(!new)>(rules: Rules<E>, globals: set<Name>, body: seq<E>): Progress {
    Reorder(TagRules(rules), globals, Tag(body))
  }

  /** No expression is placed after its own index already holds an equal one. */
  ghost predicate Undisturbed<E(!new)>(body: seq<E>, order: seq<nat>) {
    forall k | 0 <= k < |order| && order[k] < k :: !Twin(body, order[order[k]], order[k])
  }

  ghost predicate Twin<E(!new)>(body: seq<E>, i: nat, j: nat) {
    i < |body| && j < |body| && body[i] == body[j]
  }

  lemma {:induction false} TagNeeds<E(!new)>(rules: Rules<E>, body: seq<E>, tagged: seq<(nat, E)>)
    requires |tagged| == |body| && forall i | 0 <= i < |body| :: tagged[i].1 == body[i]
    ensures AllNeeds(TagRules(rules), tagged) == AllNeeds(rules, body)
    decreases |body|
  {
    if body != [] { TagNeeds(rules, body[1..], tagged[1..]); }
  }

  lemma {:induction false} TagStart<E(!new)>(rules: Rules<E>, globals: set<Name>, body: seq<E>)
    ensures Start(TagRules(rules), globals, Tag(body)) == Start(rules, globals, body)
  {
    TagNeeds(rules, body, Tag(body));
    var s, s' := Start(rules, globals, body), Start(TagRules(rules), globals, Tag(body));
    assert s.unsafe == s'.unsafe;
  }

  lemma {:induction false} TagSafeAfter<E(!new)>(rules: Rules<E>, safe: set<Name>, es: seq<E>, tagged: seq<(nat, E)>)
    requires |tagged| == |es| && forall i | 0 <= i < |es| :: tagged[i].1 == es[i]
    ensures SafeAfter(TagRules(rules), safe, tagged) == SafeAfter(rules, safe, es)
    ensures SafeOrder(TagRules(rules), safe, tagged) <==> SafeOrder(rules, safe, es)
    decreases |es|
  {
    if es != [] { TagSafeAfter(rules, safe, es[..|es| - 1], tagged[..|es| - 1]); }
  }

  lemma {:induction false} TagPositions<E(!new)>(body: seq<E>, order: seq<nat>)
    ensures Positions(Tag(body), order) <==> Positions(body, order)
    ensures IsPermutation(Tag(body), order) <==> IsPermutation(body, order)
  {
  }

  /** A safe order of the body is one of the tagged body. */
  lemma {:induction false} TagOrder<E(!new)>(rules: Rules<E>, globals: set<Name>, body: seq<E>, order: seq<nat>)
    requires IsPermutation(body, order)
    ensures IsPermutation(Tag(body), order)
    ensures SafeOrder(TagRules(rules), Start(TagRules(rules), globals, Tag(body)).safe, Picks(Tag(body), order)) <==>
            SafeOrder(rules, Start(rules, globals, body).safe, Picks(body, order))
  {
    TagPositions(body, order);
    TagStart(rules, globals, body);
    TagSafeAfter(rules, Start(rules, globals, body).safe, Picks(body, order), Picks(Tag(body), order));
  }

  lemma {:induction false} TagMonotone<E(!new)>(rules: Rules<E>, body: seq<E>)
    requires Monotone(rules) && Bounded(rules, body)
    ensures Monotone(TagRules(rules)) && Bounded(TagRules(rules), Tag(body)) && NoTwins(Tag(body))
  {
    var tagged := TagRules(rules);
    forall s, s', p | s <= s' ensures s + tagged.outputs(s, p) <= s' + tagged.outputs(s', p) {
      OutputsGrow(rules, s, s', p.1);
    }
  }

  // The runs coincide as long as nothing is disturbed.

  /** In an undisturbed run to the end, only what has been placed seems to be contained. */
  lemma {:induction false} ContainsPlaced<E(!new)>(body: seq<E>, reordered: seq<nat>, order: seq<nat>, i: nat)
    requires i < |body| && IsPermutation(body, order) && Undisturbed(body, order) && reordered <= order
    ensures Contains(body, reordered, i) <==> i in reordered
    ensures Contains(Tag(body), reordered, i) <==> i in reordered
  {
    if i !in reordered && i < |reordered| {
      assert i in order;
      var k :| 0 <= k < |order| && order[k] == i;
      assert k >= |reordered|;
      assert reordered[i] == order[i];
      assert !Twin(body, order[order[k]], order[k]);
    }
  }

  lemma {:induction false} VisitSame<E(!new)>(rules: Rules<E>, body: seq<E>, i: nat, st: Progress, order: seq<nat>)
    requires i < |body| && IsPermutation(body, order) && Undisturbed(body, order) && st.reordered <= order
    ensures Visit(TagRules(rules), Tag(body), i, st) == Visit(rules, body, i, st)
  {
    ContainsPlaced(body, st.reordered, order, i);
  }

  /** Either of the two passes stays within the order. */
  ghost predicate Towards<E(!new)>(rules: Rules<E>, body: seq<E>, i: nat, st: Progress, order: seq<nat>)
    requires i <= |body|
  {
    VisitFrom(rules, body, i, st).reordered <= order || VisitFrom(TagRules(rules), Tag(body), i, st).reordered <= order
  }

  lemma {:induction false} PassSame<E(!new)>(rules: Rules<E>, body: seq<E>, i: nat, st: Progress, order: seq<nat>)
    requires i <= |body| && IsPermutation(body, order) && Undisturbed(body, order)
    requires Positions(body, st.reordered) && Towards(rules, body, i, st, order)
    ensures VisitFrom(TagRules(rules), Tag(body), i, st) == VisitFrom(rules, body, i, st)
    ensures st.reordered <= VisitFrom(rules, body, i, st).reordered <= order
    decreases |body| - i
  {
    TagPositions(body, st.reordered);
    VisitFromPositions(rules, body, i, st);
    VisitFromPositions(TagRules(rules), Tag(body), i, st);
    if i < |body| {
      VisitSame(rules, body, i, st, order);
      VisitPositions(rules, body, i, st);
      PassSame(rules, body, i + 1, Visit(rules, body, i, st), order);
    }
  }

  lemma {:induction false} RunExtends<E(!new)>(rules: Rules<E>, body: seq<E>, st: Progress)
    requires Positions(body, st.reordered)
    ensures VisitFrom(rules, body, 0, st).reordered <= Run(rules, body, st).reordered
    decreases |body| - |st.reordered|
  {
    var st' := VisitFrom(rules, body, 0, st);
    VisitFromPositions(rules, body, 0, st);
    if |st'.reordered| != |st.reordered| {
      PositionsBounded(body, st'.reordered);
      RunExtends(rules, body, st');
      VisitFromPositions(rules, body, 0, st');
    }
  }

  lemma {:induction false} RunSame<E(!new)>(rules: Rules<E>, body: seq<E>, st: Progress, order: seq<nat>)
    requires IsPermutation(body, order) && Undisturbed(body, order) && Positions(body, st.reordered)
    requires Positions(Tag(body), st.reordered)
    requires Run(rules, body, st).reordered <= order || Run(TagRules(rules), Tag(body), st).reordered <= order
    ensures Run(TagRules(rules), Tag(body), st) == Run(rules, body, st)
    decreases |body| - |st.reordered|
  {
    RunExtends(rules, body, st);
    RunExtends(TagRules(rules), Tag(body), st);
    PassSame(rules, body, 0, st, order);
    var st' := VisitFrom(rules, body, 0, st);
    VisitFromPositions(rules, body, 0, st);
    if |st'.reordered| != |st.reordered| {
      PositionsBounded(body, st'.reordered);
      TagPositions(body, st'.reordered);
      RunSame(rules, body, st', order);
    }
  }

  // A pass disturbs nothing that it places.

  lemma {:induction false} VisitUndisturbed<E(!new)>(rules: Rules<E>, body: seq<E>, i: nat, st: Progress)
    requires i < |body| && Positions(body, st.reordered) && Undisturbed(body, st.reordered)
    ensures Undisturbed(body, Visit(rules, body, i, st).reordered)
  {
  }

  lemma {:induction false} PassUndisturbed<E(!new)>(rules: Rules<E>, body: seq<E>, i: nat, st: Progress)
    requires i <= |body| && Positions(body, st.reordered) && Undisturbed(body, st.reordered)
    ensures Undisturbed(body, VisitFrom(rules, body, i, st).reordered)
    decreases |body| - i
  {
    if i < |body| {
      VisitUndisturbed(rules, body, i, st);
      VisitPositions(rules, body, i, st);
      PassUndisturbed(rules, body, i + 1, Visit(rules, body, i, st));
    }
  }

  lemma {:induction false} RunUndisturbed<E(!new)>(rules: Rules<E>, body: seq<E>, st: Progress)
    requires Positions(body, st.reordered) && Undisturbed(body, st.reordered)
    ensures Undisturbed(body, Run(rules, body, st).reordered)
    decreases |body| - |st.reordered|
  {
    var st' := VisitFrom(rules, body, 0, st);
    VisitFromPositions(rules, body, 0, st);
    PassUndisturbed(rules, body, 0, st);
    if |st'.reordered| != |st.reordered| {
      PositionsBounded(body, st'.reordered);
      RunUndisturbed(rules, body, st');
    }
  }

  /**
    Nothing is reported exactly if some order is safe and, in the order found by skipping just what has been
    placed, no expression comes after its own index already holds an equal one.
   */
  lemma {:induction false} TwinsExact<E(!new)>(rules: Rules<E>, globals: set<Name>, body: seq<E>)
    requires Monotone(rules) && Bounded(rules, body)
    ensures Reorder(rules, globals, body).unsafe == map[] <==>
            && (exists order :: IsPermutation(body, order) && SafeOrder(rules, Start(rules, globals, body).safe, Picks(body, order)))
            && Undisturbed(body, Reference(rules, globals, body).reordered)
  {
    TagMonotone(rules, body);
    TagStart(rules, globals, body);
    ReorderInvariant(rules, globals, body);
    ReorderInvariant(TagRules(rules), globals, Tag(body));
    var st, r, o := Start(rules, globals, body), Reorder(rules, globals, body), Reference(rules, globals, body);
    if r.unsafe == map[] {
      ReorderSound(rules, globals, body);
      RunUndisturbed(rules, body, st);
      RunSame(rules, body, st, r.reordered);
    }
    if order :| IsPermutation(body, order) && SafeOrder(rules, st.safe, Picks(body, order)) {
      if Undisturbed(body, o.reordered) {
        TagOrder(rules, globals, body, order);
        ReorderComplete(TagRules(rules), globals, Tag(body), order);
        ReorderSound(TagRules(rules), globals, Tag(body));
        TagPositions(body, o.reordered);
        RunSame(rules, body, st, o.reordered);
      }
    }
  }
}
