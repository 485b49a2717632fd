/** Recursive merge of objects. */
module Merging {
  import opened Syntax
  import opened Semantics

  /** Two values for the same key: only objects can be merged. */
  function MergeValues(a: Value, b: Value): Option<Value>
    decreases a, 1
  {
    if a.VObject? && b.VObject? then MergeObjects(a, b) else None
  }

  function MergeObjects(a: Value, b: Value): (r: Option<Value>)
    requires a.VObject? && b.VObject?
    ensures r.Some? ==> r.value.VObject?
    decreases a, 0
  {
    if !(forall k | k in a.fields && k in b.fields :: MergeValues(a.fields[k], b.fields[k]).Some?) then None
    else
      Some(VObject(map k | k in a.fields.Keys + b.fields.Keys ::
        if k !in b.fields then a.fields[k]
        else if k !in a.fields then b.fields[k]
        else MergeValues(a.fields[k], b.fields[k]).value))
  }

  // Per key.

  /** What a key has: nothing, a value, or values that clash. */
  datatype Cell = Absent | Clash | Present(value: Value)

  function At(a: Value, k: Value): Cell
    requires a.VObject?
  {
    if k in a.fields then Present(a.fields[k]) else Absent
  }

  ghost function MergeCells(c: Cell, d: Cell): Cell {
    match (c, d)
    case (Absent, _) => d
    case (_, Absent) => c
    case (Present(v), Present(w)) => (match MergeValues(v, w) case None => Clash case Some(u) => Present(u))
    case _ => Clash
  }

  /** Merging works key by key, and fails exactly when some key clashes. */
  ghost predicate Pointwise(a: Value, b: Value, r: Option<Value>)
    requires a.VObject? && b.VObject?
  {
    match r
    case None => exists k :: MergeCells(At(a, k), At(b, k)) == Clash
    case Some(c) => c.VObject? && forall k :: At(c, k) == MergeCells(At(a, k), At(b, k))
  }

  lemma {:induction false} MergePointwise(a: Value, b: Value)
    requires a.VObject? && b.VObject?
    ensures Pointwise(a, b, MergeObjects(a, b))
  {
    var r := MergeObjects(a, b);
    if r.None? {
      var k :| k in a.fields && k in b.fields && MergeValues(a.fields[k], b.fields[k]).None?;
      assert MergeCells(At(a, k), At(b, k)) == Clash;
    }
  }

  /** The pointwise description determines the result. */
  lemma {:induction false} PointwiseUnique(a: Value, b: Value, r: Option<Value>)
    requires a.VObject? && b.VObject? && Pointwise(a, b, r)
    ensures r == MergeObjects(a, b)
  {
    MergePointwise(a, b);
    var r' := MergeObjects(a, b);
    if r.Some? && r'.Some? {
      SameCells(r.value, r'.value);
    }
  }

  lemma {:induction false} SameCells(a: Value, b: Value)
    requires a.VObject? && b.VObject? && forall k :: At(a, k) == At(b, k)
    ensures a == b
  {
    forall k ensures k in a.fields <==> k in b.fields {
      assert At(a, k) == At(b, k);
    }
    forall k | k in a.fields ensures a.fields[k] == b.fields[k] {
      assert At(a, k) == At(b, k);
    }
    assert a.fields == b.fields;
  }

  // The laws.

  const EMPTY := VObject(map[])

  lemma {:induction false} MergeIdentity(a: Value)
    requires a.VObject?
    ensures MergeObjects(a, EMPTY) == Some(a) && MergeObjects(EMPTY, a) == Some(a)
  {
    PointwiseUnique(a, EMPTY, Some(a));
    PointwiseUnique(EMPTY, a, Some(a));
  }

  /** Both orders succeed together and give equal results. */
  lemma {:induction false} MergeCommutes(a: Value, b: Value)
    requires a.VObject? && b.VObject?
    ensures MergeObjects(a, b) == MergeObjects(b, a)
    decreases a
  {
    forall k ensures MergeCells(At(a, k), At(b, k)) == MergeCells(At(b, k), At(a, k)) {
      if k in a.fields && k in b.fields && a.fields[k].VObject? && b.fields[k].VObject? {
        MergeCommutes(a.fields[k], b.fields[k]);
      }
    }
    MergePointwise(a, b);
    if MergeObjects(a, b).None? {
      var k :| MergeCells(At(a, k), At(b, k)) == Clash;
      assert MergeCells(At(b, k), At(a, k)) == Clash;
    }
    PointwiseUnique(b, a, MergeObjects(a, b));
  }

  function Then(r: Option<Value>, c: Value): Option<Value>
    requires c.VObject? && (r.Some? ==> r.value.VObject?)
  {
    match r case None => None case Some(ab) => MergeObjects(ab, c)
  }

  function Before(a: Value, r: Option<Value>): Option<Value>
    requires a.VObject? && (r.Some? ==> r.value.VObject?)
  {
    match r case None => None case Some(bc) => MergeObjects(a, bc)
  }

  lemma {:induction false} CellsAssociate(a: Value, b: Value, c: Value, k: Value)
    requires a.VObject? && b.VObject? && c.VObject?
    requires k in a.fields && k in b.fields && k in c.fields ==>
               var x, y, z := a.fields[k], b.fields[k], c.fields[k];
               x.VObject? && y.VObject? && z.VObject? ==> Then(MergeObjects(x, y), z) == Before(x, MergeObjects(y, z))
    ensures MergeCells(MergeCells(At(a, k), At(b, k)), At(c, k)) == MergeCells(At(a, k), MergeCells(At(b, k), At(c, k)))
  {
  }

  lemma {:induction false} ThenPointwise(a: Value, b: Value, c: Value)
    requires a.VObject? && b.VObject? && c.VObject?
    ensures match Then(MergeObjects(a, b), c)
            case None => exists k :: MergeCells(MergeCells(At(a, k), At(b, k)), At(c, k)) == Clash
            case Some(r) => r.VObject? && forall k :: At(r, k) == MergeCells(MergeCells(At(a, k), At(b, k)), At(c, k))
  {
    MergePointwise(a, b);
    match MergeObjects(a, b)
    case None =>
      var k :| MergeCells(At(a, k), At(b, k)) == Clash;
      assert MergeCells(MergeCells(At(a, k), At(b, k)), At(c, k)) == Clash;
    case Some(ab) =>
      MergePointwise(ab, c);
      if MergeObjects(ab, c).None? {
        var k :| MergeCells(At(ab, k), At(c, k)) == Clash;
        assert MergeCells(MergeCells(At(a, k), At(b, k)), At(c, k)) == Clash;
      }
  }

  lemma {:induction false} BeforePointwise(a: Value, b: Value, c: Value)
    requires a.VObject? && b.VObject? && c.VObject?
    ensures match Before(a, MergeObjects(b, c))
            case None => exists k :: MergeCells(At(a, k), MergeCells(At(b, k), At(c, k))) == Clash
            case Some(r) => r.VObject? && forall k :: At(r, k) == MergeCells(At(a, k), MergeCells(At(b, k), At(c, k)))
  {
    MergePointwise(b, c);
    match MergeObjects(b, c)
    case None =>
      var k :| MergeCells(At(b, k), At(c, k)) == Clash;
      assert MergeCells(At(a, k), MergeCells(At(b, k), At(c, k))) == Clash;
    case Some(bc) =>
      MergePointwise(a, bc);
      if MergeObjects(a, bc).None? {
        var k :| MergeCells(At(a, k), At(bc, k)) == Clash;
        assert MergeCells(At(a, k), MergeCells(At(b, k), At(c, k))) == Clash;
      }
  }

  /** Both groupings succeed together and give equal results. */
  lemma {:induction false} MergeAssociates(a: Value, b: Value, c: Value)
    requires a.VObject? && b.VObject? && c.VObject?
    ensures Then(MergeObjects(a, b), c) == Before(a, MergeObjects(b, c))
    decreases a
  {
    forall k ensures MergeCells(MergeCells(At(a, k), At(b, k)), At(c, k)) == MergeCells(At(a, k), MergeCells(At(b, k), At(c, k))) {
      if k in a.fields && k in b.fields && k in c.fields {
        var x, y, z := a.fields[k], b.fields[k], c.fields[k];
        if x.VObject? && y.VObject? && z.VObject? {
          MergeAssociates(x, y, z);
        }
      }
      CellsAssociate(a, b, c, k);
    }
    ThenPointwise(a, b, c);
    BeforePointwise(a, b, c);
    var l, r := Then(MergeObjects(a, b), c), Before(a, MergeObjects(b, c));
    if l.Some? && r.Some? {
      SameCells(l.value, r.value);
    }
  }

  // The loops.

  /** Merges over the keys of the first object, then takes over the other keys of the second. */
  method Merge(a: Value, b: Value) returns (r: Option<Value>)
    requires a.VObject? && b.VObject?
    ensures r == MergeObjects(a, b)
    decreases a
  {
    var result: map<Value, Value> := map[];
    var todo := a.fields.Keys;
    while todo != {}
      invariant todo <= a.fields.Keys && result.Keys == a.fields.Keys - todo
      invariant forall k | k in a.fields.Keys - todo :: Present(result[k]) == MergeCells(At(a, k), At(b, k))
      decreases todo
    {
      var k :| k in todo;
      todo := todo - {k};
      if k !in b.fields {
        result := result[k := a.fields[k]];
      } else {
        var merged := None;
        if a.fields[k].VObject? && b.fields[k].VObject? {
          merged := Merge(a.fields[k], b.fields[k]);
        }
        if merged.None? {
          return None;
        }
        result := result[k := merged.value];
      }
    }
    result := result + map k | k in b.fields && k !in a.fields :: b.fields[k];
    r := Some(VObject(result));
    PointwiseUnique(a, b, r);
  }
}
