/** The deltas of a batch: each does what it would do alone. */
module DeltaPatching {
  import opened RootPaths
  import opened Documents
  import opened Regions
  import opened Bundles
  import opened PatchLocality
  import opened Activation

  /** A delta for a recorded bundle keeps its roots and resolvers. */
  ghost predicate Compatible(ms: Manifests, deltas: Batch) {
    forall n | n in deltas && n in ms ::
      deltas[n].manifest.wasm == ms[n].wasm && RootSet(deltas[n].manifest.roots) == RootSet(ms[n].roots)
  }

  /** All the names, each once. */
  ghost predicate IsOrder(order: seq<string>, names: set<string>) {
    && (forall i, j | 0 <= i < j < |order| :: order[i] != order[j])
    && (forall n :: n in order <==> n in names)
  }

  /** Deltas that cannot get in each other's way: nothing but objects lies above their roots, which are all apart. */
  ghost predicate Independent(d: Json, deltas: Batch) {
    && d.Obj? && AllUsable(deltas)
    && (forall n | n in deltas :: deltas[n].Delta? && AllFree(d, deltas[n].manifest.roots))
    && forall n, m | n in deltas && m in deltas && n != m :: RootsDisjoint(deltas[n].manifest.roots, deltas[m].manifest.roots)
  }

  /** At its roots each delta that was applied has left what its patches alone make of the original document. */
  ghost predicate Alone(d0: Json, d: Json, deltas: Batch, todo: set<string>) {
    && d.Obj?
    && forall n | n in deltas && deltas[n].Delta? ::
         if n in todo then SameAt(d0, d, deltas[n].manifest.roots)
         else PatchDoc(d0, deltas[n].patches).Done? && SameAt(PatchDoc(d0, deltas[n].patches).doc, d, deltas[n].manifest.roots)
  }

  lemma {:induction false} AloneStart(d: Json, deltas: Batch)
    requires Independent(d, deltas)
    ensures Alone(d, d, deltas, deltas.Keys)
  {
  }

  lemma {:induction false} SameKept(x: Json, d: Json, d': Json, roots: seq<string>, others: seq<string>)
    requires SameAt(x, d, others) && d'.Obj? && Confined(d, d', PathsOf(RootSet(roots))) && RootsDisjoint(roots, others)
    requires forall r | r in roots :: Ordinary(r)
    ensures SameAt(x, d', others)
  {
    forall t | t in others ensures Same(x, d', Area(t)) {
      OthersKept(d, d', roots, others, t);
    }
  }

  /** Whether the patches of a delta apply does not depend on the deltas before it. */
  lemma {:induction false} AloneStep(d0: Json, d: Json, deltas: Batch, todo: set<string>, n: string)
    requires Independent(d0, deltas) && n in deltas && n !in todo && Alone(d0, d, deltas, todo + {n})
    ensures PatchDoc(d, deltas[n].patches).Done? <==> PatchDoc(d0, deltas[n].patches).Done?
    ensures PatchDoc(d, deltas[n].patches).Done? ==>
              var d' := PatchDoc(d, deltas[n].patches).doc;
              StaysIn(d, d', PathsOf(RootSet(deltas[n].manifest.roots))) && d'.Obj? ==> Alone(d0, d', deltas, todo)
  {
    var roots := deltas[n].manifest.roots;
    assert Usable(deltas[n]);
    PatchesSameAt(d0, d, deltas[n].patches, roots);
    if PatchDoc(d, deltas[n].patches).Done? {
      var d' := PatchDoc(d, deltas[n].patches).doc;
      if StaysIn(d, d', PathsOf(RootSet(roots))) && d'.Obj? {
        FreeErasable(d, roots);
        assert Working(d, d', PathsOf(RootSet(roots)));
        forall m | m in deltas && m != n
          ensures if m in todo then SameAt(d0, d', deltas[m].manifest.roots)
                  else PatchDoc(d0, deltas[m].patches).Done? && SameAt(PatchDoc(d0, deltas[m].patches).doc, d', deltas[m].manifest.roots)
        {
          var x := if m in todo then d0 else PatchDoc(d0, deltas[m].patches).doc;
          SameKept(x, d, d', roots, deltas[m].manifest.roots);
        }
      }
    }
  }

  ghost predicate AllApply(d: Json, deltas: Batch) {
    forall n | n in deltas && deltas[n].Delta? :: PatchDoc(d, deltas[n].patches).Done?
  }

  lemma {:induction false} FreeErasable(d: Json, roots: seq<string>)
    requires d.Obj? && AllFree(d, roots) && forall r | r in roots :: Ordinary(r)
    ensures Erasable(d, PathsOf(RootSet(roots)))
  {
    forall s | s in PathsOf(RootSet(roots)) ensures s != [] && Clear(d, s) {
      var r := NamedRoot(RootSet(roots), s);
      StoredRoot(r);
      FreeClear(d, s);
    }
  }

  /** The deltas' patches, bundle by bundle. */
  function PatchInOrder(d: Json, deltas: Batch, order: seq<string>): Outcome
    requires forall n | n in order :: n in deltas && deltas[n].Delta?
  {
    if order == [] then Done(d)
    else
      var i := |order| - 1;
      match PatchInOrder(d, deltas, order[..i])
      case Done(d') => PatchDoc(d', deltas[order[i]].patches)
      case other => other
  }

  lemma {:induction false} NextInOrder(d0: Json, d: Json, d': Json, deltas: Batch, order: seq<string>, n: string, names: set<string>)
    requires IsOrder(order, names) && n !in names && forall m | m in order + [n] :: m in deltas && deltas[m].Delta?
    requires PatchInOrder(d0, deltas, order) == Done(d) && PatchDoc(d, deltas[n].patches) == Done(d')
    ensures IsOrder(order + [n], names + {n}) && PatchInOrder(d0, deltas, order + [n]) == Done(d')
  {
    assert (order + [n])[..|order|] == order;
  }

  lemma {:induction false} OwnRoots(bs: Batch, n: string)
    requires n in bs
    ensures RootSet(bs[n].manifest.roots) <= BatchRoots(bs)
  {
  }

  /** In the area of each delta the document is what its patches alone make of the original one. */
  ghost predicate PatchedAlone(d: Json, d': Json, deltas: Batch) {
    forall n | n in deltas && deltas[n].Delta? ::
      && PatchDoc(d, deltas[n].patches).Done?
      && forall p | InRoots(deltas[n].manifest.roots, p) :: Ptr(d', p) == Ptr(PatchDoc(d, deltas[n].patches).doc, p)
  }

  ghost predicate SameInAreas(d: Json, d': Json, deltas: Batch) {
    forall n, p | n in deltas && InRoots(deltas[n].manifest.roots, p) :: Ptr(d', p) == Ptr(d, p)
  }

  lemma {:induction false} AloneInAreas(d0: Json, d1: Json, d3: Json, deltas: Batch)
    requires Alone(d0, d1, deltas, {}) && SameInAreas(d1, d3, deltas)
    ensures PatchedAlone(d0, d3, deltas)
  {
    forall n, p | n in deltas && deltas[n].Delta? && InRoots(deltas[n].manifest.roots, p)
      ensures Ptr(d3, p) == Ptr(PatchDoc(d0, deltas[n].patches).doc, p)
    {
      var roots := deltas[n].manifest.roots;
      var i :| 0 <= i < |roots| && InArea(roots[i], p);
      assert roots[i] in roots;
      SameBelow(PatchDoc(d0, deltas[n].patches).doc, d1, Area(roots[i]), p);
    }
  }

  /** On a good store nothing but objects lies above the roots of spared deltas. */
  lemma {:induction false} DeltaRootFree(d: Json, ms: Manifests, bs: Batch, r: string)
    requires Good(d, ms) && AllUsable(bs) && !Collides(ms, bs) && SameRoots(ms, Deltas(bs)) && SparesDeltas(ms, bs)
    requires r in BatchRoots(Deltas(bs))
    ensures Free(d, Area(r))
  {
    forall q: Path | q < Area(r) ensures !Filled(Ptr(d, q)) {
      if Filled(Ptr(d, q)) {
        assert HasOwner(ms, q);
        var k :| k in ms && InRoots(ms[k].roots, q);
        var i :| 0 <= i < |ms[k].roots| && InArea(ms[k].roots[i], q);
        assert ms[k].roots[i] in ms[k].roots;
        SparedApart(ms, bs, k, ms[k].roots[i], r);
      }
    }
  }

  /** A spared root of a delta overlaps no other recorded root. */
  lemma {:induction false} SparedApart(ms: Manifests, bs: Batch, k: string, t: string, r: string)
    requires Disjoint(ms) && AllUsable(bs) && !Collides(ms, bs) && SameRoots(ms, Deltas(bs)) && SparesDeltas(ms, bs)
    requires k in ms && t in ms[k].roots && r in BatchRoots(Deltas(bs)) && t != r
    ensures !Overlaps(t, r)
  {
    SubsetRoots(ms, bs);
    if k !in bs {
      BystandersApart(ms, bs, k, t, r);
    } else {
      ErasedOrDelta(ms, bs, t);
      if t in BatchRoots(Deltas(bs)) {
        BatchApart(ms, bs, r, t);
      } else {
        assert !Overlaps(r, t);
      }
    }
  }

  lemma {:induction false} DeltasIndependent(d: Json, ms: Manifests, bs: Batch)
    requires Good(d, ms) && AllUsable(bs) && !Collides(ms, bs) && SameRoots(ms, Deltas(bs)) && SparesDeltas(ms, bs)
    ensures Independent(d, Deltas(bs))
  {
    var deltas := Deltas(bs);
    DeltasUsable(ms, bs);
    forall n, r | n in deltas && r in deltas[n].manifest.roots ensures Free(d, Area(r)) {
      assert r in BatchRoots(deltas);
      DeltaRootFree(d, ms, bs, r);
    }
    forall n, m | n in deltas && m in deltas && n != m ensures RootsDisjoint(deltas[n].manifest.roots, deltas[m].manifest.roots) {
      NoCollision(ms, bs, n, m);
    }
  }

  /** Patching puts no array above a root to be erased. */
  lemma {:induction false} StaysUnshadowed(d: Json, d1: Json, ms: Manifests, bs: Batch)
    requires SparesDeltas(ms, bs) && AllOrdinary(Concerned(ms, bs)) && Independent(d, Deltas(bs))
    requires StaysIn(d, d1, PathsOf(BatchRoots(Deltas(bs)))) && Unshadowed(d, PathsOf(EraseSet(ms, Snapshots(bs))))
    ensures Unshadowed(d1, PathsOf(EraseSet(ms, Snapshots(bs))))
  {
    var region, erase := PathsOf(BatchRoots(Deltas(bs))), EraseSet(ms, Snapshots(bs));
    SubsetRoots(ms, bs);
    forall s | s in region ensures s != [] && Clear(d, s) {
      var t := NamedRoot(BatchRoots(Deltas(bs)), s);
      var n :| n in Deltas(bs) && t in Deltas(bs)[n].manifest.roots;
      StoredRoot(t);
      FreeClear(d, s);
    }
    assert Working(d, d1, region);
    forall e | e in PathsOf(erase) ensures Clear(d1, e) {
      var r := NamedRoot(erase, e);
      forall t | t in BatchRoots(Deltas(bs)) ensures !Overlaps(r, t) { assert !Overlaps(t, r); }
      ApartFromOthers(r, e, BatchRoots(Deltas(bs)));
      ConfinedElsewhere(d, d1, region, e);
    }
  }
}
