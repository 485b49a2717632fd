/** The snapshots of a batch: erasing their roots, and writing their data. */
module SnapshotFilling {
  import opened Syntax
  import opened RootPaths
  import opened Documents
  import opened Regions
  import opened Bundles
  import opened PatchLocality
  import opened Activation
  import opened DeltaPatching

  ghost predicate Holds(d: Json, b: Bundle) {
    b.Snapshot? && forall r | r in b.manifest.roots :: Ptr(d, Area(r)) == Find(Obj(b.data), Area(r))
  }

  /** Some snapshots have been written; the roots of the others still hold nothing. */
  ghost predicate Filling(d0: Json, d: Json, snaps: Batch, todo: set<string>) {
    && d.Obj?
    && Confined(d0, d, PathsOf(BatchRoots(snaps)))
    && forall n | n in snaps :: if n in todo then Vacant(d, snaps[n].manifest.roots) else Holds(d, snaps[n])
  }

  /** Above a snapshot's root the outermost path to be changed is erased. */
  lemma {:induction false} SnapshotTop(ms: Manifests, bs: Batch, r: string, s: Path)
    requires !Collides(ms, bs) && SameRoots(ms, Deltas(bs)) && AllOrdinary(Concerned(ms, bs)) && r in BatchRoots(Snapshots(bs))
    requires s in PathsOf(Concerned(ms, bs)) && s <= Area(r)
    ensures s in PathsOf(EraseSet(ms, Snapshots(bs)))
  {
    var t := NamedRoot(Concerned(ms, bs), s);
    ErasedOrDelta(ms, bs, t);
    if t in BatchRoots(Deltas(bs)) { KindsApart(ms, bs, t, r); }
    StoredIn(t, EraseSet(ms, Snapshots(bs)));
  }

  /** Erasing for the snapshots leaves nothing at their roots, whatever the deltas have put there. */
  lemma {:induction false} SnapshotRootVacant(d1: Json, d2: Json, ms: Manifests, bs: Batch, r: string)
    requires !Collides(ms, bs) && SameRoots(ms, Deltas(bs)) && AllOrdinary(Concerned(ms, bs)) && r in BatchRoots(Snapshots(bs))
    requires Erasing(d1, d2, PathsOf(Concerned(ms, bs)), PathsOf(EraseSet(ms, Snapshots(bs))))
    ensures Ordinary(r) && Ptr(d2, Area(r)) == None && Clear(d2, Area(r))
  {
    SubsetRoots(ms, bs);
    StoredIn(r, Concerned(ms, bs));
    var s := TopAbove(PathsOf(Concerned(ms, bs)), Area(r));
    SnapshotTop(ms, bs, r, s);
    ErasedBelow(d1, d2, PathsOf(Concerned(ms, bs)), PathsOf(EraseSet(ms, Snapshots(bs))), s, Area(r));
  }

  lemma {:induction false} FillingStart(d1: Json, d: Json, ms: Manifests, bs: Batch)
    requires !Collides(ms, bs) && SameRoots(ms, Deltas(bs)) && AllOrdinary(Concerned(ms, bs))
    requires Erasing(d1, d, PathsOf(Concerned(ms, bs)), PathsOf(EraseSet(ms, Snapshots(bs))))
    ensures Filling(d, d, Snapshots(bs), Snapshots(bs).Keys)
  {
    var snaps := Snapshots(bs);
    ConfinedSame(d, PathsOf(BatchRoots(snaps)));
    forall n | n in snaps ensures Vacant(d, snaps[n].manifest.roots) {
      forall r | r in snaps[n].manifest.roots ensures Ordinary(r) && Clear(d, Area(r)) && Ptr(d, Area(r)) == None {
        SnapshotRootVacant(d1, d, ms, bs, r);
      }
    }
  }

  lemma {:induction false} FillingStep(d0: Json, d: Json, d': Json, ms: Manifests, bs: Batch, todo: set<string>, n: string)
    requires !Collides(ms, bs) && AllUsable(bs) && n in Snapshots(bs) && n !in todo
    requires Filling(d0, d, Snapshots(bs), todo + {n}) && Placed(d, d', bs[n].manifest.roots, Obj(bs[n].data))
    ensures Filling(d0, d', Snapshots(bs), todo)
  {
    var snaps, roots := Snapshots(bs), bs[n].manifest.roots;
    assert Usable(bs[n]);
    OwnRoots(snaps, n);
    PathsWider(RootSet(roots), BatchRoots(snaps));
    ConfinedWider(d, d', PathsOf(RootSet(roots)), PathsOf(BatchRoots(snaps)));
    ConfinedTwice(d0, d, d', PathsOf(BatchRoots(snaps)));
    forall m | m in snaps && m != n ensures if m in todo then Vacant(d', snaps[m].manifest.roots) else Holds(d', snaps[m]) {
      NoCollision(ms, bs, n, m);
      forall r | r in snaps[m].manifest.roots
        ensures Ptr(d', Area(r)) == Ptr(d, Area(r)) && (Clear(d, Area(r)) ==> Clear(d', Area(r)))
      {
        OthersKept(d, d', roots, snaps[m].manifest.roots, r);
      }
    }
  }

  /** What erasing for the snapshots ensures, from a document the deltas have patched. */
  ghost predicate SnapshotsErased(d1: Json, d2: Json, ms: Manifests, bs: Batch) {
    var region, erase := PathsOf(Concerned(ms, bs)), PathsOf(EraseSet(ms, Snapshots(bs)));
    && Erasing(d1, d2, region, erase) && (Erasable(d1, erase) ==> Erased(d1, d2, erase))
    && (Unshadowed(d1, erase) ==> Confined(d1, d2, Occupied(d1, erase)))
  }

  lemma {:induction false} ErasedBoth(d1: Json, d2: Json, ms: Manifests, bs: Batch)
    requires var erase := PathsOf(EraseSet(ms, Snapshots(bs)));
             && (forall region: set<Path> | erase <= region && Erasable(d1, region) :: Erasing(d1, d2, region, erase))
             && (d1.Obj? && Unshadowed(d1, erase) ==> Confined(d1, d2, Occupied(d1, erase)))
    ensures Erasable(d1, PathsOf(Concerned(ms, bs))) ==> SnapshotsErased(d1, d2, ms, bs)
  {
    var erase := PathsOf(EraseSet(ms, Snapshots(bs)));
    SubsetRoots(ms, bs);
    PathsWider(EraseSet(ms, Snapshots(bs)), Concerned(ms, bs));
    if Erasable(d1, erase) { EraseEnd(d1, d2, erase); }
  }

  /** What lies off the roots of the batch belongs to another bundle, as before. */
  lemma {:induction false} OwnedElsewhere(d0: Json, d3: Json, ms: Manifests, bs: Batch, p: Path)
    requires Owned(d0, ms) && AllOrdinary(Concerned(ms, bs)) && Confined(d0, d3, PathsOf(Concerned(ms, bs)))
    requires Filled(Ptr(d3, p)) && !Beneath(PathsOf(Concerned(ms, bs)), p)
    ensures exists n | n in ms && n !in bs :: InRoots(ms[n].roots, p)
  {
    assert Above(d0, d3, p);
    assert HasOwner(ms, p);
    var n :| n in ms && InRoots(ms[n].roots, p);
    if n in bs {
      var i :| 0 <= i < |ms[n].roots| && InArea(ms[n].roots[i], p);
      assert ms[n].roots[i] in ms[n].roots;
      StoredIn(ms[n].roots[i], Concerned(ms, bs));
    }
  }

  /** After the erasure nothing but objects lies above the roots of the snapshots. */
  lemma {:induction false} SnapshotRootFree(d0: Json, d1: Json, d2: Json, ms: Manifests, bs: Batch, r: string)
    requires Good(d0, ms) && !Collides(ms, bs) && SameRoots(ms, Deltas(bs)) && AllOrdinary(Concerned(ms, bs))
    requires Confined(d0, d2, PathsOf(Concerned(ms, bs))) && r in BatchRoots(Snapshots(bs))
    requires Erasing(d1, d2, PathsOf(Concerned(ms, bs)), PathsOf(EraseSet(ms, Snapshots(bs))))
    ensures Free(d2, Area(r))
  {
    var u, erase := Concerned(ms, bs), EraseSet(ms, Snapshots(bs));
    SubsetRoots(ms, bs);
    forall q: Path | q < Area(r) ensures !Filled(Ptr(d2, q)) {
      if Filled(Ptr(d2, q)) {
        if Beneath(PathsOf(u), q) {
          SnapshotAncestor(d1, d2, ms, bs, r, q);
        } else {
          OwnedElsewhere(d0, d2, ms, bs, q);
          var n :| n in ms && n !in bs && InRoots(ms[n].roots, q);
          var i :| 0 <= i < |ms[n].roots| && InArea(ms[n].roots[i], q);
          assert ms[n].roots[i] in ms[n].roots && Overlaps(ms[n].roots[i], r);
          BystandersApart(ms, bs, n, ms[n].roots[i], r);
        }
      }
    }
  }

  lemma {:induction false} SnapshotAncestor(d1: Json, d2: Json, ms: Manifests, bs: Batch, r: string, q: Path)
    requires !Collides(ms, bs) && SameRoots(ms, Deltas(bs)) && AllOrdinary(Concerned(ms, bs))
    requires r in BatchRoots(Snapshots(bs)) && q <= Area(r) && Beneath(PathsOf(Concerned(ms, bs)), q)
    requires Erasing(d1, d2, PathsOf(Concerned(ms, bs)), PathsOf(EraseSet(ms, Snapshots(bs))))
    ensures Ptr(d2, q) == None
  {
    var x :| x in PathsOf(Concerned(ms, bs)) && x <= q;
    var s := TopAbove(PathsOf(Concerned(ms, bs)), x);
    PrefixChain(s, x, q);
    PrefixChain(s, q, Area(r));
    SnapshotTop(ms, bs, r, s);
    ErasedBelow(d1, d2, PathsOf(Concerned(ms, bs)), PathsOf(EraseSet(ms, Snapshots(bs))), s, q);
  }

  /** A good store on the way through an activation. */
  ghost predicate Underway(d0: Json, d: Json, ms: Manifests, bs: Batch) {
    && Good(d0, ms) && AllUsable(bs) && !Collides(ms, bs) && SameRoots(ms, Deltas(bs))
    && AllOrdinary(Concerned(ms, bs)) && Working(d0, d, PathsOf(Concerned(ms, bs)))
  }

  lemma {:induction false} AfterPatching(d0: Json, d1: Json, ms: Manifests, bs: Batch)
    requires !Collides(ms, bs) && Compatible(ms, Deltas(bs))
    requires d0.Obj? && AllUsable(bs) ==> StaysIn(d0, d1, PathsOf(BatchRoots(Deltas(bs))))
    ensures Good(d0, ms) && AllUsable(bs) ==> Underway(d0, d1, ms, bs)
    ensures Good(d0, ms) && AllUsable(bs) && Orderly(d0, ms, bs) ==> Unshadowed(d1, PathsOf(EraseSet(ms, Snapshots(bs))))
  {
    if Good(d0, ms) && AllUsable(bs) {
      ConcernedErasable(d0, ms, bs);
      DeltasUsable(ms, bs);
      if Orderly(d0, ms, bs) {
        DeltasIndependent(d0, ms, bs);
        StaysUnshadowed(d0, d1, ms, bs);
      }
    }
  }

  ghost predicate SnapshotsFree(d: Json, snaps: Batch, todo: set<string>) {
    forall n | n in todo && n in snaps :: AllFree(d, snaps[n].manifest.roots)
  }

  lemma {:induction false} SnapshotsNowFree(d0: Json, d1: Json, d2: Json, ms: Manifests, bs: Batch)
    requires Underway(d0, d1, ms, bs)
    requires Erasing(d1, d2, PathsOf(Concerned(ms, bs)), PathsOf(EraseSet(ms, Snapshots(bs))))
    ensures SnapshotsFree(d2, Snapshots(bs), Snapshots(bs).Keys)
  {
    ConfinedTwice(d0, d1, d2, PathsOf(Concerned(ms, bs)));
    forall n, r | n in Snapshots(bs) && r in Snapshots(bs)[n].manifest.roots ensures Free(d2, Area(r)) {
      assert r in BatchRoots(Snapshots(bs));
      SnapshotRootFree(d0, d1, d2, ms, bs, r);
    }
  }

  lemma {:induction false} FillFree(d: Json, d': Json, ms: Manifests, bs: Batch, todo: set<string>, n: string)
    requires AllUsable(bs) && !Collides(ms, bs) && n in Snapshots(bs) && n !in todo && d.Obj?
    requires SnapshotsFree(d, Snapshots(bs), todo + {n}) && StaysIn(d, d', PathsOf(RootSet(bs[n].manifest.roots)))
    ensures SnapshotsFree(d', Snapshots(bs), todo)
  {
    var snaps, roots := Snapshots(bs), bs[n].manifest.roots;
    assert Usable(bs[n]);
    assert AllFree(d, snaps[n].manifest.roots);
    FreeErasable(d, roots);
    forall m, t | m in todo && m in snaps && t in snaps[m].manifest.roots ensures Free(d', Area(t)) {
      NoCollision(ms, bs, n, m);
      OthersKept(d, d', roots, snaps[m].manifest.roots, t);
    }
  }

  lemma {:induction false} FillStays(d0: Json, d: Json, d': Json, snaps: Batch, n: string)
    requires n in snaps && StaysIn(d0, d, PathsOf(BatchRoots(snaps))) && StaysIn(d, d', PathsOf(RootSet(snaps[n].manifest.roots)))
    ensures StaysIn(d0, d', PathsOf(BatchRoots(snaps)))
  {
    OwnRoots(snaps, n);
    PathsWider(RootSet(snaps[n].manifest.roots), BatchRoots(snaps));
    StaysTwice(d0, d, d', PathsOf(BatchRoots(snaps)), PathsOf(RootSet(snaps[n].manifest.roots)));
  }

  lemma {:induction false} PlacedFree(d: Json, d': Json, roots: seq<string>, t: string, v: Json)
    requires d.Obj? && Separate(roots) && AllFree(d, roots) && t in roots && Area(t) != []
    requires var dir := Area(t)[..|Area(t)| - 1]; MakeDir(d, dir).Done? && WriteBelow(MakeDir(d, dir).doc, Add, Area(t), v) == Done(d')
    ensures AllFree(d', roots)
  {
    FreeClear(d, Area(t));
    PlaceValue(d, Area(t), v);
    forall r | r in roots ensures Free(d', Area(r)) {
      if r == t {
        TouchesFree(d, d', Area(t));
      } else {
        SeparateMembers(roots, r, t);
        TouchesApart(d, d', Area(t), Area(r));
      }
    }
  }

  /** The values of the first roots have been written. */
  ghost predicate Writing(d0: Json, d: Json, roots: seq<string>, v: Json, n: nat) {
    && (Vacant(d0, roots) && Separate(roots) ==> Placing(d0, d, roots, v, n))
    && (d0.Obj? && AllOrdinary(RootSet(roots)) ==> d.Obj? && StaysIn(d0, d, PathsOf(RootSet(roots))))
    && (Writable(d0, roots) ==> AllFree(d, roots))
  }

  /** Nothing keeps values from being written at the roots. */
  ghost predicate Writable(d: Json, roots: seq<string>) {
    d.Obj? && AllOrdinary(RootSet(roots)) && Separate(roots) && AllFree(d, roots)
  }

  lemma {:induction false} WritingStart(d: Json, roots: seq<string>, v: Json)
    ensures Writing(d, d, roots, v, 0)
  {
    ConfinedSame(d, PathsOf(RootSet(roots)));
    StaysSame(d, PathsOf(RootSet(roots)));
  }

  /** What writing a value at a path comes to. */
  ghost predicate Wrote(d: Json, d': Json, path: Path, v: Json) {
    && path != [] && MakeDir(d, path[..|path| - 1]).Done?
    && WriteBelow(MakeDir(d, path[..|path| - 1]).doc, Add, path, v) == Done(d')
  }

  ghost predicate CanWrite(d: Json, path: Path, v: Json) {
    path != [] && MakeDir(d, path[..|path| - 1]).Done? && WriteBelow(MakeDir(d, path[..|path| - 1]).doc, Add, path, v).Done?
  }

  /** What writing the value for one root comes to. */
  ghost predicate WroteRoot(d: Json, d': Json, root: string, v: Json, ok: bool) {
    var path := StoragePath(root);
    match Find(v, path)
    case None => ok && d' == d
    case Some(x) =>
      if path == [] then (ok <==> x.Obj?) && (ok ==> d' == x)
      else (ok <==> CanWrite(d, path, x)) && (ok ==> Wrote(d, d', path, x))
  }

  lemma {:induction false} WriteSucceeds(d0: Json, d: Json, d': Json, roots: seq<string>, v: Json, n: nat, ok: bool)
    requires Writing(d0, d, roots, v, n) && n < |roots| && WroteRoot(d, d', roots[n], v, ok)
    ensures Writable(d0, roots) ==> ok
  {
    if Writable(d0, roots) && Find(v, StoragePath(roots[n])).Some? {
      CanWriteRoot(d0, d, roots, v, n, Find(v, StoragePath(roots[n])).value);
    }
  }

  lemma {:induction false} CanWriteRoot(d0: Json, d: Json, roots: seq<string>, v: Json, n: nat, x: Json)
    requires Writing(d0, d, roots, v, n) && n < |roots| && Writable(d0, roots)
    ensures CanWrite(d, StoragePath(roots[n]), x)
  {
    assert roots[n] in RootSet(roots) && roots[n] in roots;
    StoredRoot(roots[n]);
    PlaceDone(d, Area(roots[n]), x);
  }

  lemma {:induction false} WritingStep(d0: Json, d: Json, d': Json, roots: seq<string>, v: Json, n: nat)
    requires Writing(d0, d, roots, v, n) && n < |roots|
    requires WroteRoot(d, d', roots[n], v, true)
    ensures Writing(d0, d', roots, v, n + 1)
  {
    var r, path := roots[n], StoragePath(roots[n]);
    assert r in roots && r in RootSet(roots);
    if Vacant(d0, roots) && Separate(roots) {
      StoredRoot(r);
      TouchesSame(d, path);
      if Find(v, path).Some? { PlaceValue(d, path, Find(v, path).value); }
      PlaceStep(d0, d, d', roots, v, n);
    }
    if d0.Obj? && AllOrdinary(RootSet(roots)) {
      StoredRoot(r);
      if Find(v, path).Some? {
        StoredIn(r, RootSet(roots));
        PlaceStays(d, path, Find(v, path).value, PathsOf(RootSet(roots)));
        StaysTwice(d0, d, d', PathsOf(RootSet(roots)), PathsOf(RootSet(roots)));
        if Writable(d0, roots) { PlacedFree(d, d', roots, r, Find(v, path).value); }
      }
    }
  }

  /** Some snapshots have been written, and nothing keeps the others from being written. */
  ghost predicate Storing(d0: Json, d: Json, ms: Manifests, bs: Batch, todo: set<string>) {
    var snaps := Snapshots(bs);
    && (!Collides(ms, bs) && Filling(d0, d0, snaps, snaps.Keys) ==> Filling(d0, d, snaps, todo))
    && (d0.Obj? ==> d.Obj? && StaysIn(d0, d, PathsOf(BatchRoots(snaps))))
    && (d0.Obj? && !Collides(ms, bs) && SnapshotsFree(d0, snaps, snaps.Keys) ==> SnapshotsFree(d, snaps, todo))
  }

  /** Nothing keeps the snapshots from being written. */
  ghost predicate Storable(d: Json, ms: Manifests, bs: Batch) {
    d.Obj? && AllUsable(bs) && !Collides(ms, bs) && SnapshotsFree(d, Snapshots(bs), Snapshots(bs).Keys)
  }

  lemma {:induction false} StoringStart(d: Json, ms: Manifests, bs: Batch)
    ensures Storing(d, d, ms, bs, Snapshots(bs).Keys)
  {
    StaysSame(d, PathsOf(BatchRoots(Snapshots(bs))));
  }

  lemma {:induction false} StoringStep(d0: Json, d: Json, d': Json, ms: Manifests, bs: Batch, todo: set<string>, n: string)
    requires AllUsable(bs) && n in Snapshots(bs) && n !in todo && Storing(d0, d, ms, bs, todo + {n})
    requires var roots := bs[n].manifest.roots;
             && (Vacant(d, roots) && Separate(roots) ==> Placed(d, d', roots, Obj(bs[n].data)))
             && (d.Obj? && AllOrdinary(RootSet(roots)) ==> d'.Obj? && StaysIn(d, d', PathsOf(RootSet(roots))))
    ensures Storing(d0, d', ms, bs, todo)
  {
    var snaps, roots := Snapshots(bs), bs[n].manifest.roots;
    assert Usable(bs[n]);
    if !Collides(ms, bs) && Filling(d0, d0, snaps, snaps.Keys) {
      assert Vacant(d, roots) by { assert snaps[n] == bs[n] && n in todo + {n}; }
      FillingStep(d0, d, d', ms, bs, todo, n);
    }
    if d0.Obj? {
      FillStays(d0, d, d', snaps, n);
      if !Collides(ms, bs) && SnapshotsFree(d0, snaps, snaps.Keys) { FillFree(d, d', ms, bs, todo, n); }
    }
  }

  /** What holds once the snapshots' roots have been erased. */
  lemma {:induction false} AfterErasing(d0: Json, d1: Json, d2: Json, ms: Manifests, bs: Batch)
    requires var erase := PathsOf(EraseSet(ms, Snapshots(bs)));
             && (forall region: set<Path> | erase <= region && Erasable(d1, region) :: Erasing(d1, d2, region, erase))
             && (d1.Obj? && Unshadowed(d1, erase) ==> Confined(d1, d2, Occupied(d1, erase)))
    ensures Underway(d0, d1, ms, bs) ==>
              && SnapshotsErased(d1, d2, ms, bs) && Filling(d2, d2, Snapshots(bs), Snapshots(bs).Keys)
              && d2.Obj? && SnapshotsFree(d2, Snapshots(bs), Snapshots(bs).Keys)
  {
    ErasedBoth(d1, d2, ms, bs);
    if Underway(d0, d1, ms, bs) {
      FillingStart(d1, d2, ms, bs);
      SnapshotsNowFree(d0, d1, d2, ms, bs);
    }
  }

  lemma {:induction false} ErasedStays(d: Json, d': Json, paths: set<Path>)
    requires forall region: set<Path> | paths <= region && Erasable(d, region) :: Erasing(d, d', region, paths)
    ensures StaysIn(d, d', paths)
  {
  }

  lemma {:induction false} EraseThenFill(d1: Json, d2: Json, d3: Json, ms: Manifests, bs: Batch)
    requires var erase := PathsOf(EraseSet(ms, Snapshots(bs)));
             forall region: set<Path> | erase <= region && Erasable(d1, region) :: Erasing(d1, d2, region, erase)
    requires d2.Obj? && AllUsable(bs) ==> StaysIn(d2, d3, PathsOf(BatchRoots(Snapshots(bs))))
    ensures d1.Obj? && AllUsable(bs) && AllOrdinary(Concerned(ms, bs)) ==> StaysIn(d1, d3, PathsOf(EraseSet(ms, Snapshots(bs))))
  {
    if d1.Obj? && AllUsable(bs) && AllOrdinary(Concerned(ms, bs)) {
      var erase := EraseSet(ms, Snapshots(bs));
      SubsetRoots(ms, bs);
      ErasedStays(d1, d2, PathsOf(erase));
      HeadsErasable(d1, erase);
      assert Working(d1, d2, WithHeads(erase));
      PathsWider(BatchRoots(Snapshots(bs)), erase);
      StaysTwice(d1, d2, d3, PathsOf(erase), PathsOf(BatchRoots(Snapshots(bs))));
    }
  }
}
