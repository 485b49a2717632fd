/** What activations and deactivations establish. */
module ActivationResult {
  import opened Syntax
  import opened RootPaths
  import opened Documents
  import opened Regions
  import opened Bundles
  import opened Activation
  import opened DeltaPatching
  import opened SnapshotFilling

  /** The roots do not collide, deltas keep what is recorded, patches apply, policies parse, and the checks pass. */
  ghost predicate Acceptable(d: Json, ps: map<string, Policy>, ms: Manifests, bs: Batch, checks: Checks) {
    && !Collides(ms, bs) && Compatible(ms, Deltas(bs)) && AllApply(d, Deltas(bs)) && AllParse(ps)
    && checks.compiles && !checks.conflict && (Deltas(bs) != map[] ==> !checks.deltaConflict)
  }

  /** The new manifests are in force, the snapshots' data is in place, and nobody else's data changed. */
  ghost predicate Activated(d: Json, d': Json, ms: Manifests, bs: Batch) {
    && Good(d', Recorded(ms, bs))
    && Untouched(d, d', ms, bs.Keys)
    && (forall n | n in bs && bs[n].Snapshot? :: Holds(d', bs[n]))
    && (SparesDeltas(ms, bs) ==> PatchedAlone(d, d', Deltas(bs)))
    && exists order :: DeltasApplied(d, d', ms, bs, order)
  }

  /**
    The patches were applied, in some order of the bundles. Erasing for the snapshots then takes what it finds
    in the areas of the deltas; if no array is in the way, they are kept exactly if it finds nothing there.
   */
  ghost predicate DeltasApplied(d: Json, d': Json, ms: Manifests, bs: Batch, order: seq<string>) {
    var deltas := Deltas(bs);
    && IsOrder(order, deltas.Keys)
    && PatchInOrder(d, deltas, order).Done?
    && var d1 := PatchInOrder(d, deltas, order).doc;
       && LostToSnapshots(d1, d', ms, bs)
       && (Unshadowed(d1, PathsOf(EraseSet(ms, Snapshots(bs)))) ==>
             (SameInAreas(d1, d', deltas) <==> NothingShared(d1, ms, bs)))
  }

  /** No value lies both in the area of a delta and in a root that is erased for a snapshot. */
  ghost predicate NothingShared(d1: Json, ms: Manifests, bs: Batch) {
    forall t, r, p: Path | t in BatchRoots(Deltas(bs)) && r in EraseSet(ms, Snapshots(bs)) && InArea(t, p) && InArea(r, p) ::
      Ptr(d1, p) == None
  }

  /**
    Nothing is left where a delta's area overlaps a root that a snapshot of the batch had before; where that
    root lies below the delta's, this takes that no array is above a root to be erased.
   */
  ghost predicate LostToSnapshots(d1: Json, d': Json, ms: Manifests, bs: Batch) {
    forall t, r, p: Path | t in BatchRoots(Deltas(bs)) && r in EraseSet(ms, Snapshots(bs)) && InArea(t, p) && InArea(r, p) &&
                           (Area(r) <= Area(t) || Erasable(d1, PathsOf(EraseSet(ms, Snapshots(bs))))) ::
      Ptr(d', p) == None
  }

  /** Where deltas are spared, what is erased is not shadowed by them. */
  lemma {:induction false} SparedErasable(d: Json, ms: Manifests, bs: Batch)
    requires SameRoots(ms, Deltas(bs)) && SparesDeltas(ms, bs) && AllOrdinary(Concerned(ms, bs))
    requires Erasable(d, PathsOf(Concerned(ms, bs)))
    ensures Erasable(d, PathsOf(EraseSet(ms, Snapshots(bs))))
  {
    var u, erase := Concerned(ms, bs), EraseSet(ms, Snapshots(bs));
    SubsetRoots(ms, bs);
    PathsWider(erase, u);
    forall s | Top(PathsOf(erase), s) ensures Clear(d, s) {
      var r := NamedRoot(erase, s);
      forall q | q in PathsOf(u) ensures !(q < s) {
        var t := NamedRoot(u, q);
        ErasedOrDelta(ms, bs, t);
        if t in erase {
          StoredIn(t, erase);
        } else {
          assert !Overlaps(t, r);
        }
      }
      assert Top(PathsOf(u), s);
    }
  }

  /** Erasing what is there leaves the area of a delta alone, if none of it is in that area. */
  lemma {:induction false} AreaKept(d1: Json, d2: Json, ms: Manifests, bs: Batch, t: string, p: Path)
    requires AllOrdinary(Concerned(ms, bs)) && NothingShared(d1, ms, bs) && t in BatchRoots(Deltas(bs)) && InArea(t, p)
    requires var erase := PathsOf(EraseSet(ms, Snapshots(bs)));
             Confined(d1, d2, Occupied(d1, erase)) && forall e | e in erase :: Ptr(d2, e) == None
    ensures Ptr(d2, p) == Ptr(d1, p)
  {
    var erase := EraseSet(ms, Snapshots(bs));
    SubsetRoots(ms, bs);
    if e :| e in PathsOf(erase) && e <= p {
      var r := NamedRoot(erase, e);
      PtrBelow(d2, e, p);
    } else {
      forall e | e in Occupied(d1, PathsOf(erase)) ensures Apart(p, e) {
        var r := NamedRoot(erase, e);
        if p <= e { assert InArea(t, e) && InArea(r, e); }
      }
      assert ApartAll(p, Occupied(d1, PathsOf(erase)));
    }
  }

  /** Where no array is in the way, the areas of the deltas are kept exactly if nothing in them is erased. */
  lemma {:induction false} KeptExactly(d1: Json, d2: Json, d3: Json, ms: Manifests, bs: Batch)
    requires !Collides(ms, bs) && AllOrdinary(Concerned(ms, bs)) && LostToSnapshots(d1, d3, ms, bs)
    requires var erase := PathsOf(EraseSet(ms, Snapshots(bs)));
             && Erased(d1, d2, erase) && Unshadowed(d1, erase) && d1.Obj? && Confined(d1, d2, Occupied(d1, erase))
    requires Confined(d2, d3, PathsOf(BatchRoots(Snapshots(bs))))
    ensures SameInAreas(d1, d3, Deltas(bs)) <==> NothingShared(d1, ms, bs)
  {
    var deltas, erase := Deltas(bs), EraseSet(ms, Snapshots(bs));
    if NothingShared(d1, ms, bs) {
      forall n, p | n in deltas && InRoots(deltas[n].manifest.roots, p) ensures Ptr(d3, p) == Ptr(d1, p) {
        var i :| 0 <= i < |deltas[n].manifest.roots| && InArea(deltas[n].manifest.roots[i], p);
        var t := deltas[n].manifest.roots[i];
        assert t in deltas[n].manifest.roots && t in BatchRoots(deltas);
        AreaKept(d1, d2, ms, bs, t, p);
        FillApart(d2, d3, ms, bs, t, p);
      }
    }
    if SameInAreas(d1, d3, deltas) {
      UnshadowedErasable(d1, ms, bs);
      forall t, r, p: Path | t in BatchRoots(deltas) && r in erase && InArea(t, p) && InArea(r, p) ensures Ptr(d1, p) == None {
        var n :| n in deltas && t in deltas[n].manifest.roots;
        InRootsMember(deltas[n].manifest.roots, t, p);
        assert Ptr(d3, p) == Ptr(d1, p);
      }
    }
  }

  /** Erasing and filling for the snapshots leaves the areas of the deltas alone, if they are spared. */
  lemma {:induction false} DeltaFrame(d1: Json, d2: Json, d3: Json, ms: Manifests, bs: Batch)
    requires AllOrdinary(Concerned(ms, bs)) && SparesDeltas(ms, bs)
    requires Confined(d1, d2, PathsOf(EraseSet(ms, Snapshots(bs))))
    requires Confined(d2, d3, PathsOf(BatchRoots(Snapshots(bs))))
    ensures SameInAreas(d1, d3, Deltas(bs))
  {
    var snaps := Snapshots(bs);
    SubsetRoots(ms, bs);
    forall n, p | n in Deltas(bs) && InRoots(Deltas(bs)[n].manifest.roots, p) ensures Ptr(d3, p) == Ptr(d1, p) {
      var i :| 0 <= i < |bs[n].manifest.roots| && InArea(bs[n].manifest.roots[i], p);
      var t := bs[n].manifest.roots[i];
      assert n in Deltas(bs) && t in Deltas(bs)[n].manifest.roots;
      assert t in BatchRoots(Deltas(bs));
      ApartFromOthers(t, p, EraseSet(ms, snaps));
      ApartFromOthers(t, p, BatchRoots(snaps));
    }
  }

  /** Above an erased root that lies above a delta's root, the outermost path to be changed is erased as well. */
  lemma {:induction false} ErasedTop(ms: Manifests, bs: Batch, t: string, r: string) returns (s: Path)
    requires AllUsable(bs) && !Collides(ms, bs) && SameRoots(ms, Deltas(bs)) && AllOrdinary(Concerned(ms, bs))
    requires t in BatchRoots(Deltas(bs)) && r in EraseSet(ms, Snapshots(bs)) && Area(r) <= Area(t)
    ensures Top(PathsOf(Concerned(ms, bs)), s) && s in PathsOf(EraseSet(ms, Snapshots(bs))) && s <= Area(r)
  {
    var u, erase := Concerned(ms, bs), EraseSet(ms, Snapshots(bs));
    SubsetRoots(ms, bs);
    StoredIn(r, u);
    s := TopAbove(PathsOf(u), Area(r));
    var x := NamedRoot(u, s);
    ErasedOrDelta(ms, bs, x);
    if x in erase {
      StoredIn(x, erase);
    } else {
      PrefixChain(s, Area(r), Area(t));
      DeltaTop(ms, bs, t, x);
      StoredIn(r, erase);
    }
  }

  lemma {:induction false} LostAbove(d1: Json, d2: Json, ms: Manifests, bs: Batch, t: string, r: string, p: Path)
    requires AllUsable(bs) && !Collides(ms, bs) && SameRoots(ms, Deltas(bs)) && AllOrdinary(Concerned(ms, bs))
    requires Erasing(d1, d2, PathsOf(Concerned(ms, bs)), PathsOf(EraseSet(ms, Snapshots(bs))))
    requires t in BatchRoots(Deltas(bs)) && r in EraseSet(ms, Snapshots(bs)) && Area(r) <= Area(t) && InArea(t, p)
    ensures Ptr(d2, p) == None
  {
    var s := ErasedTop(ms, bs, t, r);
    ErasedBelow(d1, d2, PathsOf(Concerned(ms, bs)), PathsOf(EraseSet(ms, Snapshots(bs))), s, p);
  }

  lemma {:induction false} DeltaTop(ms: Manifests, bs: Batch, t: string, x: string)
    requires AllUsable(bs) && !Collides(ms, bs) && t in BatchRoots(Deltas(bs)) && x in BatchRoots(Deltas(bs)) && Area(x) <= Area(t)
    ensures x == t
  {
    assert x in BatchRoots(bs);
    if x != t { BatchApart(ms, bs, t, x); }
  }

  /** Filling for the snapshots puts nothing in the areas of the deltas. */
  lemma {:induction false} FillApart(d2: Json, d3: Json, ms: Manifests, bs: Batch, t: string, p: Path)
    requires !Collides(ms, bs) && AllOrdinary(Concerned(ms, bs)) && t in BatchRoots(Deltas(bs)) && InArea(t, p)
    requires Confined(d2, d3, PathsOf(BatchRoots(Snapshots(bs))))
    ensures Ptr(d3, p) == Ptr(d2, p)
  {
    SubsetRoots(ms, bs);
    forall r | r in BatchRoots(Snapshots(bs)) ensures !Overlaps(t, r) {
      KindsApart(ms, bs, t, r);
    }
    ApartFromOthers(t, p, BatchRoots(Snapshots(bs)));
  }

  lemma {:induction false} Losses(d1: Json, d2: Json, d3: Json, ms: Manifests, bs: Batch)
    requires AllUsable(bs) && !Collides(ms, bs) && SameRoots(ms, Deltas(bs)) && AllOrdinary(Concerned(ms, bs))
    requires Erasing(d1, d2, PathsOf(Concerned(ms, bs)), PathsOf(EraseSet(ms, Snapshots(bs))))
    requires var region := PathsOf(EraseSet(ms, Snapshots(bs))); Erasable(d1, region) ==> Erased(d1, d2, region)
    requires Confined(d2, d3, PathsOf(BatchRoots(Snapshots(bs))))
    ensures LostToSnapshots(d1, d3, ms, bs)
  {
    var erase := EraseSet(ms, Snapshots(bs));
    SubsetRoots(ms, bs);
    forall t, r, p: Path | t in BatchRoots(Deltas(bs)) && r in erase && InArea(t, p) && InArea(r, p) &&
                           (Area(r) <= Area(t) || Erasable(d1, PathsOf(erase)))
      ensures Ptr(d3, p) == None
    {
      FillApart(d2, d3, ms, bs, t, p);
      if Area(r) <= Area(t) {
        LostAbove(d1, d2, ms, bs, t, r, p);
      } else {
        StoredIn(r, erase);
        PtrBelow(d2, Area(r), p);
      }
    }
  }

  /** Nothing is left at the roots of the bundles, and nobody else's data changed. */
  ghost predicate Deactivated(d: Json, d': Json, ms: Manifests, names: set<string>) {
    && Good(d', ms - names)
    && Untouched(d, d', ms, names)
    && forall n, p | n in names && n in ms && InRoots(ms[n].roots, p) :: Ptr(d', p) == None
  }

  /** On a good store nothing is in the way of a batch whose deltas are spared, if no root to be erased lies below another. */
  lemma {:induction false} UnnestedOrderly(d: Json, ms: Manifests, bs: Batch)
    requires Good(d, ms) && AllUsable(bs) && !Collides(ms, bs) && SameRoots(ms, Deltas(bs)) && SparesDeltas(ms, bs)
    requires forall r, t | r in EraseSet(ms, Snapshots(bs)) && t in EraseSet(ms, Snapshots(bs)) :: !(Area(r) < Area(t))
    ensures Orderly(d, ms, bs)
  {
    var erase := EraseSet(ms, Snapshots(bs));
    ConcernedErasable(d, ms, bs);
    SparedErasable(d, ms, bs);
    SubsetRoots(ms, bs);
    forall e | e in PathsOf(erase) ensures Clear(d, e) {
      forall x | x in PathsOf(erase) ensures !(x < e) {
        var r := NamedRoot(erase, x);
        var t := NamedRoot(erase, e);
      }
      assert Top(PathsOf(erase), e);
    }
  }

  lemma {:induction false} RecordedTogether(ms: Manifests, bs: Batch)
    ensures Recorded(Recorded(ms, Deltas(bs)) - Snapshots(bs).Keys, Snapshots(bs)) == Recorded(ms, bs)
  {
    var l, r := Recorded(Recorded(ms, Deltas(bs)) - Snapshots(bs).Keys, Snapshots(bs)), Recorded(ms, bs);
    forall n ensures n in l <==> n in r {
      if n in bs { assert n in Deltas(bs) || n in Snapshots(bs); }
    }
    forall n | n in r ensures l[n] == r[n] {
      if n in bs { assert n in Deltas(bs) || n in Snapshots(bs); }
    }
  }

  lemma {:induction false} FilledBelow(d2: Json, d3: Json, ms: Manifests, bs: Batch, d1: Json, p: Path)
    requires SameRoots(ms, Deltas(bs)) && AllOrdinary(Concerned(ms, bs))
    requires Erasing(d1, d2, PathsOf(Concerned(ms, bs)), PathsOf(EraseSet(ms, Snapshots(bs))))
    requires Confined(d2, d3, PathsOf(BatchRoots(Snapshots(bs))))
    requires Filled(Ptr(d3, p)) && Beneath(PathsOf(Concerned(ms, bs)), p)
    ensures exists r | r in BatchRoots(bs) :: InArea(r, p)
  {
    var u, erase, snaps := Concerned(ms, bs), EraseSet(ms, Snapshots(bs)), BatchRoots(Snapshots(bs));
    SubsetRoots(ms, bs);
    var q :| q in PathsOf(u) && q <= p;
    var s := TopAbove(PathsOf(u), q);
    var x := NamedRoot(u, s);
    ErasedOrDelta(ms, bs, x);
    if x in BatchRoots(Deltas(bs)) {
      assert x in BatchRoots(bs) && InArea(x, p);
    } else {
      StoredIn(x, erase);
      ErasedBelow(d1, d2, PathsOf(u), PathsOf(erase), s, p);
      FilledInside(d2, d3, PathsOf(snaps), p);
      var y :| y in PathsOf(snaps) && y <= p;
      var r := NamedRoot(snaps, y);
      assert r in BatchRoots(bs) && InArea(r, p);
    }
  }

  lemma {:induction false} OwnedByBatch(ms: Manifests, bs: Batch, p: Path)
    requires exists r | r in BatchRoots(bs) :: InArea(r, p)
    ensures HasOwner(Recorded(ms, bs), p)
  {
    var r :| r in BatchRoots(bs) && InArea(r, p);
    var n :| n in bs && r in bs[n].manifest.roots;
    InRootsMember(bs[n].manifest.roots, r, p);
    assert n in Recorded(ms, bs) && Recorded(ms, bs)[n] == bs[n].manifest;
  }

  /** Whatever the batch, afterwards every value has an owner. */
  lemma {:induction false} OwnedAfterActivation(d0: Json, d1: Json, d2: Json, d3: Json, ms: Manifests, bs: Batch)
    requires Owned(d0, ms) && SameRoots(ms, Deltas(bs)) && AllOrdinary(Concerned(ms, bs))
    requires Confined(d0, d3, PathsOf(Concerned(ms, bs)))
    requires Erasing(d1, d2, PathsOf(Concerned(ms, bs)), PathsOf(EraseSet(ms, Snapshots(bs))))
    requires Confined(d2, d3, PathsOf(BatchRoots(Snapshots(bs))))
    ensures Owned(d3, Recorded(ms, bs))
  {
    var ms' := Recorded(ms, bs);
    forall p | Filled(Ptr(d3, p)) ensures HasOwner(ms', p) {
      if Beneath(PathsOf(Concerned(ms, bs)), p) {
        FilledBelow(d2, d3, ms, bs, d1, p);
        OwnedByBatch(ms, bs, p);
      } else {
        OwnedElsewhere(d0, d3, ms, bs, p);
        var n :| n in ms && n !in bs && InRoots(ms[n].roots, p);
        assert n in ms' && ms'[n] == ms[n];
      }
    }
  }

  lemma {:induction false} ActivationKeepsSystem(d0: Json, d1: Json, d3: Json, ms: Manifests, bs: Batch)
    requires d0.Obj? && Ruled(ms) && AllUsable(bs)
    requires StaysIn(d0, d1, PathsOf(BatchRoots(Deltas(bs)))) && StaysIn(d1, d3, PathsOf(EraseSet(ms, Snapshots(bs))))
    ensures SystemKept(d0, d3)
  {
    var u := Concerned(ms, bs);
    ConcernedOrdinary(ms, bs);
    SubsetRoots(ms, bs);
    PathsWider(BatchRoots(Deltas(bs)), u);
    PathsWider(EraseSet(ms, Snapshots(bs)), u);
    StaysSame(d0, PathsOf(u));
    StaysMore(d0, d1, PathsOf(BatchRoots(Deltas(bs))), PathsOf(u));
    StaysTwice(d0, d1, d3, PathsOf(u), PathsOf(EraseSet(ms, Snapshots(bs))));
    SystemApart(d0, d3, u);
  }

  /** What the phases ensure together. */
  lemma {:induction false} PhasesDone(d0: Json, d1: Json, d2: Json, d3: Json, ms: Manifests, bs: Batch, order: seq<string>)
    requires !Collides(ms, bs) && Compatible(ms, Deltas(bs))
    requires IsOrder(order, Deltas(bs).Keys) && PatchInOrder(d0, Deltas(bs), order) == Done(d1)
    requires Independent(d0, Deltas(bs)) ==> Alone(d0, d1, Deltas(bs), {})
    requires d0.Obj? && AllUsable(bs) ==> d1.Obj? && StaysIn(d0, d1, PathsOf(BatchRoots(Deltas(bs))))
    requires Underway(d0, d1, ms, bs) ==> SnapshotsErased(d1, d2, ms, bs) && Filling(d2, d3, Snapshots(bs), {})
    requires d1.Obj? && AllUsable(bs) && AllOrdinary(Concerned(ms, bs)) ==> StaysIn(d1, d3, PathsOf(EraseSet(ms, Snapshots(bs))))
    ensures Good(d0, ms) && AllUsable(bs) ==> Activated(d0, d3, ms, bs)
    ensures Ruled(ms) && AllUsable(bs) && d0.Obj? ==> SystemKept(d0, d3)
  {
    AfterPatching(d0, d1, ms, bs);
    if Good(d0, ms) && AllUsable(bs) {
      FinishActivation(d0, d1, d2, d3, ms, bs, order);
    }
    if Ruled(ms) && AllUsable(bs) && d0.Obj? {
      ConcernedOrdinary(ms, bs);
      ActivationKeepsSystem(d0, d1, d3, ms, bs);
    }
  }

  lemma {:induction false} RecordedOrdinary(ms: Manifests, names: set<string>)
    requires Ruled(ms)
    ensures AllOrdinary(RecordedRoots(ms, names))
  {
  }

  /** The three phases together change nothing but what the batch may change. */
  lemma {:induction false} PhasesConfined(d0: Json, d1: Json, d2: Json, d3: Json, ms: Manifests, bs: Batch)
    requires Confined(d0, d1, PathsOf(Concerned(ms, bs))) && Confined(d1, d2, PathsOf(Concerned(ms, bs)))
    requires Confined(d2, d3, PathsOf(BatchRoots(Snapshots(bs))))
    ensures Confined(d0, d3, PathsOf(Concerned(ms, bs)))
  {
    var region := PathsOf(Concerned(ms, bs));
    SubsetRoots(ms, bs);
    PathsWider(BatchRoots(Snapshots(bs)), Concerned(ms, bs));
    ConfinedWider(d2, d3, PathsOf(BatchRoots(Snapshots(bs))), region);
    ConfinedTwice(d0, d1, d2, region);
    ConfinedTwice(d0, d2, d3, region);
  }

  lemma {:induction false} ActivationFrame(d: Json, d': Json, ms: Manifests, bs: Batch)
    requires Disjoint(ms) && !Collides(ms, bs) && AllOrdinary(Concerned(ms, bs)) && Confined(d, d', PathsOf(Concerned(ms, bs)))
    ensures Untouched(d, d', ms, bs.Keys)
  {
    forall n, t, r | n in ms && n !in bs.Keys && t in ms[n].roots && r in Concerned(ms, bs) ensures !Overlaps(t, r) {
      BystandersApart(ms, bs, n, t, r);
    }
    FrameOf(d, d', ms, bs.Keys, Concerned(ms, bs));
  }

  lemma {:induction false} FinishActivation(d0: Json, d1: Json, d2: Json, d3: Json, ms: Manifests, bs: Batch, order: seq<string>)
    requires Good(d0, ms) && AllUsable(bs) && !Collides(ms, bs) && SameRoots(ms, Deltas(bs))
    requires Working(d0, d1, PathsOf(Concerned(ms, bs))) && SnapshotsErased(d1, d2, ms, bs) && Filling(d2, d3, Snapshots(bs), {})
    requires IsOrder(order, Deltas(bs).Keys) && PatchInOrder(d0, Deltas(bs), order) == Done(d1)
    requires Independent(d0, Deltas(bs)) ==> Alone(d0, d1, Deltas(bs), {})
    ensures Activated(d0, d3, ms, bs)
  {
    ConcernedOrdinary(ms, bs);
    PhasesConfined(d0, d1, d2, d3, ms, bs);
    ActivationFrame(d0, d3, ms, bs);
    DisjointAfter(ms, bs);
    RuledAfter(ms, bs);
    OwnedAfterActivation(d0, d1, d2, d3, ms, bs);
    FinishDeltas(d0, d1, d2, d3, ms, bs, order);
    forall n | n in bs && bs[n].Snapshot? ensures Holds(d3, bs[n]) {
      assert n in Snapshots(bs);
    }
  }

  lemma {:induction false} FinishDeltas(d0: Json, d1: Json, d2: Json, d3: Json, ms: Manifests, bs: Batch, order: seq<string>)
    requires Good(d0, ms) && AllUsable(bs) && !Collides(ms, bs) && SameRoots(ms, Deltas(bs)) && AllOrdinary(Concerned(ms, bs))
    requires Working(d0, d1, PathsOf(Concerned(ms, bs))) && SnapshotsErased(d1, d2, ms, bs)
    requires Confined(d2, d3, PathsOf(BatchRoots(Snapshots(bs))))
    requires IsOrder(order, Deltas(bs).Keys) && PatchInOrder(d0, Deltas(bs), order) == Done(d1)
    requires Independent(d0, Deltas(bs)) ==> Alone(d0, d1, Deltas(bs), {})
    ensures DeltasApplied(d0, d3, ms, bs, order)
    ensures SparesDeltas(ms, bs) ==> PatchedAlone(d0, d3, Deltas(bs))
  {
    Losses(d1, d2, d3, ms, bs);
    if Unshadowed(d1, PathsOf(EraseSet(ms, Snapshots(bs)))) {
      UnshadowedErasable(d1, ms, bs);
      KeptExactly(d1, d2, d3, ms, bs);
    }
    if SparesDeltas(ms, bs) {
      SparedErasable(d1, ms, bs);
      DeltaFrame(d1, d2, d3, ms, bs);
      DeltasIndependent(d0, ms, bs);
      AloneInAreas(d0, d1, d3, Deltas(bs));
    }
  }

  lemma {:induction false} RecordedErasable(d: Json, ms: Manifests, names: set<string>)
    requires Good(d, ms)
    ensures AllOrdinary(RecordedRoots(ms, names)) && Erasable(d, PathsOf(RecordedRoots(ms, names)))
  {
    var erase := RecordedRoots(ms, names);
    forall n, i, r | n in ms && 0 <= i < |ms[n].roots| && r in erase && Overlaps(ms[n].roots[i], r) ensures ms[n].roots[i] in erase {
      var t := ms[n].roots[i];
      var m :| m in names && m in ms && r in ms[m].roots;
      if n !in names {
        DisjointMembers(ms[n].roots, ms[m].roots, t, r);
      } else {
        assert t in ms[n].roots;
      }
    }
    CanErase(d, ms, erase);
  }

  /** On a good store no array lies above a recorded root. */
  lemma {:induction false} RecordedUnshadowed(d: Json, ms: Manifests, names: set<string>)
    requires Good(d, ms)
    ensures Unshadowed(d, PathsOf(RecordedRoots(ms, names)))
  {
    var erase := RecordedRoots(ms, names);
    RecordedErasable(d, ms, names);
    forall e | e in PathsOf(erase) ensures Clear(d, e) {
      var r := NamedRoot(erase, e);
      var n :| n in names && n in ms && r in ms[n].roots;
      forall q: Path | q < e ensures !IsArray(Ptr(d, q)) {
        if IsArray(Ptr(d, q)) {
          assert HasOwner(ms, q);
          var k :| k in ms && InRoots(ms[k].roots, q);
          var i :| 0 <= i < |ms[k].roots| && InArea(ms[k].roots[i], q);
          var t := ms[k].roots[i];
          assert t in ms[k].roots && Overlaps(t, r) && t != r;
          if k == n {
            SeparateMembers(ms[n].roots, t, r);
          } else {
            DisjointMembers(ms[k].roots, ms[n].roots, t, r);
          }
        }
      }
    }
  }

  lemma {:induction false} FinishDeactivation(d: Json, d': Json, ms: Manifests, names: set<string>)
    requires Good(d, ms) && Erased(d, d', PathsOf(RecordedRoots(ms, names)))
    ensures Deactivated(d, d', ms, names)
  {
    var erase := RecordedRoots(ms, names);
    RecordedErasable(d, ms, names);
    OwnedAfterErase(d, d', ms, ms - names, erase);
    forall n, t, r | n in ms && n !in names && t in ms[n].roots && r in erase ensures !Overlaps(t, r) {
      var m :| m in names && m in ms && r in ms[m].roots;
      DisjointMembers(ms[n].roots, ms[m].roots, t, r);
    }
    FrameOf(d, d', ms, names, erase);
    forall n, p | n in names && n in ms && InRoots(ms[n].roots, p) ensures Ptr(d', p) == None {
      var i :| 0 <= i < |ms[n].roots| && InArea(ms[n].roots[i], p);
      var t := ms[n].roots[i];
      assert t in ms[n].roots;
      StoredIn(t, erase);
      PtrBelow(d', Area(t), p);
    }
  }

  // The empty root.

  /** A good store, except that a bundle may own the whole document. */
  ghost predicate Sound(d: Json, ms: Manifests) {
    && d.Obj? && Disjoint(ms) && Owned(d, ms)
    && forall n | n in ms :: Separate(ms[n].roots) && forall r | r in ms[n].roots :: r == "" || Ordinary(r)
  }

  /** Nothing is stored at the root. */
  predicate Emptied(d: Json, r: string) {
    if r == "" then d == Obj(map[]) else Ptr(d, Area(r)) == None
  }

  /** The empty root overlaps every other, so it is the only one. */
  lemma {:induction false} OnlyRoot(d: Json, ms: Manifests, n: string, m: string, r: string)
    requires Sound(d, ms) && n in ms && "" in ms[n].roots && m in ms && r in ms[m].roots
    ensures r == ""
  {
    if r != "" {
      assert Overlaps("", r);
      if m == n {
        SeparateMembers(ms[n].roots, "", r);
      } else {
        DisjointMembers(ms[n].roots, ms[m].roots, "", r);
      }
    }
  }

  /** A deactivation empties a root exactly when it is not the empty one, or nothing was stored. */
  lemma {:induction false} EmptiedExactly(d: Json, d': Json, ms: Manifests, names: set<string>)
    requires Sound(d, ms)
    requires Good(d, ms) ==> Deactivated(d, d', ms, names)
    requires RecordedRoots(ms, names) <= {""} ==> d' == d
    ensures forall n, r | n in names && n in ms && r in ms[n].roots :: Emptied(d', r) <==> r != "" || d == Obj(map[])
  {
    forall n, r | n in names && n in ms && r in ms[n].roots ensures Emptied(d', r) <==> r != "" || d == Obj(map[]) {
      if k :| k in ms && "" in ms[k].roots {
        OnlyRoot(d, ms, k, n, r);
        forall t | t in RecordedRoots(ms, names) ensures t == "" {
          var m :| m in names && m in ms && t in ms[m].roots;
          OnlyRoot(d, ms, k, m, t);
        }
      } else {
        assert Good(d, ms);
        InRootsMember(ms[n].roots, r, Area(r));
      }
    }
  }
}
