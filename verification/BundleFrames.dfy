/** What activation does to policies, and where the guarantees of bundle roots end. */
module BundleFrames {
  import opened Syntax
  import opened RootPaths
  import opened Documents
  import opened Bundles
  import opened Activation
  import opened DeltaPatching
  import opened ActivationResult
  import opened BundleStore
  import LocalVars

  /** A policy in the area of a bundle outside the batch survives, unless a new module takes its id. */
  lemma {:induction false} PoliciesUntouched(ms: Manifests, bs: Batch, ps: map<string, Policy>, ps': map<string, Policy>, n: string, id: string)
    requires Disjoint(ms) && !Collides(ms, bs)
    requires Upserted(Kept(ps, EraseSet(ms, Snapshots(bs))), ps', Modules(Snapshots(bs)))
    requires n in ms && n !in bs && id in ps && ps[id].pkg.Some? && InRoots(ms[n].roots, Area(ps[id].pkg.value))
    requires !Defines(Modules(Snapshots(bs)), id)
    ensures id in ps' && ps'[id] == ps[id]
  {
    var p, erase := Area(ps[id].pkg.value), EraseSet(ms, Snapshots(bs));
    var i :| 0 <= i < |ms[n].roots| && InArea(ms[n].roots[i], p);
    var t := ms[n].roots[i];
    assert t in ms[n].roots;
    SubsetRoots(ms, bs);
    forall r | r in erase ensures !InArea(r, p) {
      BystandersApart(ms, bs, n, t, r);
      if InArea(r, p) { PrefixesComparable(Area(t), Area(r), p); }
    }
    assert !Under(ps[id], erase);
  }

  /** After a snapshot activation the policies in the bundle's area, old or new, are modules of the batch. */
  lemma {:induction false} PoliciesReplaced(ms: Manifests, bs: Batch, ps: map<string, Policy>, ps': map<string, Policy>, n: string, id: string)
    requires Upserted(Kept(ps, EraseSet(ms, Snapshots(bs))), ps', Modules(Snapshots(bs)))
    requires n in Snapshots(bs) && id in ps' && ps'[id].pkg.Some?
    requires var p := Area(ps'[id].pkg.value);
             InRoots(bs[n].manifest.roots, p) || (n in ms && InRoots(ms[n].roots, p))
    ensures Module(id, ps'[id]) in Modules(Snapshots(bs))
  {
    var p, snaps := Area(ps'[id].pkg.value), Snapshots(bs);
    var roots := if InRoots(bs[n].manifest.roots, p) then bs[n].manifest.roots else ms[n].roots;
    var i :| 0 <= i < |roots| && InArea(roots[i], p);
    var r := roots[i];
    assert r in EraseSet(ms, snaps) by {
      if InRoots(bs[n].manifest.roots, p) {
        assert n in snaps && r in snaps[n].manifest.roots;
      } else {
        assert n in snaps.Keys && r in ms[n].roots;
      }
    }
    assert Under(ps'[id], EraseSet(ms, snaps));
  }

  /** After a deactivation no policy is left in the area of a deactivated bundle. */
  lemma {:induction false} PoliciesGone(ms: Manifests, names: set<string>, ps: map<string, Policy>, n: string, id: string)
    requires n in names && n in ms && id in Kept(ps, RecordedRoots(ms, names)) && ps[id].pkg.Some?
    ensures !InRoots(ms[n].roots, Area(ps[id].pkg.value))
  {
    var p := Area(ps[id].pkg.value);
    forall i | 0 <= i < |ms[n].roots| ensures !InArea(ms[n].roots[i], p) {
      var r := ms[n].roots[i];
      assert r in ms[n].roots;
      assert r in RecordedRoots(ms, names);
    }
  }

  // Where the guarantees end.

  /** A bundle that owns the whole document leaves it behind when it is deactivated. */
  method WholeDocumentStays(s: Store, name: string) returns (ok: bool)
    requires s.manifests == map[name := Manifest([""], [])] && s.policies == map[]
    modifies s
    ensures ok && s.data == old(s.data) && s.manifests == map[]
  {
    ok := s.Deactivate({name});
  }

  /** The root `system` takes in the manifests of all bundles, which are kept below it. */
  lemma {:induction false} SystemRootErases(x: Json, name: string)
    ensures var d := Obj(map["system" := x]);
            && InArea("system", ["system", "bundles", name, "manifest"])
            && WriteBelow(d, Remove, StoragePath("system"), Leaf(Null)) == Done(Obj(map[]))
  {
    SplitSolid("system");
    PlainStorage("system");
    assert map["system" := x] - {"system"} == map[];
  }

  /** Whether the roots `a` and `a/1` can be erased from `{"a": [x]}` depends on which comes first. */
  lemma {:induction false} NestedRootsByOrder(x: Json, v: Json)
    ensures var d := Obj(map["a" := Arr([x])]);
            && WriteBelow(d, Remove, StoragePath("a/1"), v) == Invalid
            && WriteBelow(d, Remove, StoragePath("a"), v) == Done(Obj(map[]))
            && WriteBelow(Obj(map[]), Remove, StoragePath("a/1"), v) == NotFound
  {
    SplitPair('a', '1');
    SplitSolid("a");
    PlainStorage("a/1");
    PlainStorage("a");
    NestedRemoval(x, v);
  }

  lemma {:induction false} NestedRemoval(x: Json, v: Json)
    ensures WriteBelow(Obj(map["a" := Arr([x])]), Remove, ["a", "1"], v) == Invalid
    ensures WriteBelow(Obj(map["a" := Arr([x])]), Remove, ["a"], v) == Done(Obj(map[]))
    ensures WriteBelow(Obj(map[]), Remove, ["a", "1"], v) == NotFound
  {
    assert ["a", "1"][1..] == ["1"];
    assert LocalVars.Decimal(1) == "1";
    assert map["a" := Arr([x])] - {"a"} == map[];
  }

  /** Below an array that no bundle owns, erasing one root moves the values of its neighbours. */
  lemma {:induction false} ArrayNeighbourMoves(x: Json, y: Json)
    ensures var d := Obj(map["a" := Arr([x, y])]);
            && !Overlaps("a/0", "a/1")
            && Ptr(d, StoragePath("a/1")) == Some(y)
            && WriteBelow(d, Remove, StoragePath("a/0"), x) == Done(Obj(map["a" := Arr([y])]))
            && Ptr(Obj(map["a" := Arr([y])]), StoragePath("a/1")) == None
  {
    SplitPair('a', '0');
    SplitPair('a', '1');
    PlainStorage("a/0");
    PlainStorage("a/1");
    DigitIndex('0');
    DigitIndex('1');
    NeighbourMoves(x, y);
  }

  lemma {:induction false} NeighbourMoves(x: Json, y: Json)
    requires ArrayIndex("0") == Some(0) && ArrayIndex("1") == Some(1)
    ensures Ptr(Obj(map["a" := Arr([x, y])]), ["a", "1"]) == Some(y)
    ensures WriteBelow(Obj(map["a" := Arr([x, y])]), Remove, ["a", "0"], x) == Done(Obj(map["a" := Arr([y])]))
    ensures Ptr(Obj(map["a" := Arr([y])]), ["a", "1"]) == None
  {
    assert ["a", "0"][1..] == ["0"] && ["a", "1"][1..] == ["1"] && ["1"][1..] == [];
    assert [x, y][..0] + [x, y][1..] == [y];
    var fields := map["a" := Arr([x, y])];
    assert fields["a" := Arr([y])] == map["a" := Arr([y])];
  }

  lemma {:induction false} SplitPair(a: char, b: char)
    requires a != '/' && b != '/'
    ensures Split([a, '/', b]) == [[a], [b]]
  {
    var s, t := [a, '/', b], ['/', b];
    assert s[1..] == t && t[1..] == [b];
    SplitSolid([b]);
    assert Split(t) == ["", [b]];
    assert [a] + "" == [a];
    assert Split(s) == [[a]] + [[b]];
  }

  lemma {:induction false} DigitIndex(c: char)
    requires '0' <= c <= '9'
    ensures ArrayIndex([c]) == Some(c as nat - '0' as nat)
  {
    assert [c][..0] == "";
    assert Digits([c]) == Some(10 * 0 + (c as nat - '0' as nat));
  }

  /** Deltas are spared exactly when they stay clear of the roots that snapshots of the batch had before. */
  lemma {:induction false} SparesDeltasExactly(ms: Manifests, bs: Batch)
    requires !Collides(ms, bs)
    ensures SparesDeltas(ms, bs) <==>
            forall n, m | n in Deltas(bs) && m in Snapshots(bs) && m in ms :: RootsDisjoint(bs[n].manifest.roots, ms[m].roots)
  {
    var deltas, snaps := Deltas(bs), Snapshots(bs);
    if SparesDeltas(ms, bs) {
      forall n, m, i, j | n in deltas && m in snaps && m in ms && 0 <= i < |bs[n].manifest.roots| && 0 <= j < |ms[m].roots|
        ensures !Overlaps(bs[n].manifest.roots[i], ms[m].roots[j])
      {
        var t, r := bs[n].manifest.roots[i], ms[m].roots[j];
        assert m in snaps.Keys && r in ms[m].roots && t in deltas[n].manifest.roots;
        assert t in BatchRoots(deltas);
      }
    }
    if forall n, m | n in deltas && m in snaps && m in ms :: RootsDisjoint(bs[n].manifest.roots, ms[m].roots) {
      forall t, r | t in BatchRoots(deltas) && r in EraseSet(ms, snaps) ensures !Overlaps(t, r) {
        if r in BatchRoots(snaps) {
          KindsApart(ms, bs, t, r);
        } else {
          var n :| n in deltas && t in deltas[n].manifest.roots;
          var m :| m in snaps && m in ms && r in ms[m].roots;
          DisjointMembers(bs[n].manifest.roots, ms[m].roots, t, r);
        }
      }
    }
  }

  /** In a root that a snapshot of the batch had before, a delta's area is kept exactly when its patches left nothing there. */
  lemma {:induction false} LostExactly(d: Json, d': Json, ms: Manifests, bs: Batch, order: seq<string>, t: string, r: string)
    requires DeltasApplied(d, d', ms, bs, order)
    requires t in BatchRoots(Deltas(bs)) && r in EraseSet(ms, Snapshots(bs)) && Area(r) <= Area(t)
    ensures var d1 := PatchInOrder(d, Deltas(bs), order).doc;
            (forall p | InArea(t, p) :: Ptr(d', p) == Ptr(d1, p)) <==> Ptr(d1, Area(t)) == None
  {
    var d1 := PatchInOrder(d, Deltas(bs), order).doc;
    assert InArea(t, Area(t)) && InArea(r, Area(t));
    if Ptr(d1, Area(t)) == None {
      forall p | InArea(t, p) ensures Ptr(d', p) == Ptr(d1, p) {
        PtrBelow(d1, Area(t), p);
        assert InArea(r, p);
      }
    }
  }

  /**
    A snapshot that gives up a root erases it after a first delta of another bundle has patched it: nothing
    is left there, and what the patches put there is lost.
   */
  lemma {:induction false} MovedRootErasesDelta(d: Json, d': Json, patches: seq<Patch>)
    ensures var ms: Manifests := map["m" := Manifest(["a"], [])];
            var bs: Batch := map["m" := Snapshot(Manifest(["b"], []), map[], []), "n" := Delta(Manifest(["a"], []), patches)];
            && Disjoint(ms) && !Collides(ms, bs) && SameRoots(ms, Deltas(bs))
            && forall order | DeltasApplied(d, d', ms, bs, order) ::
                 && Ptr(d', ["a"]) == None
                 && (Ptr(PatchInOrder(d, Deltas(bs), order).doc, ["a"]).Some? ==>
                       !SameInAreas(PatchInOrder(d, Deltas(bs), order).doc, d', Deltas(bs)))
  {
    var ms: Manifests := map["m" := Manifest(["a"], [])];
    var bs: Batch := map["m" := Snapshot(Manifest(["b"], []), map[], []), "n" := Delta(Manifest(["a"], []), patches)];
    SplitSolid("a");
    SplitSolid("b");
    MovedRootClaimed(ms, bs, patches);
    MovedRootErased(ms, bs, patches);
    forall order | DeltasApplied(d, d', ms, bs, order)
      ensures Ptr(d', ["a"]) == None
      ensures Ptr(PatchInOrder(d, Deltas(bs), order).doc, ["a"]).Some? ==>
                !SameInAreas(PatchInOrder(d, Deltas(bs), order).doc, d', Deltas(bs))
    {
      assert InArea("a", ["a"]);
      InRootsMember(["a"], "a", ["a"]);
      assert InRoots(Deltas(bs)["n"].manifest.roots, ["a"]);
    }
  }

  lemma {:induction false} MovedRootClaimed(ms: Manifests, bs: Batch, patches: seq<Patch>)
    requires Area("a") == ["a"] && Area("b") == ["b"]
    requires ms == map["m" := Manifest(["a"], [])]
    requires bs == map["m" := Snapshot(Manifest(["b"], []), map[], []), "n" := Delta(Manifest(["a"], []), patches)]
    ensures !Collides(ms, bs)
  {
  }

  lemma {:induction false} MovedRootErased(ms: Manifests, bs: Batch, patches: seq<Patch>)
    requires ms == map["m" := Manifest(["a"], [])]
    requires bs == map["m" := Snapshot(Manifest(["b"], []), map[], []), "n" := Delta(Manifest(["a"], []), patches)]
    ensures "a" in EraseSet(ms, Snapshots(bs)) && "a" in BatchRoots(Deltas(bs)) && "n" in Deltas(bs)
  {
    assert "m" in Snapshots(bs).Keys && "a" in ms["m"].roots;
    assert "n" in Deltas(bs) && "a" in Deltas(bs)["n"].manifest.roots;
  }
}
