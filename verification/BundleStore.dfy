/** The store that bundles are activated in. */
module BundleStore {
  import opened Syntax
  import opened RootPaths
  import opened Documents
  import opened Regions
  import opened Bundles
  import opened Activation
  import opened DeltaPatching
  import opened SnapshotFilling
  import opened ActivationResult

  /** The value at a path of a bundle's data. */
  method Lookup(path: Path, data: map<string, Json>) returns (r: Option<Json>)
    ensures r == Find(Obj(data), path)
  {
    if path == [] {
      return Some(Obj(data));
    }
    var curr := data;
    for i := 0 to |path| - 1
      invariant Find(Obj(data), path) == Find(Obj(curr), path[i..])
    {
      assert path[i..][1..] == path[i + 1..];
      if path[i] !in curr {
        return None;
      }
      if !curr[path[i]].Obj? {
        return None;
      }
      curr := curr[path[i]].fields;
    }
    var last := path[|path| - 1];
    assert path[|path| - 1..] == [last];
    return if last in curr then Some(curr[last]) else None;
  }

  class Store {
    var data: Json
    var policies: map<string, Policy>
    var manifests: Manifests

    constructor ()
      ensures data == Obj(map[]) && policies == map[] && manifests == map[]
    {
      data, policies, manifests := Obj(map[]), map[], map[];
    }

    /**
      Removes what is stored at the roots, in any order; a root that holds nothing is no error. The empty root
      is passed over.
     */
    method EraseData(roots: set<string>) returns (ok: bool)
      modifies `data
      ensures ok ==> forall region: set<Path> | PathsOf(roots) <= region && Erasable(old(data), region) ::
                       Erasing(old(data), data, region, PathsOf(roots))
      ensures roots <= {""} ==> ok && data == old(data)
      ensures old(data).Obj? && Unshadowed(old(data), PathsOf(roots)) ==>
                ok && Confined(old(data), data, Occupied(old(data), PathsOf(roots)))
    {
      var todo := roots;
      ghost var done: set<Path> := {};
      ghost var unshadowed := data.Obj? && Unshadowed(data, PathsOf(roots));
      if unshadowed {
        ClearingStart(data, PathsOf(roots));
      }
      forall region: set<Path> | Erasable(data, region) ensures Erasing(data, data, region, {}) {
        EraseStart(data, region);
      }
      while todo != {}
        invariant todo <= roots && done == PathsOf(roots - todo)
        invariant forall region: set<Path> | PathsOf(roots) <= region && Erasable(old(data), region) ::
                    Erasing(old(data), data, region, done)
        invariant roots <= {""} ==> data == old(data)
        invariant unshadowed ==> Clearing(old(data), data, PathsOf(roots))
        decreases todo
      {
        var root :| root in todo;
        ghost var before := todo;
        todo := todo - {root};
        var path := StoragePath(root);
        DoneNext(roots, before, root);
        if path != [] {
          ghost var d := data;
          if unshadowed {
            assert path in PathsOf(roots);
            ClearingStep(old(data), data, PathsOf(roots), path, Leaf(Null));
          }
          match Write(data, Remove, path, Leaf(Null)) {
            case Done(d') => data := d';
            case NotFound =>
            case Invalid => return false;
          }
          forall region: set<Path> | PathsOf(roots) <= region && Erasable(old(data), region)
            ensures Erasing(old(data), data, region, done + {path})
          {
            EraseStep(old(data), d, region, done, path, Leaf(Null));
          }
        }
        done := PathsOf(roots - todo);
      }
      assert roots - todo == roots;
      return true;
    }

    /** Deletes the policies whose packages lie under the roots; a policy that does not parse is an error. */
    method ErasePolicies(roots: set<string>) returns (ok: bool)
      modifies `policies
      ensures ok <==> AllParse(old(policies))
      ensures ok ==> policies == Kept(old(policies), roots)
    {
      var ids := policies.Keys;
      while ids != {}
        invariant ids <= old(policies).Keys
        invariant forall id | id in old(policies).Keys - ids :: old(policies)[id].pkg.Some?
        invariant forall id :: id in policies <==> id in old(policies) && (id in ids || !Under(old(policies)[id], roots))
        invariant forall id | id in policies :: policies[id] == old(policies)[id]
        decreases ids
      {
        var id :| id in ids;
        var pkg := policies[id].pkg;
        if pkg.None? {
          return false;
        }
        var covered := AnyRootContains(roots, pkg.value);
        if covered {
          policies := policies - {id};
        }
        ids := ids - {id};
      }
      return true;
    }

    static method AnyRootContains(roots: set<string>, path: string) returns (r: bool)
      ensures r <==> exists root | root in roots :: InArea(root, Area(path))
    {
      var todo := roots;
      while todo != {}
        invariant todo <= roots && forall root | root in roots - todo :: !InArea(root, Area(path))
        decreases todo
      {
        var root :| root in todo;
        todo := todo - {root};
        r := RootPathsContain([root], path);
        assert r ==> InArea([root][0], Area(path));
        if r {
          return;
        }
        assert !(Area([root][0]) <= Area(path));
      }
      return false;
    }

    /** Writes the bundle's values at its roots. */
    method WriteData(roots: seq<string>, value: map<string, Json>) returns (ok: bool)
      modifies `data
      ensures ok && Vacant(old(data), roots) && Separate(roots) ==> Placed(old(data), data, roots, Obj(value))
      ensures roots == [""] ==> ok && data == Obj(value)
      ensures ok && old(data).Obj? && AllOrdinary(RootSet(roots)) ==> data.Obj? && StaysIn(old(data), data, PathsOf(RootSet(roots)))
      ensures Writable(old(data), roots) ==> ok
    {
      WritingStart(data, roots, Obj(value));
      for i := 0 to |roots|
        invariant Writing(old(data), data, roots, Obj(value), i)
        invariant roots == [""] && i == 1 ==> data == Obj(value)
      {
        ghost var d := data;
        ok := WriteRoot(roots[i], value);
        WriteSucceeds(old(data), d, data, roots, Obj(value), i, ok);
        if !ok {
          return;
        }
        WritingStep(old(data), d, data, roots, Obj(value), i);
      }
      return true;
    }

    method WriteRoot(root: string, value: map<string, Json>) returns (ok: bool)
      modifies `data
      ensures WroteRoot(old(data), data, root, Obj(value), ok)
    {
      var path := StoragePath(root);
      var v := Lookup(path, value);
      if v.None? {
        return true;
      }
      ok := WriteValue(path, v.value);
    }

    /** Makes the directory of the path, and adds the value there. */
    method WriteValue(path: Path, v: Json) returns (ok: bool)
      modifies `data
      ensures path == [] ==> (ok <==> v.Obj?) && (ok ==> data == v)
      ensures path != [] ==> (ok <==> CanWrite(old(data), path, v)) && (ok ==> Wrote(old(data), data, path, v))
    {
      if path != [] {
        match MakeDir(data, path[..|path| - 1]) {
          case Done(d) => data := d;
          case _ => return false;
        }
      }
      match Write(data, Add, path, v) {
        case Done(d) => data := d;
        case _ => return false;
      }
      return true;
    }

    method ApplyPatches(patches: seq<Patch>, ghost roots: seq<string>) returns (ok: bool)
      modifies `data
      ensures ok <==> PatchDoc(old(data), patches).Done?
      ensures ok ==> data == PatchDoc(old(data), patches).doc
      ensures ok && old(data).Obj? && Patchable(roots) && AllCovered(roots, patches) ==>
                data.Obj? && StaysIn(old(data), data, PathsOf(RootSet(roots)))
    {
      ghost var ready := data.Obj? && Patchable(roots) && AllCovered(roots, patches);
      StaysSame(data, PathsOf(RootSet(roots)));
      for i := 0 to |patches|
        invariant PatchDoc(old(data), patches[..i]) == Done(data)
        invariant ready ==> data.Obj? && StaysIn(old(data), data, PathsOf(RootSet(roots)))
      {
        assert patches[..i + 1][..i] == patches[..i];
        match ApplyPatch(data, patches[i]) {
          case Done(d) =>
            if ready {
              PatchStays(data, patches[i], roots);
              StaysTwice(old(data), data, d, PathsOf(RootSet(roots)), PathsOf(RootSet(roots)));
            }
            data := d;
          case _ =>
            if PatchDoc(old(data), patches).Done? {
              PatchDocStops(old(data), patches, i + 1);
            }
            return false;
        }
      }
      assert patches[..|patches|] == patches;
      return true;
    }

    /** Compares the roots of the new bundles with those of all others, recorded or new. */
    method HasRootsOverlap(bs: map<string, Bundle>) returns (overlap: bool)
      ensures overlap <==> Collides(manifests, bs)
    {
      var all := AllRoots(manifests, bs);
      var names := bs.Keys;
      while names != {}
        invariant names <= bs.Keys
        invariant forall n, m | n in bs.Keys - names && m in all && n != m :: RootsDisjoint(bs[n].manifest.roots, all[m])
        decreases names
      {
        var name :| name in names;
        names := names - {name};
        overlap := CollidesWithOthers(name, bs[name].manifest.roots, all);
        if overlap {
          return;
        }
      }
      return false;
    }

    static method CollidesWithOthers(name: string, roots: seq<string>, all: map<string, seq<string>>) returns (r: bool)
      ensures r <==> exists m | m in all && name != m :: !RootsDisjoint(roots, all[m])
    {
      var others := all.Keys;
      while others != {}
        invariant others <= all.Keys && forall m | m in all.Keys - others && name != m :: RootsDisjoint(roots, all[m])
        decreases others
      {
        var other :| other in others;
        others := others - {other};
        if name != other {
          r := RootsCollide(roots, all[other]);
          if r {
            return;
          }
        }
      }
      return false;
    }

    /** A delta may not change the roots or the resolvers that are recorded for its bundle. */
    method CheckDeltas(deltas: Batch) returns (ok: bool)
      ensures ok <==> Compatible(manifests, deltas)
    {
      var names := deltas.Keys;
      while names != {}
        invariant names <= deltas.Keys
        invariant forall n | n in deltas.Keys - names && n in manifests ::
          deltas[n].manifest.wasm == manifests[n].wasm && RootSet(deltas[n].manifest.roots) == RootSet(manifests[n].roots)
        decreases names
      {
        var name :| name in names;
        names := names - {name};
        if name in manifests {
          var m, r := deltas[name].manifest, manifests[name];
          if m.wasm != r.wasm || RootSet(m.roots) != RootSet(r.roots) {
            return false;
          }
        }
      }
      return true;
    }

    /**
      Applies the patches of all deltas, in any order. Deltas that cannot get in each other's way succeed
      together exactly if each does alone.
     */
    method PatchAll(deltas: Batch) returns (ok: bool, ghost order: seq<string>)
      requires forall n | n in deltas :: deltas[n].Delta?
      modifies `data
      ensures ok ==> IsOrder(order, deltas.Keys) && PatchInOrder(old(data), deltas, order) == Done(data)
      ensures ok && old(data).Obj? && AllUsable(deltas) ==> data.Obj? && StaysIn(old(data), data, PathsOf(BatchRoots(deltas)))
      ensures Independent(old(data), deltas) ==> (ok <==> AllApply(old(data), deltas))
      ensures ok && Independent(old(data), deltas) ==> Alone(old(data), data, deltas, {})
    {
      ghost var ready := data.Obj? && AllUsable(deltas);
      ghost var independent := Independent(data, deltas);
      var todo := deltas.Keys;
      order := [];
      StaysSame(data, PathsOf(BatchRoots(deltas)));
      if independent {
        AloneStart(data, deltas);
      }
      while todo != {}
        invariant todo <= deltas.Keys
        invariant IsOrder(order, deltas.Keys - todo) && PatchInOrder(old(data), deltas, order) == Done(data)
        invariant ready ==> data.Obj? && StaysIn(old(data), data, PathsOf(BatchRoots(deltas)))
        invariant independent ==> Alone(old(data), data, deltas, todo)
        decreases todo
      {
        var name :| name in todo;
        ghost var d, before, roots := data, todo, deltas[name].manifest.roots;
        todo := todo - {name};
        ok := ApplyPatches(deltas[name].patches, roots);
        if independent {
          assert before == todo + {name};
          AloneStep(old(data), d, deltas, todo, name);
        }
        if !ok {
          return;
        }
        if ready {
          assert Usable(deltas[name]);
          OwnRoots(deltas, name);
          PathsWider(RootSet(roots), BatchRoots(deltas));
          StaysTwice(old(data), d, data, PathsOf(BatchRoots(deltas)), PathsOf(RootSet(roots)));
        }
        NextInOrder(old(data), d, data, deltas, order, name, deltas.Keys - before);
        assert deltas.Keys - todo == deltas.Keys - before + {name};
        order := order + [name];
      }
      assert deltas.Keys - todo == deltas.Keys;
      ok := true;
    }

    /** Checks and patches, and records the manifests of the deltas. */
    method ActivateDeltas(deltas: Batch, conflict: bool) returns (ok: bool, ghost order: seq<string>)
      requires forall n | n in deltas :: deltas[n].Delta?
      modifies `data, `manifests
      ensures ok ==> IsOrder(order, deltas.Keys) && PatchInOrder(old(data), deltas, order) == Done(data)
      ensures ok ==> Compatible(old(manifests), deltas) && manifests == Recorded(old(manifests), deltas)
      ensures ok && old(data).Obj? && AllUsable(deltas) ==> data.Obj? && StaysIn(old(data), data, PathsOf(BatchRoots(deltas)))
      ensures Independent(old(data), deltas) ==>
                (ok <==> Compatible(old(manifests), deltas) && AllApply(old(data), deltas) && !conflict)
      ensures ok && Independent(old(data), deltas) ==> Alone(old(data), data, deltas, {})
    {
      order := [];
      ok := CheckDeltas(deltas);
      if ok {
        ok, order := PatchAll(deltas);
        ok := ok && !conflict;
        if ok {
          manifests := Recorded(manifests, deltas);
        }
      }
    }

    /** Activates the deltas of a batch, if there are any. */
    method PatchDeltas(bs: Batch, conflict: bool) returns (ok: bool, ghost order: seq<string>)
      modifies `data, `manifests
      ensures ok ==> IsOrder(order, Deltas(bs).Keys) && PatchInOrder(old(data), Deltas(bs), order) == Done(data)
      ensures ok ==> Compatible(old(manifests), Deltas(bs)) && manifests == Recorded(old(manifests), Deltas(bs))
      ensures ok && old(data).Obj? && AllUsable(bs) ==> data.Obj? && StaysIn(old(data), data, PathsOf(BatchRoots(Deltas(bs))))
      ensures Independent(old(data), Deltas(bs)) ==>
                (ok <==> Compatible(old(manifests), Deltas(bs)) && AllApply(old(data), Deltas(bs)) && (Deltas(bs) != map[] ==> !conflict))
      ensures ok && Independent(old(data), Deltas(bs)) ==> Alone(old(data), data, Deltas(bs), {})
    {
      var deltas := Deltas(bs);
      if deltas == map[] {
        StaysSame(data, PathsOf(BatchRoots(deltas)));
        return true, [];
      }
      if AllUsable(bs) {
        DeltasUsable(manifests, bs);
      }
      ok, order := ActivateDeltas(deltas, conflict);
    }

    /** Clears the roots of data and policies, and forgets the manifests. */
    method EraseBundles(names: set<string>, roots: set<string>) returns (ok: bool)
      modifies this
      ensures ok ==> manifests == old(manifests) - names && policies == Kept(old(policies), roots)
      ensures ok ==> forall region: set<Path> | PathsOf(roots) <= region && Erasable(old(data), region) ::
                       Erasing(old(data), data, region, PathsOf(roots))
      ensures roots <= {""} ==> data == old(data) && (ok <==> AllParse(old(policies)))
      ensures ok ==> AllParse(old(policies))
      ensures old(data).Obj? && Unshadowed(old(data), PathsOf(roots)) ==>
                (ok <==> AllParse(old(policies))) && (ok ==> Confined(old(data), data, Occupied(old(data), PathsOf(roots))))
    {
      ok := EraseData(roots);
      if ok {
        ok := ErasePolicies(roots);
      }
      if ok {
        manifests := manifests - names;
      }
    }

    method UpsertModules(modules: seq<Module>)
      modifies `policies
      ensures Upserted(old(policies), policies, ModuleSet(modules))
    {
      for i := 0 to |modules|
        invariant Upserted(old(policies), policies, ModuleSet(modules[..i]))
      {
        UpsertOne(old(policies), policies, ModuleSet(modules[..i]), modules[i]);
        policies := policies[modules[i].id := modules[i].policy];
        assert modules[..i + 1] == modules[..i] + [modules[i]];
        assert ModuleSet(modules[..i + 1]) == ModuleSet(modules[..i]) + {modules[i]};
      }
      assert modules[..|modules|] == modules;
    }

    method WriteSnapshot(name: string, b: Bundle, ghost d0: Json, ghost ms: Manifests, ghost bs: Batch, ghost todo: set<string>) returns (ok: bool)
      requires name in Snapshots(bs) && b == Snapshots(bs)[name] && name !in todo
      requires AllUsable(bs) ==> Storing(d0, data, ms, bs, todo + {name})
      modifies `data
      ensures ok && AllUsable(bs) ==> Storing(d0, data, ms, bs, todo)
      ensures Storable(d0, ms, bs) ==> ok
    {
      ghost var d := data;
      if AllUsable(bs) {
        assert Usable(bs[name]) && AllOrdinary(RootSet(bs[name].manifest.roots));
      }
      ok := WriteData(b.manifest.roots, b.data);
      if ok && AllUsable(bs) {
        StoringStep(d0, d, data, ms, bs, todo, name);
      }
    }

    /** Writes data and modules of all snapshots, in any order. */
    method WriteDataAndModules(snaps: Batch, ghost ms: Manifests, ghost bs: Batch) returns (ok: bool)
      requires snaps == Snapshots(bs)
      modifies `data, `policies
      ensures ok ==> Upserted(old(policies), policies, Modules(snaps))
      ensures ok && AllUsable(bs) ==> Storing(old(data), data, ms, bs, {})
      ensures Storable(old(data), ms, bs) ==> ok
    {
      StoringStart(data, ms, bs);
      var todo := snaps.Keys;
      assert ModulesOf(snaps, snaps.Keys - todo) == {};
      while todo != {}
        invariant todo <= snaps.Keys && Upserting(old(policies), policies, snaps, snaps.Keys - todo)
        invariant AllUsable(bs) ==> Storing(old(data), data, ms, bs, todo)
        decreases todo
      {
        var name :| name in todo;
        ghost var ps, before := policies, todo;
        todo := todo - {name};
        assert before == todo + {name};
        ok := WriteSnapshot(name, snaps[name], old(data), ms, bs, todo);
        if !ok {
          return;
        }
        UpsertModules(snaps[name].modules);
        UpsertNext(old(policies), ps, policies, snaps, before, name);
      }
      assert snaps.Keys - todo == snaps.Keys;
      AllModules(snaps);
      return true;
    }

    /** Erases the old contents of the snapshots' roots, and writes the new ones. */
    method ReplaceSnapshots(snaps: Batch, erase: set<string>, checks: Checks, ghost d0: Json, ghost ms: Manifests, ghost bs: Batch)
      returns (ok: bool, ghost erased: Json)
      requires snaps == Snapshots(bs) && erase == EraseSet(ms, snaps)
      modifies this
      ensures ok ==> manifests == old(manifests) - snaps.Keys
      ensures ok ==> Upserted(Kept(old(policies), erase), policies, Modules(snaps))
      ensures ok && Underway(d0, old(data), ms, bs) ==> SnapshotsErased(old(data), erased, ms, bs) && Filling(erased, data, snaps, {})
      ensures ok && old(data).Obj? && AllUsable(bs) && AllOrdinary(Concerned(ms, bs)) ==> StaysIn(old(data), data, PathsOf(erase))
      ensures ok ==> AllParse(old(policies)) && checks.compiles && !checks.conflict
      ensures Underway(d0, old(data), ms, bs) && Unshadowed(old(data), PathsOf(erase)) ==>
                (ok <==> AllParse(old(policies)) && checks.compiles && !checks.conflict)
    {
      erased := data;
      ok := EraseBundles(snaps.Keys, erase);
      if !ok || !checks.compiles {
        ok := false;
        return;
      }
      erased := data;
      AfterErasing(d0, old(data), erased, ms, bs);
      ok := WriteDataAndModules(snaps, ms, bs);
      if ok {
        EraseThenFill(old(data), erased, data, ms, bs);
      }
      ok := ok && !checks.conflict;
    }

    /**
      Activates a batch. The outcomes of compiling the modules and of the two checks for conflicts between
      policies and data are given; an operation that fails part-way is undone by its transaction.
     */
    method Activate(bs: Batch, checks: Checks) returns (ok: bool)
      modifies this
      ensures ok ==> !Collides(old(manifests), bs) && Compatible(old(manifests), Deltas(bs))
      ensures ok ==> AllParse(old(policies)) && checks.compiles && !checks.conflict
      ensures ok && Ruled(old(manifests)) && AllUsable(bs) ==> manifests == Recorded(old(manifests), bs)
      ensures ok && Ruled(old(manifests)) && AllUsable(bs) && old(data).Obj? ==> SystemKept(old(data), data)
      ensures ok ==> Upserted(Kept(old(policies), EraseSet(old(manifests), Snapshots(bs))), policies, Modules(Snapshots(bs)))
      ensures ok && Good(old(data), old(manifests)) && AllUsable(bs) ==> Activated(old(data), data, old(manifests), bs)
      ensures Good(old(data), old(manifests)) && AllUsable(bs) && Orderly(old(data), old(manifests), bs) ==>
                (ok <==> Acceptable(old(data), old(policies), old(manifests), bs, checks))
    {
      var snaps := Snapshots(bs);
      var erase := EraseSet(manifests, snaps);
      var overlap := HasRootsOverlap(bs);
      if overlap {
        return false;
      }
      if Good(data, manifests) && AllUsable(bs) && Orderly(data, manifests, bs) && Compatible(manifests, Deltas(bs)) {
        DeltasIndependent(data, manifests, bs);
      }
      ghost var order;
      ok, order := PatchDeltas(bs, checks.deltaConflict);
      if !ok {
        return;
      }
      ghost var d1 := data;
      AfterPatching(old(data), d1, old(manifests), bs);
      ghost var d2;
      ok, d2 := ReplaceSnapshots(snaps, erase, checks, old(data), old(manifests), bs);
      if !ok {
        return;
      }
      PhasesDone(old(data), d1, d2, data, old(manifests), bs, order);
      RecordedTogether(old(manifests), bs);
      manifests := Recorded(manifests, snaps);
      return true;
    }

    /** Erases the data, the policies and the manifests of the named bundles. */
    method Deactivate(names: set<string>) returns (ok: bool)
      modifies this
      ensures ok && (Ruled(old(manifests)) || RecordedRoots(old(manifests), names) <= {""}) ==> manifests == old(manifests) - names
      ensures ok && Ruled(old(manifests)) && old(data).Obj? ==> SystemKept(old(data), data)
      ensures ok ==> policies == Kept(old(policies), RecordedRoots(old(manifests), names))
      ensures ok && Good(old(data), old(manifests)) ==> Deactivated(old(data), data, old(manifests), names)
      ensures Good(old(data), old(manifests)) ==> (ok <==> AllParse(old(policies)))
      ensures RecordedRoots(old(manifests), names) <= {""} ==> data == old(data) && (ok <==> AllParse(old(policies)))
      ensures ok && Sound(old(data), old(manifests)) ==>
                forall n, r | n in names && n in old(manifests) && r in old(manifests)[n].roots ::
                  Emptied(data, r) <==> r != "" || old(data) == Obj(map[])
    {
      var erase := RecordedRoots(manifests, names);
      if Good(data, manifests) {
        RecordedErasable(data, manifests, names);
        RecordedUnshadowed(data, manifests, names);
      }
      ok := EraseBundles(names, erase);
      if ok && Ruled(old(manifests)) && old(data).Obj? {
        ErasedStays(old(data), data, PathsOf(erase));
        RecordedOrdinary(old(manifests), names);
        SystemApart(old(data), data, erase);
      }
      if ok && Good(old(data), old(manifests)) {
        EraseEnd(old(data), data, PathsOf(erase));
        FinishDeactivation(old(data), data, old(manifests), names);
      }
      if ok && Sound(old(data), old(manifests)) {
        EmptiedExactly(old(data), data, old(manifests), names);
      }
    }

    /** Runs one request in a transaction: a request that fails changes nothing. */
    method Transact(req: Request) returns (ok: bool)
      modifies this
      ensures !ok ==> data == old(data) && policies == old(policies) && manifests == old(manifests)
      ensures ok ==> match req
                     case ActivateBundles(bs, _) =>
                       && Upserted(Kept(old(policies), EraseSet(old(manifests), Snapshots(bs))), policies, Modules(Snapshots(bs)))
                       && (Ruled(old(manifests)) && AllUsable(bs) ==> manifests == Recorded(old(manifests), bs))
                       && (Good(old(data), old(manifests)) && AllUsable(bs) ==> Activated(old(data), data, old(manifests), bs))
                     case DeactivateBundles(names) =>
                       && policies == Kept(old(policies), RecordedRoots(old(manifests), names))
                       && (Ruled(old(manifests)) ==> manifests == old(manifests) - names)
                       && (Good(old(data), old(manifests)) ==> Deactivated(old(data), data, old(manifests), names))
      ensures Disjoint(old(manifests)) && Ruled(old(manifests)) && Fit(req) ==> Disjoint(manifests) && Ruled(manifests)
    {
      var d, ps, ms := data, policies, manifests;
      match req {
        case ActivateBundles(bs, checks) =>
          ok := Activate(bs, checks);
          if ok && Disjoint(ms) && Ruled(ms) && AllUsable(bs) {
            DisjointAfter(ms, bs);
            RuledAfter(ms, bs);
          }
        case DeactivateBundles(names) =>
          ok := Deactivate(names);
      }
      if !ok {
        data, policies, manifests := d, ps, ms;
      }
    }

    /** Over every run, recorded roots stay disjoint and every value has an owner. */
    method Run(reqs: seq<Request>)
      modifies this
      ensures old(Disjoint(manifests) && Ruled(manifests)) && AllFit(reqs) ==> Disjoint(manifests) && Ruled(manifests)
      ensures old(Good(data, manifests)) && AllFit(reqs) ==> Good(data, manifests)
    {
      for i := 0 to |reqs|
        invariant old(Disjoint(manifests) && Ruled(manifests)) && AllFit(reqs) ==> Disjoint(manifests) && Ruled(manifests)
        invariant old(Good(data, manifests)) && AllFit(reqs) ==> Good(data, manifests)
      {
        var _ := Transact(reqs[i]);
      }
    }
  }
}
