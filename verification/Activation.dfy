/** What a batch of bundles may change, and what it must leave alone. */
module Activation {
  import opened Syntax
  import opened RootPaths
  import opened Documents
  import opened Regions
  import opened Bundles

  type Batch = map<string, Bundle>

  function Deltas(bs: Batch): Batch {
    map n | n in bs && bs[n].Delta? :: bs[n]
  }

  function Snapshots(bs: Batch): Batch {
    map n | n in bs && bs[n].Snapshot? :: bs[n]
  }

  function BatchRoots(bs: Batch): set<string> {
    set n, r | n in bs && r in bs[n].manifest.roots :: r
  }

  function RecordedRoots(ms: Manifests, names: set<string>): set<string> {
    set n, r | n in names && n in ms && r in ms[n].roots :: r
  }

  /** What a snapshot activation erases: the old and the new roots of the bundles. */
  function EraseSet(ms: Manifests, snaps: Batch): set<string> {
    RecordedRoots(ms, snaps.Keys) + BatchRoots(snaps)
  }

  /** What the bundle reader makes sure of, for roots that are stored where they say. */
  ghost predicate Usable(b: Bundle) {
    && Separate(b.manifest.roots)
    && (forall r | r in b.manifest.roots :: Ordinary(r))
    && (b.Delta? ==> Patchable(b.manifest.roots) && AllCovered(b.manifest.roots, b.patches))
  }

  ghost predicate AllUsable(bs: Batch) {
    forall n | n in bs :: Usable(bs[n])
  }

  /** A delta for a recorded bundle keeps its roots. */
  ghost predicate SameRoots(ms: Manifests, deltas: Batch) {
    forall n | n in deltas && n in ms :: RootSet(deltas[n].manifest.roots) == RootSet(ms[n].roots)
  }

  /** No root of a delta is erased for a snapshot of the same batch. */
  ghost predicate SparesDeltas(ms: Manifests, bs: Batch) {
    forall t, r | t in BatchRoots(Deltas(bs)) && r in EraseSet(ms, Snapshots(bs)) :: !Overlaps(t, r)
  }

  /** Everything that a batch may change: the roots its bundles have and had. */
  function Concerned(ms: Manifests, bs: Batch): set<string> {
    BatchRoots(bs) + RecordedRoots(ms, bs.Keys)
  }

  // Consequences of the collision check.

  lemma {:induction false} NoCollision(ms: Manifests, bs: Batch, n: string, m: string)
    requires !Collides(ms, bs) && n in bs && n != m
    ensures m in bs ==> RootsDisjoint(bs[n].manifest.roots, bs[m].manifest.roots)
    ensures m in ms && m !in bs ==> RootsDisjoint(bs[n].manifest.roots, ms[m].roots)
  {
    var all := AllRoots(ms, bs);
    assert m in all ==> RootsDisjoint(bs[n].manifest.roots, all[m]);
  }

  lemma {:induction false} DisjointMembers(a: seq<string>, b: seq<string>, r: string, t: string)
    requires RootsDisjoint(a, b) && r in a && t in b
    ensures !Overlaps(r, t) && !Overlaps(t, r)
  {
  }

  /** A change at the roots of one bundle leaves the roots of another as they were. */
  lemma {:induction false} OthersKept(d: Json, d': Json, roots: seq<string>, others: seq<string>, t: string)
    requires Confined(d, d', PathsOf(RootSet(roots))) && RootsDisjoint(roots, others) && t in others
    requires forall r | r in roots :: Ordinary(r)
    ensures Ptr(d', Area(t)) == Ptr(d, Area(t))
    ensures Clear(d, Area(t)) ==> Clear(d', Area(t))
    ensures Free(d, Area(t)) ==> Free(d', Area(t))
  {
    forall r | r in RootSet(roots) ensures !Overlaps(t, r) {
      DisjointMembers(roots, others, r, t);
    }
    assert InArea(t, Area(t));
    ApartFromOthers(t, Area(t), RootSet(roots));
    ConfinedElsewhere(d, d', PathsOf(RootSet(roots)), Area(t));
    FreeElsewhere(d, d', PathsOf(RootSet(roots)), Area(t));
  }

  lemma {:induction false} FreeElsewhere(d: Json, d': Json, region: set<Path>, t: Path)
    requires Confined(d, d', region) && ApartAll(t, region)
    ensures Free(d, t) ==> Free(d', t)
  {
    forall q: Path | q < t ensures Filled(Ptr(d', q)) ==> Filled(Ptr(d, q)) {
      forall s | s in region ensures !(s <= q) {
        assert Apart(t, s);
      }
      assert !Beneath(region, q);
      assert Above(d, d', q);
    }
  }

  lemma {:induction false} PathsWider(roots: set<string>, wider: set<string>)
    requires roots <= wider
    ensures PathsOf(roots) <= PathsOf(wider)
  {
  }

  lemma {:induction false} RootsOrdinary(bs: Batch)
    requires AllUsable(bs)
    ensures AllOrdinary(BatchRoots(bs))
  {
  }

  lemma {:induction false} RuledAfter(ms: Manifests, bs: Batch)
    requires Ruled(ms) && AllUsable(bs)
    ensures Ruled(Recorded(ms, bs))
  {
  }

  lemma {:induction false} SubsetRoots(ms: Manifests, bs: Batch)
    ensures BatchRoots(Deltas(bs)) <= Concerned(ms, bs) && BatchRoots(Snapshots(bs)) <= Concerned(ms, bs)
    ensures EraseSet(ms, Snapshots(bs)) <= Concerned(ms, bs)
  {
  }

  lemma {:induction false} DeltasUsable(ms: Manifests, bs: Batch)
    requires AllUsable(bs)
    ensures AllUsable(Deltas(bs)) && PathsOf(BatchRoots(Deltas(bs))) <= PathsOf(Concerned(ms, bs))
  {
    SubsetRoots(ms, bs);
    PathsWider(BatchRoots(Deltas(bs)), Concerned(ms, bs));
    forall n | n in Deltas(bs) ensures Usable(Deltas(bs)[n]) { assert Usable(bs[n]); }
  }

  lemma {:induction false} DoneNext(roots: set<string>, todo: set<string>, r: string)
    requires r in todo && todo <= roots
    ensures var done, more := PathsOf(roots - todo), PathsOf(roots - (todo - {r}));
            more == (if r == "" then done else done + {StoragePath(r)})
  {
  }

  lemma {:induction false} ConcernedOrdinary(ms: Manifests, bs: Batch)
    requires Ruled(ms) && AllUsable(bs)
    ensures AllOrdinary(Concerned(ms, bs))
  {
    RootsOrdinary(bs);
  }

  /** What is not erased for a snapshot belongs to a delta. */
  lemma {:induction false} ErasedOrDelta(ms: Manifests, bs: Batch, u: string)
    requires SameRoots(ms, Deltas(bs)) && u in Concerned(ms, bs)
    ensures u in EraseSet(ms, Snapshots(bs)) || u in BatchRoots(Deltas(bs))
  {
    var deltas, snaps := Deltas(bs), Snapshots(bs);
    if u in RecordedRoots(ms, bs.Keys) {
      var n :| n in bs.Keys && n in ms && u in ms[n].roots;
      if n in deltas {
        assert u in RootSet(ms[n].roots);
        assert u in deltas[n].manifest.roots;
      } else {
        assert n in snaps.Keys;
      }
    } else {
      var n :| n in bs && u in bs[n].manifest.roots;
      assert n in deltas || n in snaps;
    }
  }

  /** A root of a delta overlaps no other root of the batch. */
  lemma {:induction false} BatchApart(ms: Manifests, bs: Batch, t: string, r: string)
    requires AllUsable(bs) && !Collides(ms, bs) && t in BatchRoots(Deltas(bs)) && r in BatchRoots(bs) && t != r
    ensures !Overlaps(t, r)
  {
    var n :| n in Deltas(bs) && t in bs[n].manifest.roots;
    var m :| m in bs && r in bs[m].manifest.roots;
    if n == m {
      assert Usable(bs[n]);
      SeparateMembers(bs[n].manifest.roots, t, r);
    } else {
      NoCollision(ms, bs, n, m);
      DisjointMembers(bs[n].manifest.roots, bs[m].manifest.roots, t, r);
    }
  }

  lemma {:induction false} KindsApart(ms: Manifests, bs: Batch, t: string, r: string)
    requires !Collides(ms, bs) && t in BatchRoots(Deltas(bs)) && r in BatchRoots(Snapshots(bs))
    ensures !Overlaps(t, r)
  {
    var n :| n in Deltas(bs) && t in bs[n].manifest.roots;
    var m :| m in Snapshots(bs) && r in bs[m].manifest.roots;
    NoCollision(ms, bs, n, m);
    DisjointMembers(bs[n].manifest.roots, bs[m].manifest.roots, t, r);
  }

  lemma {:induction false} NamedRoot(roots: set<string>, s: Path) returns (r: string)
    requires AllOrdinary(roots) && s in PathsOf(roots)
    ensures r in roots && Area(r) == s
  {
    r :| r in roots && r != "" && StoragePath(r) == s;
    StoredRoot(r);
  }

  /** Recorded bundles outside the batch overlap nothing the activation patches, erases or writes. */
  lemma {:induction false} BystandersApart(ms: Manifests, bs: Batch, n: string, t: string, r: string)
    requires Disjoint(ms) && !Collides(ms, bs)
    requires n in ms && n !in bs && t in ms[n].roots && r in Concerned(ms, bs)
    ensures !Overlaps(t, r)
  {
    if r in BatchRoots(bs) {
      var m :| m in bs && r in bs[m].manifest.roots;
      NoCollision(ms, bs, m, n);
      DisjointMembers(bs[m].manifest.roots, ms[n].roots, r, t);
    } else {
      var m :| m in bs && m in ms && r in ms[m].roots;
      DisjointMembers(ms[n].roots, ms[m].roots, t, r);
    }
  }

  /** Nothing that a batch may change is shadowed by an array of another bundle. */
  lemma {:induction false} ConcernedErasable(d: Json, ms: Manifests, bs: Batch)
    requires Good(d, ms) && AllUsable(bs) && !Collides(ms, bs)
    ensures AllOrdinary(Concerned(ms, bs)) && Working(d, d, PathsOf(Concerned(ms, bs)))
  {
    var u := Concerned(ms, bs);
    forall n, i, r | n in ms && 0 <= i < |ms[n].roots| && r in u && Overlaps(ms[n].roots[i], r) ensures ms[n].roots[i] in u {
      var t := ms[n].roots[i];
      assert t in ms[n].roots;
      if n !in bs { BystandersApart(ms, bs, n, t, r); }
    }
    ConcernedOrdinary(ms, bs);
    CanErase(d, ms, u);
    ConfinedSame(d, PathsOf(u));
  }

  // Policies.

  function Modules(bs: Batch): set<Module> {
    set n, m | n in bs && bs[n].Snapshot? && m in bs[n].modules :: m
  }

  ghost predicate Defines(ms: set<Module>, id: string) {
    exists p: Policy :: Module(id, p) in ms
  }

  /** The modules were written over the policies, in some order. */
  ghost predicate Upserted(ps: map<string, Policy>, ps': map<string, Policy>, ms: set<Module>) {
    && (forall id :: id in ps' <==> id in ps || Defines(ms, id))
    && (forall id | id in ps' :: if Defines(ms, id) then Module(id, ps'[id]) in ms else id in ps && ps'[id] == ps[id])
  }

  lemma {:induction false} UpsertOne(ps: map<string, Policy>, ps': map<string, Policy>, ms: set<Module>, m: Module)
    requires Upserted(ps, ps', ms)
    ensures Upserted(ps, ps'[m.id := m.policy], ms + {m})
  {
  }

  lemma {:induction false} UpsertMore(ps: map<string, Policy>, ps1: map<string, Policy>, ps2: map<string, Policy>,
                                      ms: set<Module>, more: set<Module>)
    requires Upserted(ps, ps1, ms) && Upserted(ps1, ps2, more)
    ensures Upserted(ps, ps2, ms + more)
  {
  }

  function ModuleSet(ms: seq<Module>): set<Module> {
    set m | m in ms
  }

  function ModulesOf(bs: Batch, names: set<string>): set<Module> {
    set n, m | n in names && n in bs && bs[n].Snapshot? && m in bs[n].modules :: m
  }

  lemma {:induction false} ModulesGrow(bs: Batch, names: set<string>, n: string)
    requires n in bs && bs[n].Snapshot?
    ensures ModulesOf(bs, names + {n}) == ModulesOf(bs, names) + ModuleSet(bs[n].modules)
  {
  }

  /** The modules of the named bundles were written over the policies. */
  ghost predicate Upserting(ps: map<string, Policy>, ps': map<string, Policy>, snaps: Batch, names: set<string>) {
    Upserted(ps, ps', ModulesOf(snaps, names))
  }

  lemma {:induction false} UpsertNext(ps: map<string, Policy>, ps1: map<string, Policy>, ps2: map<string, Policy>,
                                      snaps: Batch, todo: set<string>, n: string)
    requires n in snaps && snaps[n].Snapshot? && n in todo && todo <= snaps.Keys
    requires Upserting(ps, ps1, snaps, snaps.Keys - todo) && Upserted(ps1, ps2, ModuleSet(snaps[n].modules))
    ensures Upserting(ps, ps2, snaps, snaps.Keys - (todo - {n}))
  {
    UpsertMore(ps, ps1, ps2, ModulesOf(snaps, snaps.Keys - todo), ModuleSet(snaps[n].modules));
    ModulesGrow(snaps, snaps.Keys - todo, n);
    assert snaps.Keys - (todo - {n}) == snaps.Keys - todo + {n};
  }

  lemma {:induction false} AllModules(bs: Batch)
    ensures ModulesOf(bs, bs.Keys) == Modules(bs)
  {
  }

  /** Every policy has a package. */
  ghost predicate AllParse(ps: map<string, Policy>) {
    forall id | id in ps :: ps[id].pkg.Some?
  }

  // The frame.

  /** What lies in the areas of bundles that are not named is as it was. */
  ghost predicate Untouched(d: Json, d': Json, ms: Manifests, names: set<string>) {
    forall n, p | n in ms && n !in names && InRoots(ms[n].roots, p) :: Ptr(d', p) == Ptr(d, p)
  }

  lemma {:induction false} FrameOf(d: Json, d': Json, ms: Manifests, names: set<string>, roots: set<string>)
    requires AllOrdinary(roots) && Confined(d, d', PathsOf(roots))
    requires forall n, t, r | n in ms && n !in names && t in ms[n].roots && r in roots :: !Overlaps(t, r)
    ensures Untouched(d, d', ms, names)
  {
    forall n, p | n in ms && n !in names && InRoots(ms[n].roots, p) ensures Ptr(d', p) == Ptr(d, p) {
      var i :| 0 <= i < |ms[n].roots| && InArea(ms[n].roots[i], p);
      assert ms[n].roots[i] in ms[n].roots;
      ApartFromOthers(ms[n].roots[i], p, roots);
    }
  }

  // Requests.

  /** The outcomes of the steps that are not modelled. */
  datatype Checks = Checks(compiles: bool, deltaConflict: bool, conflict: bool)

  datatype Request = ActivateBundles(bs: Batch, checks: Checks) | DeactivateBundles(names: set<string>)

  /** Nothing is in the way: deltas are spared, and no array lies above a root to be erased. */
  ghost predicate Orderly(d: Json, ms: Manifests, bs: Batch) {
    SparesDeltas(ms, bs) && Unshadowed(d, PathsOf(EraseSet(ms, Snapshots(bs))))
  }

  ghost predicate Fit(req: Request) {
    req.ActivateBundles? ==> AllUsable(req.bs)
  }

  lemma {:induction false} UnshadowedErasable(d: Json, ms: Manifests, bs: Batch)
    requires d.Obj? && AllOrdinary(Concerned(ms, bs)) && Unshadowed(d, PathsOf(EraseSet(ms, Snapshots(bs))))
    ensures Erasable(d, PathsOf(EraseSet(ms, Snapshots(bs))))
  {
    SubsetRoots(ms, bs);
    forall s | s in PathsOf(EraseSet(ms, Snapshots(bs))) ensures s != [] {
      var r := NamedRoot(EraseSet(ms, Snapshots(bs)), s);
      StoredRoot(r);
    }
  }

  lemma {:induction false} PrefixChain(p: Path, q: Path, s: Path)
    requires p <= q <= s
    ensures p <= s && (p == s ==> p == q)
  {
  }

  ghost predicate AllFit(reqs: seq<Request>) {
    forall i | 0 <= i < |reqs| :: Fit(reqs[i])
  }

  lemma {:induction false} FilledInside(d: Json, d': Json, region: set<Path>, p: Path)
    requires Confined(d, d', region) && Filled(Ptr(d', p)) && !Filled(Ptr(d, p))
    ensures Beneath(region, p)
  {
    assert Beneath(region, p) || Above(d, d', p);
  }

  lemma {:induction false} InRootsMember(roots: seq<string>, r: string, p: Path)
    requires r in roots && InArea(r, p)
    ensures InRoots(roots, p)
  {
  }

  // The system area, where manifests are kept.

  /** Nothing at or below `system` has changed. */
  ghost predicate SystemKept(d: Json, d': Json) {
    forall p: Path | p != [] && p[0] == "system" :: Ptr(d', p) == Ptr(d, p)
  }

  /** The paths of the roots, and their first segments. */
  function WithHeads(roots: set<string>): set<Path> {
    PathsOf(roots) + set p | p in PathsOf(roots) && p != [] :: p[..1]
  }

  lemma {:induction false} HeadIncluded(roots: set<string>, s: Path)
    requires s in WithHeads(roots) && s != []
    ensures s[..1] in WithHeads(roots)
  {
    if s !in PathsOf(roots) {
      var p :| p in PathsOf(roots) && p != [] && s == p[..1];
      assert s[..1] == s;
    }
  }

  lemma {:induction false} HeadsErasable(d: Json, roots: set<string>)
    requires d.Obj? && AllOrdinary(roots)
    ensures Erasable(d, WithHeads(roots))
  {
    var region := WithHeads(roots);
    forall s | s in PathsOf(roots) ensures s != [] {
      var r := NamedRoot(roots, s);
      StoredRoot(r);
    }
    forall s | Top(region, s) ensures Clear(d, s) {
      HeadClear(d, s);
      HeadIncluded(roots, s);
      assert s[..1] <= s && !(s[..1] < s);
    }
  }

  /** Changes below roots outside the system area leave it alone. */
  lemma {:induction false} SystemApart(d: Json, d': Json, roots: set<string>)
    requires d.Obj? && AllOrdinary(roots) && StaysIn(d, d', PathsOf(roots))
    ensures SystemKept(d, d')
  {
    var region := WithHeads(roots);
    HeadsErasable(d, roots);
    assert Working(d, d', region);
    forall p: Path | p != [] && p[0] == "system" ensures Ptr(d', p) == Ptr(d, p) {
      forall s | s in region ensures Apart(p, s) {
        var x :| x in PathsOf(roots) && x != [] && x[0] == s[0] && s != [];
        var r := NamedRoot(roots, x);
      }
    }
  }
}
