/** Bundles, their manifests, and what it means for the store to keep them apart. */
module Bundles {
  import opened Syntax
  import opened RootPaths
  import opened Documents
  import opened Regions

  datatype WasmResolver = WasmResolver(moduleFile: string, entrypoint: string)

  datatype Manifest = Manifest(roots: seq<string>, wasm: seq<WasmResolver>)

  /** A policy and the pointer form of its package path; there is none if the text does not parse. */
  datatype Policy = Policy(pkg: Option<string>, text: string)

  datatype Module = Module(id: string, policy: Policy)

  datatype Patch = Patch(op: string, path: string, value: Json)

  datatype Bundle =
    | Snapshot(manifest: Manifest, data: map<string, Json>, modules: seq<Module>)
    | Delta(manifest: Manifest, patches: seq<Patch>)

  type Manifests = map<string, Manifest>

  // Roots.

  /** Roots that are stored where they say, outside the part of the document that manifests live in. */
  predicate Ordinary(root: string) {
    root != "" && StoragePath(root) == Area(root) && Area(root)[0] != "system"
  }

  /** The roots of one manifest do not overlap each other. */
  ghost predicate Separate(roots: seq<string>) {
    forall i, j | 0 <= i < j < |roots| :: !Overlaps(roots[i], roots[j])
  }

  ghost predicate InRoots(roots: seq<string>, p: Path) {
    exists i | 0 <= i < |roots| :: InArea(roots[i], p)
  }

  /** Roots recorded for differently named bundles never overlap. */
  ghost predicate Disjoint(ms: Manifests) {
    forall m, n | m in ms && n in ms && m != n :: RootsDisjoint(ms[m].roots, ms[n].roots)
  }

  /** Every path has at most one owning bundle. */
  lemma {:induction false} OneOwner(ms: Manifests, m: string, n: string, p: Path)
    requires Disjoint(ms) && m in ms && n in ms && InRoots(ms[m].roots, p) && InRoots(ms[n].roots, p)
    ensures m == n
  {
  }

  ghost predicate Ruled(ms: Manifests) {
    forall n | n in ms :: Separate(ms[n].roots) && forall r | r in ms[n].roots :: Ordinary(r)
  }

  /** Every value other than an object lies in the area of some recorded root. */
  ghost predicate Owned(d: Json, ms: Manifests) {
    forall p | Filled(Ptr(d, p)) :: HasOwner(ms, p)
  }

  ghost predicate HasOwner(ms: Manifests, p: Path) {
    exists n | n in ms :: InRoots(ms[n].roots, p)
  }

  ghost predicate Good(d: Json, ms: Manifests) {
    d.Obj? && Disjoint(ms) && Ruled(ms) && Owned(d, ms)
  }

  function PathsOf(roots: set<string>): set<Path> {
    set r | r in roots && r != "" :: StoragePath(r)
  }

  function RootSet(roots: seq<string>): set<string> {
    set r | r in roots
  }

  lemma {:induction false} StoredRoot(r: string)
    requires Ordinary(r)
    ensures StoragePath(r) == Area(r) && Area(r) != []
  {
  }

  lemma {:induction false} StoredIn(r: string, roots: set<string>)
    requires Ordinary(r) && r in roots
    ensures Area(r) in PathsOf(roots)
  {
    StoredRoot(r);
    assert StoragePath(r) in PathsOf(roots);
  }

  // What is being activated.

  ghost predicate AllOrdinary(roots: set<string>) {
    forall r | r in roots :: Ordinary(r)
  }

  /** Every recorded root is in the set or overlaps nothing in it. */
  ghost predicate SelfContained(ms: Manifests, erase: set<string>) {
    forall n, i, r | n in ms && 0 <= i < |ms[n].roots| && r in erase && Overlaps(ms[n].roots[i], r) :: ms[n].roots[i] in erase
  }

  lemma {:induction false} CanErase(d: Json, ms: Manifests, erase: set<string>)
    requires Good(d, ms) && AllOrdinary(erase) && SelfContained(ms, erase)
    ensures Erasable(d, PathsOf(erase))
  {
    var region := PathsOf(erase);
    forall s | s in region ensures s != [] {
      var r :| r in erase && r != "" && StoragePath(r) == s;
      StoredRoot(r);
    }
    forall s | Top(region, s) ensures Clear(d, s) {
      var r :| r in erase && r != "" && StoragePath(r) == s;
      StoredRoot(r);
      forall q: Path | q < s ensures !IsArray(Ptr(d, q)) {
        if IsArray(Ptr(d, q)) {
          assert Filled(Ptr(d, q));
          assert HasOwner(ms, q);
          var n :| n in ms && InRoots(ms[n].roots, q);
          var i :| 0 <= i < |ms[n].roots| && InArea(ms[n].roots[i], q);
          var t := ms[n].roots[i];
          assert Area(t) <= Area(r) && Overlaps(t, r);
          StoredIn(t, erase);
        }
      }
    }
  }

  /** After the erasure, what is left belongs to the bundles that are left. */
  lemma {:induction false} OwnedAfterErase(d: Json, d': Json, ms: Manifests, ms': Manifests, erase: set<string>)
    requires Good(d, ms) && AllOrdinary(erase) && Erased(d, d', PathsOf(erase))
    requires forall n | n in ms && n !in ms' :: RootSet(ms[n].roots) <= erase
    requires forall n | n in ms' :: n in ms && ms'[n] == ms[n]
    ensures Good(d', ms')
  {
    var region := PathsOf(erase);
    forall p | Filled(Ptr(d', p)) ensures HasOwner(ms', p) {
      forall s | s in region ensures !(s <= p) {
        if s <= p { PtrBelow(d', s, p); }
      }
      assert !Beneath(region, p);
      assert Above(d, d', p);
      var n :| n in ms && InRoots(ms[n].roots, p);
      if n !in ms' {
        var i :| 0 <= i < |ms[n].roots| && InArea(ms[n].roots[i], p);
        var t := ms[n].roots[i];
        assert t in RootSet(ms[n].roots);
        StoredIn(t, erase);
      }
    }
  }

  /** A path in the area of one root is apart from every root that does not overlap it. */
  lemma {:induction false} ApartFromOthers(t: string, p: Path, others: set<string>)
    requires InArea(t, p) && AllOrdinary(others) && forall r | r in others :: !Overlaps(t, r)
    ensures ApartAll(p, PathsOf(others))
  {
    forall s | s in PathsOf(others) ensures Apart(p, s) {
      var r :| r in others && r != "" && StoragePath(r) == s;
      StoredRoot(r);
      if s <= p { PrefixesComparable(Area(t), s, p); }
      if p <= s { PrefixesComparable(Area(t), s, s); }
    }
  }

  // Patches.

  function Upsert(d: Json, p: Path, v: Json): Outcome {
    if p == [] then Invalid
    else
      match Ptr(d, p[..|p| - 1])
      case Some(_) => Write(d, Add, p, v)
      case None =>
        match MakeDir(d, p[..|p| - 1])
        case Done(d') => Write(d', Add, p, v)
        case other => other
  }

  function ApplyPatch(d: Json, patch: Patch): Outcome {
    var p := PatchPath(patch.path);
    if patch.op == "upsert" then Upsert(d, p, patch.value)
    else if patch.op == "remove" then Write(d, Remove, p, patch.value)
    else if patch.op == "replace" then Write(d, Replace, p, patch.value)
    else Invalid
  }

  /** The patches of a bundle, one after the other, up to the first that fails. */
  function PatchDoc(d: Json, patches: seq<Patch>): Outcome {
    if patches == [] then Done(d)
    else
      var n := |patches| - 1;
      match PatchDoc(d, patches[..n])
      case Done(d') => ApplyPatch(d', patches[n])
      case other => other
  }

  lemma {:induction false} PatchDocStops(d: Json, patches: seq<Patch>, n: nat)
    requires n <= |patches| && PatchDoc(d, patches).Done?
    ensures PatchDoc(d, patches[..n]).Done?
  {
    if n < |patches| {
      var m := |patches| - 1;
      PatchDocStops(d, patches[..m], n);
      assert patches[..m][..n] == patches[..n];
    } else {
      assert patches[..n] == patches;
    }
  }

  lemma {:induction false} UpsertTouches(d: Json, p: Path, v: Json, s: Path)
    requires d.Obj? && s != [] && s <= p && Clear(d, s) && Upsert(d, p, v).Done?
    ensures Upsert(d, p, v).doc.Obj? && Touches(d, Upsert(d, p, v).doc, s)
  {
    var dir := p[..|p| - 1];
    if Ptr(d, dir) == None {
      var d1 := MakeDir(d, dir).doc;
      MakeDirMakes(d, dir);
      assert s <= dir || s == p;
      MakeDirTouches(d, dir, s);
      TouchesClear(d, d1, s);
      ObjectStays(d1, Add, p, v);
      WriteTouches(d1, Add, p, v, s);
      TouchesTwice(d, d1, Upsert(d, p, v).doc, s);
    } else {
      ObjectStays(d, Add, p, v);
      WriteTouches(d, Add, p, v, s);
    }
  }

  /** A patch below a root changes only what lies below any clear path above that root. */
  lemma {:induction false} PatchTouches(d: Json, patch: Patch, root: string, s: Path)
    requires d.Obj? && Ordinary(root) && Literal(root) && Area(root) <= Area(Trim(patch.path))
    requires s != [] && s <= Area(root) && Clear(d, s) && ApplyPatch(d, patch).Done?
    ensures ApplyPatch(d, patch).doc.Obj? && Touches(d, ApplyPatch(d, patch).doc, s)
  {
    StoredRoot(root);
    PatchInside(root, patch.path);
    var p := PatchPath(patch.path);
    if patch.op == "upsert" {
      UpsertTouches(d, p, patch.value, s);
    } else {
      var op := if patch.op == "remove" then Remove else Replace;
      ObjectStays(d, op, p, patch.value);
      WriteTouches(d, op, p, patch.value, s);
    }
  }

  // How far patching and filling reach.

  /** The document can be changed at these roots without disturbing anything else. */
  ghost predicate Open(d: Json, roots: seq<string>) {
    d.Obj? && forall r | r in roots :: Ordinary(r) && Clear(d, Area(r))
  }

  lemma {:induction false} OpenStays(d: Json, d': Json, roots: seq<string>, t: string)
    requires Open(d, roots) && Separate(roots) && t in roots && d'.Obj? && Touches(d, d', Area(t))
    ensures Open(d', roots)
  {
    forall r | r in roots ensures Clear(d', Area(r)) {
      if r == t {
        TouchesClear(d, d', Area(t));
      } else {
        SeparateMembers(roots, r, t);
        ConfinedTouch(d, d', Area(t), {Area(t)});
        ConfinedElsewhere(d, d', {Area(t)}, Area(r));
      }
    }
  }

  lemma {:induction false} SeparateMembers(roots: seq<string>, r: string, t: string)
    requires Separate(roots) && r in roots && t in roots && r != t
    ensures !Overlaps(r, t)
  {
  }

  /** Nothing but objects lies above the roots. */
  ghost predicate AllFree(d: Json, roots: seq<string>) {
    forall r | r in roots :: Free(d, Area(r))
  }

  /** Nothing is stored at the roots. */
  ghost predicate Vacant(d: Json, roots: seq<string>) {
    Open(d, roots) && forall r | r in roots :: Ptr(d, Area(r)) == None
  }

  /** The roots hold what the given document has there, and nothing else changed. */
  ghost predicate Placed(d: Json, d': Json, roots: seq<string>, v: Json) {
    && d'.Obj?
    && Confined(d, d', PathsOf(RootSet(roots)))
    && forall r | r in roots :: Ptr(d', Area(r)) == Find(v, Area(r))
  }

  ghost predicate Patched(d: Json, d': Json, roots: seq<string>) {
    Open(d', roots) && Confined(d, d', PathsOf(RootSet(roots)))
  }

  ghost predicate AllCovered(roots: seq<string>, patches: seq<Patch>) {
    forall i | 0 <= i < |patches| :: Covered(roots, Trim(patches[i].path))
  }

  /** Roots that patches can be checked against. */
  ghost predicate Patchable(roots: seq<string>) {
    forall r | r in roots :: Ordinary(r) && Literal(r)
  }

  /** A patch below the roots stays in every region that includes them. */
  lemma {:induction false} PatchStays(d: Json, patch: Patch, roots: seq<string>)
    requires d.Obj? && Patchable(roots) && Covered(roots, Trim(patch.path)) && ApplyPatch(d, patch).Done?
    ensures ApplyPatch(d, patch).doc.Obj? && StaysIn(d, ApplyPatch(d, patch).doc, PathsOf(RootSet(roots)))
  {
    var i :| 0 <= i < |roots| && Area(roots[i]) <= Area(Trim(patch.path));
    var r := roots[i];
    assert r in roots;
    StoredIn(r, RootSet(roots));
    StoredRoot(r);
    HeadClear(d, Area(r));
    PatchTouches(d, patch, r, Area(r)[..1]);
    forall s: Path | s != [] && s <= Area(r) && Clear(d, s) ensures Touches(d, ApplyPatch(d, patch).doc, s) {
      PatchTouches(d, patch, r, s);
    }
    StaysBelow(d, ApplyPatch(d, patch).doc, Area(r), PathsOf(RootSet(roots)));
  }

  lemma {:induction false} HeadClear(d: Json, p: Path)
    requires d.Obj? && p != []
    ensures Clear(d, p[..1])
  {
    forall q: Path | q < p[..1] ensures !IsArray(Ptr(d, q)) {
      assert q == [];
    }
  }

  /** So does making a directory and adding a value. */
  lemma {:induction false} PlaceStays(d: Json, p: Path, v: Json, paths: set<Path>)
    requires d.Obj? && p != [] && p in paths
    requires MakeDir(d, p[..|p| - 1]).Done? && WriteBelow(MakeDir(d, p[..|p| - 1]).doc, Add, p, v).Done?
    ensures var d' := WriteBelow(MakeDir(d, p[..|p| - 1]).doc, Add, p, v).doc; d'.Obj? && StaysIn(d, d', paths)
  {
    var dir := p[..|p| - 1];
    var d1 := MakeDir(d, dir).doc;
    var d' := WriteBelow(d1, Add, p, v).doc;
    MakeDirMakes(d, dir);
    ObjectStays(d1, Add, p, v);
    forall s: Path | s != [] && s <= p && Clear(d, s) ensures Touches(d, d', s) {
      assert s <= dir || s == p;
      MakeDirTouches(d, dir, s);
      TouchesClear(d, d1, s);
      WriteTouches(d1, Add, p, v, s);
      TouchesTwice(d, d1, d', s);
    }
    StaysBelow(d, d', p, paths);
  }

  /** The first roots hold their values, the others still hold nothing. */
  ghost predicate Placing(d0: Json, d: Json, roots: seq<string>, v: Json, n: nat) {
    && n <= |roots|
    && Patched(d0, d, roots)
    && forall i | 0 <= i < |roots| :: Ptr(d, Area(roots[i])) == if i < n then Find(v, Area(roots[i])) else None
  }

  lemma {:induction false} PlaceStep(d0: Json, d: Json, d': Json, roots: seq<string>, v: Json, n: nat)
    requires Placing(d0, d, roots, v, n) && Separate(roots) && n < |roots| && d'.Obj?
    requires Touches(d, d', Area(roots[n])) && Ptr(d', Area(roots[n])) == Find(v, Area(roots[n]))
    ensures Placing(d0, d', roots, v, n + 1)
  {
    var t := roots[n];
    assert t in roots;
    OpenStays(d, d', roots, t);
    StoredIn(t, RootSet(roots));
    ConfinedTouch(d, d', Area(t), PathsOf(RootSet(roots)));
    ConfinedTwice(d0, d, d', PathsOf(RootSet(roots)));
    forall i | 0 <= i < |roots| && i != n ensures Ptr(d', Area(roots[i])) == Ptr(d, Area(roots[i])) {
      assert !Overlaps(roots[i], t);
      assert Apart(Area(roots[i]), Area(t));
    }
  }

  // Policies.

  /** The policy's package lies in the area of one of the roots. */
  ghost predicate Under(p: Policy, roots: set<string>) {
    p.pkg.Some? && exists r | r in roots :: InArea(r, Area(p.pkg.value))
  }

  ghost function Kept(ps: map<string, Policy>, roots: set<string>): map<string, Policy> {
    map id | id in ps && !Under(ps[id], roots) :: ps[id]
  }

  // Collisions.

  function AllRoots(ms: Manifests, bs: map<string, Bundle>): map<string, seq<string>> {
    map n | n in ms.Keys + bs.Keys :: if n in bs then bs[n].manifest.roots else ms[n].roots
  }

  ghost predicate Collides(ms: Manifests, bs: map<string, Bundle>) {
    exists n, m | n in bs && m in AllRoots(ms, bs) && n != m :: !RootsDisjoint(bs[n].manifest.roots, AllRoots(ms, bs)[m])
  }

  function Recorded(ms: Manifests, bs: map<string, Bundle>): Manifests {
    ms + map n | n in bs :: bs[n].manifest
  }

  /** Without a collision the recorded roots stay disjoint. */
  lemma {:induction false} DisjointAfter(ms: Manifests, bs: map<string, Bundle>)
    requires Disjoint(ms) && !Collides(ms, bs)
    ensures Disjoint(Recorded(ms, bs))
  {
    var ms' := Recorded(ms, bs);
    forall m, n | m in ms' && n in ms' && m != n ensures RootsDisjoint(ms'[m].roots, ms'[n].roots) {
      var all := AllRoots(ms, bs);
      assert m in all && n in all && all[m] == ms'[m].roots && all[n] == ms'[n].roots;
      if m !in bs && n in bs {
        DisjointFlip(ms'[n].roots, ms'[m].roots);
      }
    }
  }

  lemma {:induction false} DisjointFlip(a: seq<string>, b: seq<string>)
    requires RootsDisjoint(a, b)
    ensures RootsDisjoint(b, a)
  {
  }
}
