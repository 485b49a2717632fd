/** The checks a bundle passes when it is read, and what they guarantee. */
module BundleReader {
  import opened Syntax
  import opened RootPaths
  import opened Documents
  import opened Regions
  import opened Bundles
  import opened Activation
  import opened SnapshotFilling

  /** A bundle's files as they were read. */
  datatype Contents = Contents(data: map<string, Json>, packages: seq<Option<string>>, wasmFiles: set<string>, patches: seq<Patch>)

  function Trimmed(roots: Option<seq<string>>): seq<string> {
    if roots.None? then [""] else seq(|roots.value|, i requires 0 <= i < |roots.value| => Trim(roots.value[i]))
  }

  ghost predicate PackagesPermitted(roots: seq<string>, packages: seq<Option<string>>) {
    forall i | 0 <= i < |packages| :: packages[i].Some? && Covered(roots, packages[i].value)
  }

  ghost predicate ResolversPermitted(roots: seq<string>, wasm: seq<WasmResolver>, files: set<string>) {
    && (forall i | 0 <= i < |wasm| :: wasm[i].moduleFile in files && Covered(roots, wasm[i].entrypoint))
    && forall i, j | 0 <= i < j < |wasm| :: wasm[i].entrypoint != wasm[j].entrypoint
  }

  function Down(path: string, key: string): string {
    path + "/" + key
  }

  /**
    A value is permitted below a root. An object elsewhere is permitted if some segment of its path, taken
    as a root, contains one of the roots, and if its fields are permitted.
   */
  ghost predicate DataPermitted(roots: seq<string>, node: Json, path: string)
    decreases node
  {
    || Covered(roots, Trim(path))
    || (&& node.Obj?
        && LeadsToRoot(roots, Trim(path))
        && forall k | k in node.fields :: DataPermitted(roots, node.fields[k], Down(path, k)))
  }

  ghost predicate LeadsToRoot(roots: seq<string>, path: string) {
    exists i | 0 <= i < |roots| :: Covered(Split(path), roots[i])
  }

  ghost predicate Accepted(roots: seq<string>, wasm: seq<WasmResolver>, c: Contents) {
    && Separate(roots)
    && PackagesPermitted(roots, c.packages)
    && ResolversPermitted(roots, wasm, c.wasmFiles)
    && AllCovered(roots, c.patches)
    && DataPermitted(roots, Obj(c.data), "")
  }

  method CheckSeparate(roots: seq<string>) returns (ok: bool)
    ensures ok <==> Separate(roots)
  {
    var i := 0;
    while i < |roots| - 1
      invariant 0 <= i <= |roots|
      invariant forall k, l | 0 <= k < i && k < l < |roots| :: !Overlaps(roots[k], roots[l])
    {
      for j := i + 1 to |roots|
        invariant forall l | i < l < j :: !Overlaps(roots[i], roots[l])
      {
        var o := RootPathsOverlap(roots[i], roots[j]);
        if o {
          return false;
        }
      }
      i := i + 1;
    }
    return true;
  }

  ghost predicate Occurs(wasm: seq<WasmResolver>, n: nat, e: string) {
    exists j | 0 <= j < n && j < |wasm| :: wasm[j].entrypoint == e
  }

  method CheckResolvers(roots: seq<string>, wasm: seq<WasmResolver>, files: set<string>) returns (ok: bool)
    ensures ok <==> ResolversPermitted(roots, wasm, files)
  {
    var seen: set<string> := {};
    for i := 0 to |wasm|
      invariant forall j | 0 <= j < i :: wasm[j].moduleFile in files && Covered(roots, wasm[j].entrypoint)
      invariant forall e :: e in seen <==> Occurs(wasm, i, e)
      invariant forall k, l | 0 <= k < l < i :: wasm[k].entrypoint != wasm[l].entrypoint
    {
      var e := wasm[i].entrypoint;
      var c := RootPathsContain(roots, e);
      if wasm[i].moduleFile !in files || !c || e in seen {
        return false;
      }
      seen := seen + {e};
    }
    return true;
  }

  method CheckPackages(roots: seq<string>, packages: seq<Option<string>>) returns (ok: bool)
    ensures ok <==> PackagesPermitted(roots, packages)
  {
    for i := 0 to |packages|
      invariant forall j | 0 <= j < i :: packages[j].Some? && Covered(roots, packages[j].value)
    {
      var found := false;
      if packages[i].Some? {
        found := RootPathsContain(roots, packages[i].value);
      }
      if !found {
        return false;
      }
    }
    return true;
  }

  method CheckPatches(roots: seq<string>, patches: seq<Patch>) returns (ok: bool)
    ensures ok <==> AllCovered(roots, patches)
  {
    for i := 0 to |patches|
      invariant forall j | 0 <= j < i :: Covered(roots, Trim(patches[j].path))
    {
      var c := RootPathsContain(roots, Trim(patches[i].path));
      if !c {
        return false;
      }
    }
    return true;
  }

  method CheckLeads(roots: seq<string>, path: string) returns (r: bool)
    ensures r <==> LeadsToRoot(roots, path)
  {
    for i := 0 to |roots|
      invariant forall j | 0 <= j < i :: !Covered(Split(path), roots[j])
    {
      r := RootPathsContain(Split(path), roots[i]);
      if r {
        return;
      }
    }
    return false;
  }

  /** Walks the data depth first, not below a root. */
  method CheckData(roots: seq<string>, node: Json, path: string) returns (ok: bool)
    ensures ok <==> DataPermitted(roots, node, path)
    decreases node, 1
  {
    var trimmed := Trim(path);
    var stop := RootPathsContain(roots, trimmed);
    if stop {
      return true;
    }
    if !node.Obj? {
      return false;
    }
    var onTheWay := CheckLeads(roots, trimmed);
    if !onTheWay {
      return false;
    }
    ok := CheckFields(roots, node, path);
  }

  method CheckFields(roots: seq<string>, node: Json, path: string) returns (ok: bool)
    requires node.Obj?
    ensures ok <==> forall k | k in node.fields :: DataPermitted(roots, node.fields[k], Down(path, k))
    decreases node, 0
  {
    var keys := node.fields.Keys;
    while keys != {}
      invariant keys <= node.fields.Keys
      invariant forall k | k in node.fields.Keys - keys :: DataPermitted(roots, node.fields[k], Down(path, k))
      decreases keys
    {
      var key :| key in keys;
      keys := keys - {key};
      ok := CheckData(roots, node.fields[key], Down(path, key));
      if !ok {
        return;
      }
    }
    return true;
  }

  /** Standardises the roots, and accepts a bundle exactly when all its contents lie where the roots permit. */
  method ValidateAndInjectDefaults(manifest: Option<seq<string>>, wasm: seq<WasmResolver>, c: Contents) returns (roots: seq<string>, ok: bool)
    ensures roots == Trimmed(manifest)
    ensures ok <==> Accepted(roots, wasm, c)
  {
    roots := Trimmed(manifest);
    ok := CheckSeparate(roots);
    if ok {
      ok := CheckPackages(roots, c.packages);
    }
    if ok {
      ok := CheckResolvers(roots, wasm, c.wasmFiles);
    }
    if ok {
      ok := CheckPatches(roots, c.patches);
    }
    if ok {
      ok := CheckData(roots, Obj(c.data), "");
    }
  }

  // What being accepted means for the data.

  ghost predicate PlainKey(k: string) {
    k != "" && '/' !in k
  }

  /** The string that the walk builds for a path of keys. */
  function Walked(keys: Path): string {
    if keys == [] then "" else Down(Walked(keys[..|keys| - 1]), keys[|keys| - 1])
  }

  lemma {:induction false} WalkedJoin(keys: Path)
    requires keys != []
    ensures Walked(keys) == "/" + Join(keys)
  {
    var n := |keys| - 1;
    if n > 0 {
      WalkedJoin(keys[..n]);
      JoinSnoc(keys[..n], keys[n]);
      assert keys == keys[..n] + [keys[n]];
    } else {
      assert keys[..n] == [];
    }
  }

  lemma {:induction false} JoinSnoc(parts: seq<string>, last: string)
    requires parts != []
    ensures Join(parts + [last]) == Join(parts) + "/" + last
  {
    var all := parts + [last];
    assert all[1..] == parts[1..] + [last];
    if |parts| > 1 {
      JoinSnoc(parts[1..], last);
    }
  }

  lemma {:induction false} SplitConcat(a: string, b: string)
    requires '/' !in a
    ensures Split(a + "/" + b) == [a] + Split(b)
  {
    var s := a + "/" + b;
    if a == "" {
      assert s[1..] == b;
    } else {
      SplitConcat(a[1..], b);
      assert s[1..] == a[1..] + "/" + b;
      assert [a[0]] + a[1..] == a;
    }
  }

  lemma {:induction false} SplitJoin(keys: Path)
    requires keys != [] && forall i | 0 <= i < |keys| :: '/' !in keys[i]
    ensures Split(Join(keys)) == keys
  {
    if |keys| == 1 {
      SplitSolid(keys[0]);
    } else {
      SplitJoin(keys[1..]);
      SplitConcat(keys[0], Join(keys[1..]));
    }
  }

  lemma {:induction false} JoinEnds(keys: Path)
    requires keys != [] && forall i | 0 <= i < |keys| :: PlainKey(keys[i])
    ensures var s := Join(keys); s != "" && s[0] != '/' && s[|s| - 1] != '/'
  {
    var k := keys[0];
    assert k[0] in k && k[|k| - 1] in k;
    if |keys| > 1 {
      JoinEnds(keys[1..]);
    }
  }

  lemma {:induction false} WalkedArea(keys: Path)
    requires forall i | 0 <= i < |keys| :: PlainKey(keys[i])
    ensures Area(Trim(Walked(keys))) == keys
  {
    if keys != [] {
      WalkedJoin(keys);
      JoinEnds(keys);
      SplitJoin(keys);
      var s := Join(keys);
      assert ("/" + s)[1..] == s;
      assert TrimLeft("/" + s) == s;
      assert TrimRight(s) == s;
    }
  }

  ghost predicate CoveredAt(roots: seq<string>, p: Path, n: nat) {
    n <= |p| && Covered(roots, Trim(Walked(p[..n])))
  }

  /** How many keys the walk follows before it stops inside the roots, counting from `n`. */
  ghost function Depth(roots: seq<string>, p: Path, n: nat): (m: nat)
    requires n <= |p|
    ensures n <= m <= |p|
    decreases |p| - n
  {
    if n == |p| || CoveredAt(roots, p, n) then n else Depth(roots, p, n + 1)
  }

  /** The walk to a permitted value that is not an object stops inside the roots. */
  lemma {:induction false} ValuesInside(roots: seq<string>, node: Json, p: Path, n: nat)
    requires n <= |p| && DataPermitted(roots, node, Walked(p[..n])) && Filled(Find(node, p[n..]))
    ensures CoveredAt(roots, p, Depth(roots, p, n))
    decreases |p| - n
  {
    if !Covered(roots, Trim(Walked(p[..n]))) {
      WalkedNext(p, n);
      assert p[n..][1..] == p[n + 1..];
      ValuesInside(roots, node.fields[p[n]], p, n + 1);
    }
  }

  lemma {:induction false} WalkedNext(p: Path, n: nat)
    requires n < |p|
    ensures Walked(p[..n + 1]) == Down(Walked(p[..n]), p[n])
  {
    assert p[..n + 1][..n] == p[..n];
  }

  lemma {:induction false} WalkedInRoots(roots: seq<string>, p: Path, n: nat)
    requires CoveredAt(roots, p, n) && forall i | 0 <= i < n :: PlainKey(p[i])
    ensures InRoots(roots, p)
  {
    WalkedArea(p[..n]);
    var i :| 0 <= i < |roots| && Area(roots[i]) <= Area(Trim(Walked(p[..n])));
    assert InArea(roots[i], p);
  }

  /** A permitted value that is not an object lies in the area of some root, if the keys down to that root are plain. */
  lemma {:induction false} ValuesPermitted(roots: seq<string>, node: Json, p: Path)
    requires DataPermitted(roots, node, "") && Filled(Find(node, p))
    requires forall i | 0 <= i < Depth(roots, p, 0) :: PlainKey(p[i])
    ensures InRoots(roots, p)
  {
    ValuesInside(roots, node, p, 0);
    WalkedInRoots(roots, p, Depth(roots, p, 0));
  }

  lemma {:induction false} FindConcat(d: Json, s: Path, p: Path)
    ensures Find(d, s + p) == (match Find(d, s) case None => None case Some(v) => Find(v, p))
    decreases |s|
  {
    if s == [] {
      assert s + p == p;
    } else {
      assert (s + p)[1..] == s[1..] + p;
      if d.Obj? && s[0] in d.fields {
        FindConcat(d.fields[s[0]], s[1..], p);
      }
    }
  }

  lemma {:induction false} FindPtr(d: Json, p: Path)
    requires Find(d, p).Some?
    ensures Ptr(d, p) == Find(d, p)
    decreases |p|
  {
    if p != [] {
      FindPtr(d.fields[p[0]], p[1..]);
    }
  }

  lemma {:induction false} StoredBelowRoot(d: Json, data: Json, s: Path, p: Path)
    requires s <= p && Find(data, p).Some? && Ptr(d, s) == Find(data, s)
    ensures Ptr(d, p) == Find(data, p)
  {
    var rest := p[|s|..];
    assert p == s + rest;
    FindConcat(data, s, rest);
    PtrConcat(d, s, rest);
    FindPtr(Find(data, s).value, rest);
  }

  lemma {:induction false} StoredInRoots(b: Bundle, d: Json, p: Path)
    requires Holds(d, b) && InRoots(b.manifest.roots, p) && Find(Obj(b.data), p).Some?
    ensures Ptr(d, p) == Find(Obj(b.data), p)
  {
    var roots := b.manifest.roots;
    var i :| 0 <= i < |roots| && InArea(roots[i], p);
    assert roots[i] in roots;
    StoredBelowRoot(d, Obj(b.data), Area(roots[i]), p);
  }

  /**
    Once its roots hold the data of an accepted bundle, every value is in the store whose keys are plain down to
    the first path inside the roots.
   */
  lemma {:induction false} AcceptedDataStored(b: Bundle, d: Json, p: Path)
    requires b.Snapshot? && DataPermitted(b.manifest.roots, Obj(b.data), "") && Holds(d, b)
    requires Filled(Find(Obj(b.data), p)) && forall i | 0 <= i < Depth(b.manifest.roots, p, 0) :: PlainKey(p[i])
    ensures Ptr(d, p) == Find(Obj(b.data), p)
  {
    ValuesPermitted(b.manifest.roots, Obj(b.data), p);
    StoredInRoots(b, d, p);
  }

  /** Writing a bundle's data stores a value exactly when its path of keys lies in the area of a root. */
  lemma {:induction false} StoredExactly(d: Json, d': Json, roots: seq<string>, data: map<string, Json>, p: Path)
    requires (forall r | r in roots :: Ordinary(r)) && Placed(d, d', roots, Obj(data))
    requires Filled(Find(Obj(data), p)) && !Filled(Ptr(d, p))
    ensures Ptr(d', p) == Find(Obj(data), p) <==> InRoots(roots, p)
  {
    if InRoots(roots, p) {
      StoredInRoots(Snapshot(Manifest(roots, []), data, []), d', p);
    }
    if Filled(Ptr(d', p)) {
      FilledInside(d, d', PathsOf(RootSet(roots)), p);
      var s :| s in PathsOf(RootSet(roots)) && s <= p;
      var r := NamedRoot(RootSet(roots), s);
      InRootsMember(roots, r, p);
    }
  }

  /** A key with a slash in it passes for a path: the bundle is accepted, and its value is never stored. */
  lemma {:induction false} SlashedKeyLost(v: Json, d: Json, d': Json)
    ensures var data := map["a/b" := v];
            && DataPermitted(["a/b"], Obj(data), "")
            && Find(Obj(data), ["a/b"]) == Some(v) && Find(Obj(data), Area("a/b")) == None
            && (Placed(d, d', ["a/b"], Obj(data)) ==> Ptr(d', Area("a/b")) == None)
            && (Placed(d, d', ["a/b"], Obj(data)) && !v.Obj? && !Filled(Ptr(d, ["a/b"])) ==> Ptr(d', ["a/b"]) != Some(v))
  {
    var data := map["a/b" := v];
    SlashedArea();
    SlashedPermitted(v);
    SlashedFind(v);
    assert "a/b" in ["a/b"];
    if Placed(d, d', ["a/b"], Obj(data)) && !v.Obj? && !Filled(Ptr(d, ["a/b"])) {
      StoredExactly(d, d', ["a/b"], data, ["a/b"]);
    }
  }

  lemma {:induction false} SlashedArea()
    ensures Area("a/b") == ["a", "b"] && Ordinary("a/b") && !InRoots(["a/b"], ["a/b"])
  {
    SplitSolid("b");
    SplitConcat("a", "b");
    assert "a" + "/" + "b" == "a/b";
    PlainStorage("a/b");
  }

  lemma {:induction false} SlashedFind(v: Json)
    ensures var data := Obj(map["a/b" := v]); Find(data, ["a/b"]) == Some(v) && Find(data, ["a", "b"]) == None
  {
    assert ["a/b"][1..] == [];
  }

  lemma {:induction false} SlashedPermitted(v: Json)
    ensures DataPermitted(["a/b"], Obj(map["a/b" := v]), "")
  {
    var roots, path := ["a/b"], Down("", "a/b");
    assert path == "/a/b" && "/a/b"[1..] == "a/b";
    assert Trim(path) == "a/b";
    assert Area(roots[0]) <= Area(Trim(path));
    assert Covered(roots, Trim(path));
    assert LeadsToRoot(roots, "") by {
      assert Area([""][0]) <= Area(roots[0]);
      assert Covered(Split(""), roots[0]);
    }
    assert Trim("") == "";
  }
}
