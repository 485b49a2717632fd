/** What a patch does depends only on what is stored at its root. */
module PatchLocality {
  import opened Syntax
  import opened RootPaths
  import opened Documents
  import opened Regions
  import opened Bundles

  /** The documents hold the same at the path, and nothing but objects above it. */
  ghost predicate Same(d1: Json, d2: Json, s: Path) {
    d1.Obj? && d2.Obj? && Free(d1, s) && Free(d2, s) && Ptr(d1, s) == Ptr(d2, s)
  }

  /** Both operations fail, or both succeed and leave the same at the path. */
  ghost predicate SameOutcome(o1: Outcome, o2: Outcome, s: Path) {
    (o1.Done? <==> o2.Done?) && (o1.Done? ==> Same(o1.doc, o2.doc, s))
  }

  lemma {:induction false} FreeClear(d: Json, s: Path)
    requires Free(d, s)
    ensures Clear(d, s)
  {
  }

  lemma {:induction false} SameBelow(d1: Json, d2: Json, s: Path, p: Path)
    requires Same(d1, d2, s) && s <= p
    ensures Ptr(d1, p) == Ptr(d2, p)
  {
    PtrConcat(d1, s, p[|s|..]);
    PtrConcat(d2, s, p[|s|..]);
    assert p == s + p[|s|..];
  }

  /** Writing below a value is writing into the value. */
  lemma {:induction false} WriteInside(d: Json, op: Op, s: Path, p: Path, v: Json)
    requires s < p && Ptr(d, s).Some?
    ensures match WriteBelow(Ptr(d, s).value, op, p[|s|..], v)
            case Done(c) => WriteBelow(d, op, p, v).Done? && Ptr(WriteBelow(d, op, p, v).doc, s) == Some(c)
            case other => WriteBelow(d, op, p, v) == other
    decreases |s|
  {
    if s != [] {
      assert p[1..][|s| - 1..] == p[|s|..];
      match d
      case Leaf(_) =>
      case Obj(fields) => WriteInside(fields[p[0]], op, s[1..], p[1..], v);
      case Arr(elems) => WriteInside(elems[Position(elems, p[0]).value], op, s[1..], p[1..], v);
    }
  }

  lemma {:induction false} SameAfter(d1: Json, d2: Json, d1': Json, d2': Json, s: Path)
    requires Same(d1, d2, s) && Touches(d1, d1', s) && Touches(d2, d2', s)
    requires d1'.Obj? && d2'.Obj? && Ptr(d1', s) == Ptr(d2', s)
    ensures Same(d1', d2', s)
  {
    TouchesFree(d1, d1', s);
    TouchesFree(d2, d2', s);
  }

  lemma {:induction false} WriteKeepsFree(d: Json, op: Op, p: Path, v: Json, s: Path)
    requires d.Obj? && s != [] && s <= p && Free(d, s) && WriteBelow(d, op, p, v).Done?
    ensures var d' := WriteBelow(d, op, p, v).doc; d'.Obj? && Touches(d, d', s)
  {
    FreeClear(d, s);
    ObjectStays(d, op, p, v);
    WriteTouches(d, op, p, v, s);
  }

  lemma {:induction false} WriteInsideSame(d1: Json, d2: Json, op: Op, s: Path, p: Path, v: Json)
    requires Same(d1, d2, s) && s != [] && s < p && Ptr(d1, s).Some?
    ensures SameOutcome(WriteBelow(d1, op, p, v), WriteBelow(d2, op, p, v), s)
  {
    WriteInside(d1, op, s, p, v);
    WriteInside(d2, op, s, p, v);
    if WriteBelow(d1, op, p, v).Done? {
      WriteKeepsFree(d1, op, p, v, s);
      WriteKeepsFree(d2, op, p, v, s);
      SameAfter(d1, d2, WriteBelow(d1, op, p, v).doc, WriteBelow(d2, op, p, v).doc, s);
    }
  }

  /** Removing or replacing at or below the path. */
  lemma {:induction false} ChangeSame(d1: Json, d2: Json, op: Op, s: Path, p: Path, v: Json)
    requires Same(d1, d2, s) && s != [] && s <= p && !op.Add?
    ensures SameOutcome(WriteBelow(d1, op, p, v), WriteBelow(d2, op, p, v), s)
  {
    FreeClear(d1, s);
    FreeClear(d2, s);
    if Ptr(d1, s) == None {
      WriteNothing(d1, op, s, p, v);
      WriteNothing(d2, op, s, p, v);
    } else if s < p {
      WriteInsideSame(d1, d2, op, s, p, v);
    } else {
      assert p == s;
      ChangeAt(d1, op, s, v);
      ChangeAt(d2, op, s, v);
      SameAfter(d1, d2, WriteBelow(d1, op, s, v).doc, WriteBelow(d2, op, s, v).doc, s);
    }
  }

  lemma {:induction false} ChangeAt(d: Json, op: Op, s: Path, v: Json)
    requires d.Obj? && s != [] && Free(d, s) && Ptr(d, s).Some? && !op.Add?
    ensures var o := WriteBelow(d, op, s, v);
            o.Done? && o.doc.Obj? && Touches(d, o.doc, s) && Ptr(o.doc, s) == if op.Remove? then None else Some(v)
  {
    FreeClear(d, s);
    if op.Remove? {
      RemoveGone(d, s, v);
    } else {
      ReplaceFound(d, s, v);
    }
    WriteKeepsFree(d, op, s, v, s);
  }

  // Directories.

  lemma {:induction false} PlaceAt(d: Json, s: Path, v: Json)
    requires d.Obj? && s != [] && Free(d, s)
    ensures var dir := s[..|s| - 1];
            && MakeDir(d, dir).Done? && WriteBelow(MakeDir(d, dir).doc, Add, s, v).Done?
            && var d' := WriteBelow(MakeDir(d, dir).doc, Add, s, v).doc; d'.Obj? && Ptr(d', s) == Some(v) && Touches(d, d', s)
  {
    FreeClear(d, s);
    PlaceDone(d, s, v);
    PlaceValue(d, s, v);
  }

  lemma {:induction false} MakeDirSame(d1: Json, d2: Json, s: Path, dir: Path)
    requires Same(d1, d2, s) && s != [] && s <= dir
    ensures SameOutcome(MakeDir(d1, dir), MakeDir(d2, dir), s)
    decreases |dir|
  {
    SameBelow(d1, d2, s, dir);
    if Ptr(d1, dir) == None {
      var up := dir[..|dir| - 1];
      if dir == s {
        PlaceAt(d1, s, Obj(map[]));
        PlaceAt(d2, s, Obj(map[]));
        SameAfter(d1, d2, MakeDir(d1, dir).doc, MakeDir(d2, dir).doc, s);
      } else {
        assert s <= up;
        MakeDirSame(d1, d2, s, up);
        if MakeDir(d1, up).Done? { AddInMade(d1, d2, s, dir, Obj(map[])); }
      }
    }
  }

  /** Adding where the directory has been made, below the path. */
  lemma {:induction false} AddInMade(d1: Json, d2: Json, s: Path, p: Path, v: Json)
    requires s != [] && s < p && d1.Obj? && d2.Obj?
    requires var up := p[..|p| - 1]; MakeDir(d1, up).Done? && MakeDir(d2, up).Done? && Same(MakeDir(d1, up).doc, MakeDir(d2, up).doc, s)
    ensures var up := p[..|p| - 1]; SameOutcome(Write(MakeDir(d1, up).doc, Add, p, v), Write(MakeDir(d2, up).doc, Add, p, v), s)
  {
    var up := p[..|p| - 1];
    var m1, m2 := MakeDir(d1, up).doc, MakeDir(d2, up).doc;
    MakeDirMakes(d1, up);
    assert s <= up;
    if Ptr(m1, s) == None { PtrBelow(m1, s, up); }
    WriteInsideSame(m1, m2, Add, s, p, v);
  }

  lemma {:induction false} UpsertSame(d1: Json, d2: Json, s: Path, p: Path, v: Json)
    requires Same(d1, d2, s) && s != [] && s <= p
    ensures SameOutcome(Upsert(d1, p, v), Upsert(d2, p, v), s)
  {
    if p == s {
      UpsertAt(d1, s, v);
      UpsertAt(d2, s, v);
      SameAfter(d1, d2, Upsert(d1, s, v).doc, Upsert(d2, s, v).doc, s);
    } else {
      var dir := p[..|p| - 1];
      assert s <= dir;
      SameBelow(d1, d2, s, dir);
      if Ptr(d1, dir) == None {
        MakeDirSame(d1, d2, s, dir);
        if MakeDir(d1, dir).Done? { AddInMade(d1, d2, s, p, v); }
      } else {
        if Ptr(d1, s) == None { PtrBelow(d1, s, dir); }
        WriteInsideSame(d1, d2, Add, s, p, v);
      }
    }
  }

  lemma {:induction false} UpsertAt(d: Json, s: Path, v: Json)
    requires d.Obj? && s != [] && Free(d, s)
    ensures var o := Upsert(d, s, v); o.Done? && o.doc.Obj? && Touches(d, o.doc, s) && Ptr(o.doc, s) == Some(v)
  {
    var dir := s[..|s| - 1];
    assert dir < s;
    PlaceAt(d, s, v);
    if Ptr(d, dir).Some? {
      assert MakeDir(d, dir) == Done(d);
    }
  }

  // Patches.

  lemma {:induction false} PatchSame(d1: Json, d2: Json, patch: Patch, root: string)
    requires Ordinary(root) && Literal(root) && Same(d1, d2, Area(root)) && Area(root) <= Area(Trim(patch.path))
    ensures SameOutcome(ApplyPatch(d1, patch), ApplyPatch(d2, patch), Area(root))
  {
    StoredRoot(root);
    PatchInside(root, patch.path);
    var p := PatchPath(patch.path);
    if patch.op == "upsert" {
      UpsertSame(d1, d2, Area(root), p, patch.value);
    } else if patch.op == "remove" {
      ChangeSame(d1, d2, Remove, Area(root), p, patch.value);
    } else if patch.op == "replace" {
      ChangeSame(d1, d2, Replace, Area(root), p, patch.value);
    }
  }

  ghost predicate SameAt(d1: Json, d2: Json, roots: seq<string>) {
    d1.Obj? && d2.Obj? && forall r | r in roots :: Same(d1, d2, Area(r))
  }

  lemma {:induction false} TouchesApart(d: Json, d': Json, s: Path, t: Path)
    requires Touches(d, d', s) && Apart(t, s) && Free(d, t)
    ensures Ptr(d', t) == Ptr(d, t) && Free(d', t)
  {
    forall q: Path | q < t ensures !Filled(Ptr(d', q)) {
      if q < s {
        assert Above(d, d', q);
      } else {
        assert Apart(q, s);
      }
    }
  }

  /** A patch below one of several separate roots finds and leaves the same at all of them. */
  lemma {:induction false} PatchSameAt(d1: Json, d2: Json, patch: Patch, roots: seq<string>)
    requires SameAt(d1, d2, roots) && Separate(roots) && Patchable(roots) && Covered(roots, Trim(patch.path))
    ensures ApplyPatch(d1, patch).Done? <==> ApplyPatch(d2, patch).Done?
    ensures ApplyPatch(d1, patch).Done? ==> SameAt(ApplyPatch(d1, patch).doc, ApplyPatch(d2, patch).doc, roots)
  {
    var i :| 0 <= i < |roots| && Area(roots[i]) <= Area(Trim(patch.path));
    var t := roots[i];
    assert t in roots;
    PatchSame(d1, d2, patch, t);
    if ApplyPatch(d1, patch).Done? {
      var d1', d2' := ApplyPatch(d1, patch).doc, ApplyPatch(d2, patch).doc;
      StoredRoot(t);
      FreeClear(d1, Area(t));
      FreeClear(d2, Area(t));
      PatchTouches(d1, patch, t, Area(t));
      PatchTouches(d2, patch, t, Area(t));
      forall r | r in roots ensures Same(d1', d2', Area(r)) {
        if r != t {
          SeparateMembers(roots, r, t);
          TouchesApart(d1, d1', Area(t), Area(r));
          TouchesApart(d2, d2', Area(t), Area(r));
        }
      }
    }
  }

  /** So do all the patches of a bundle. */
  lemma {:induction false} PatchesSameAt(d1: Json, d2: Json, patches: seq<Patch>, roots: seq<string>)
    requires SameAt(d1, d2, roots) && Separate(roots) && Patchable(roots) && AllCovered(roots, patches)
    ensures PatchDoc(d1, patches).Done? <==> PatchDoc(d2, patches).Done?
    ensures PatchDoc(d1, patches).Done? ==> SameAt(PatchDoc(d1, patches).doc, PatchDoc(d2, patches).doc, roots)
  {
    if patches != [] {
      var n := |patches| - 1;
      PatchesSameAt(d1, d2, patches[..n], roots);
      if PatchDoc(d1, patches[..n]).Done? {
        PatchSameAt(PatchDoc(d1, patches[..n]).doc, PatchDoc(d2, patches[..n]).doc, patches[n], roots);
      }
    }
  }
}
