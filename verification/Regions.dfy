/** Changes confined to a set of paths: erasing them in any order, and filling them again. */
module Regions {
  import opened Syntax
  import opened RootPaths
  import opened Documents

  ghost predicate ApartAll(p: Path, region: set<Path>) {
    forall s | s in region :: Apart(p, s)
  }

  ghost predicate Beneath(region: set<Path>, p: Path) {
    exists s | s in region :: s <= p
  }

  /** Off the region all is kept, and what does not lie beneath it stays as free of values as it was. */
  ghost predicate Confined(d: Json, d': Json, region: set<Path>) {
    && (forall p | ApartAll(p, region) :: Ptr(d', p) == Ptr(d, p))
    && (forall p | !Beneath(region, p) :: Above(d, d', p))
  }

  lemma {:induction false} ConfinedSame(d: Json, region: set<Path>)
    ensures Confined(d, d, region)
  {
  }

  lemma {:induction false} ConfinedTwice(d1: Json, d2: Json, d3: Json, region: set<Path>)
    requires Confined(d1, d2, region) && Confined(d2, d3, region)
    ensures Confined(d1, d3, region)
  {
    forall p | !Beneath(region, p) ensures Above(d1, d3, p) {
      assert Above(d1, d2, p) && Above(d2, d3, p);
    }
  }

  lemma {:induction false} ConfinedTouch(d: Json, d': Json, s: Path, region: set<Path>)
    requires s in region && Touches(d, d', s)
    ensures Confined(d, d', region)
  {
    forall p | !Beneath(region, p) ensures Above(d, d', p) {
      if p < s {
        assert Above(d, d', p);
      } else {
        assert !(s <= p) && !(p <= s);
        assert Apart(p, s);
      }
    }
  }

  lemma {:induction false} ConfinedWider(d: Json, d': Json, region: set<Path>, wider: set<Path>)
    requires Confined(d, d', region) && region <= wider
    ensures Confined(d, d', wider)
  {
    forall p | ApartAll(p, wider) ensures Ptr(d', p) == Ptr(d, p) {
      assert ApartAll(p, region);
    }
    forall p | !Beneath(wider, p) ensures Above(d, d', p) {
      assert !Beneath(region, p);
    }
  }

  /** A path that nothing in the region overlaps keeps its value, and stays free of arrays above. */
  lemma {:induction false} ConfinedElsewhere(d: Json, d': Json, region: set<Path>, t: Path)
    requires Confined(d, d', region) && ApartAll(t, region)
    ensures Ptr(d', t) == Ptr(d, t)
    ensures Clear(d, t) ==> Clear(d', t)
  {
    if Clear(d, t) {
      forall q: Path | q < t ensures !IsArray(Ptr(d', q)) {
        forall s | s in region ensures !(s <= q) {
          assert Apart(t, s);
        }
        assert !Beneath(region, q);
        assert Above(d, d', q);
      }
    }
  }

  // Erasing.

  /** The outermost paths of a region. */
  ghost predicate Top(region: set<Path>, s: Path) {
    s in region && forall t | t in region :: !(t < s)
  }

  lemma {:induction false} TopAbove(region: set<Path>, p: Path) returns (s: Path)
    requires p in region
    ensures Top(region, s) && s <= p
    decreases |p|
  {
    if Top(region, p) {
      s := p;
    } else {
      var t :| t in region && t < p;
      s := TopAbove(region, t);
    }
  }

  ghost predicate Erasable(d: Json, region: set<Path>) {
    d.Obj? && [] !in region && forall s | Top(region, s) :: Clear(d, s)
  }

  /** All changes so far stayed in the region, and so will further ones. */
  ghost predicate Working(d0: Json, d: Json, region: set<Path>) {
    Erasable(d, region) && Confined(d0, d, region)
  }

  ghost predicate Erasing(d0: Json, d: Json, region: set<Path>, done: set<Path>) {
    && Working(d0, d, region)
    && forall s | Top(region, s) && s in done :: Ptr(d, s) == None
  }

  /** The region is empty, and ready to be filled. */
  ghost predicate Erased(d0: Json, d: Json, region: set<Path>) {
    && d.Obj?
    && Confined(d0, d, region)
    && forall s | s in region :: Ptr(d, s) == None && Clear(d, s)
  }

  lemma {:induction false} EraseStart(d: Json, region: set<Path>)
    requires Erasable(d, region)
    ensures Erasing(d, d, region, {})
  {
    ConfinedSame(d, region);
  }

  lemma {:induction false} TopsApart(region: set<Path>, s: Path, t: Path)
    requires Top(region, s) && Top(region, t)
    ensures s == t || Apart(s, t)
  {
  }

  lemma {:induction false} TopStaysClear(d: Json, d': Json, region: set<Path>, t: Path)
    requires Confined(d, d', region) && Top(region, t) && Clear(d, t)
    ensures Clear(d', t)
  {
    forall q: Path | q < t ensures !IsArray(Ptr(d', q)) {
      forall s | s in region ensures !(s <= q) {
        assert !(s < t);
      }
      assert !Beneath(region, q);
      assert Above(d, d', q);
    }
  }

  /** Removing any path of the region brings the erasure on, unless the store refuses. */
  lemma {:induction false} EraseStep(d0: Json, d: Json, region: set<Path>, done: set<Path>, e: Path, v: Json)
    requires Erasing(d0, d, region, done) && e in region
    ensures match WriteBelow(d, Remove, e, v)
            case Done(d') => Erasing(d0, d', region, done + {e})
            case NotFound => Erasing(d0, d, region, done + {e})
            case Invalid => true
  {
    var s := TopAbove(region, e);
    var outcome := WriteBelow(d, Remove, e, v);
    if Top(region, e) {
      RemoveGone(d, e, v);
    }
    if outcome.Done? {
      var d' := outcome.doc;
      ObjectStays(d, Remove, e, v);
      WriteTouches(d, Remove, e, v, s);
      WorkOn(d0, d, d', region, s);
      forall t | Top(region, t) && t in done + {e} ensures Ptr(d', t) == None {
        TopsApart(region, s, t);
        if t in done && t == s && t != e {
          WriteNothing(d, Remove, s, e, v);
        }
      }
    }
  }

  /** Any change at or below an outermost path of the region stays in the region. */
  lemma {:induction false} WorkOn(d0: Json, d: Json, d': Json, region: set<Path>, s: Path)
    requires Working(d0, d, region) && Top(region, s) && d'.Obj? && Touches(d, d', s)
    ensures Working(d0, d', region)
  {
    ConfinedTouch(d, d', s, region);
    ConfinedTwice(d0, d, d', region);
    forall t | Top(region, t) ensures Clear(d', t) {
      TopStaysClear(d, d', region, t);
    }
  }

  /** Nothing is left, and no array is in the way, below an outermost path that was erased. */
  lemma {:induction false} ErasedBelow(d0: Json, d: Json, region: set<Path>, done: set<Path>, s: Path, e: Path)
    requires Erasing(d0, d, region, done) && Top(region, s) && s in done && s <= e
    ensures Ptr(d, e) == None && Clear(d, e)
  {
    PtrBelow(d, s, e);
    forall q: Path | q < e ensures !IsArray(Ptr(d, q)) {
      PrefixesComparable(q, s, e);
      if s <= q { PtrBelow(d, s, q); }
    }
  }

  lemma {:induction false} EraseEnd(d0: Json, d: Json, region: set<Path>)
    requires Erasing(d0, d, region, region)
    ensures Erased(d0, d, region)
  {
    forall e | e in region ensures Ptr(d, e) == None && Clear(d, e) {
      var s := TopAbove(region, e);
      ErasedBelow(d0, d, region, region, s, e);
    }
  }

  // Changes that stay in any region.

  /** The change stays in every region that includes the paths. */
  ghost predicate StaysIn(d: Json, d': Json, paths: set<Path>) {
    forall region: set<Path> | paths <= region && Erasable(d, region) :: Working(d, d', region)
  }

  lemma {:induction false} StaysSame(d: Json, paths: set<Path>)
    ensures StaysIn(d, d, paths)
  {
    forall region: set<Path> | paths <= region && Erasable(d, region) ensures Working(d, d, region) {
      ConfinedSame(d, region);
    }
  }

  lemma {:induction false} StaysTwice(d1: Json, d2: Json, d3: Json, paths: set<Path>, more: set<Path>)
    requires StaysIn(d1, d2, paths) && StaysIn(d2, d3, more) && more <= paths
    ensures StaysIn(d1, d3, paths)
  {
    forall region: set<Path> | paths <= region && Erasable(d1, region) ensures Working(d1, d3, region) {
      assert Working(d1, d2, region);
      ConfinedTwice(d1, d2, d3, region);
    }
  }

  lemma {:induction false} StaysMore(d: Json, d': Json, paths: set<Path>, more: set<Path>)
    requires StaysIn(d, d', paths) && paths <= more
    ensures StaysIn(d, d', more)
  {
  }

  lemma {:induction false} StaysBelow(d: Json, d': Json, p: Path, paths: set<Path>)
    requires p in paths && d'.Obj?
    requires forall s: Path | s != [] && s <= p && Clear(d, s) :: Touches(d, d', s)
    ensures StaysIn(d, d', paths)
  {
    forall region: set<Path> | paths <= region && Erasable(d, region) ensures Working(d, d', region) {
      var s := TopAbove(region, p);
      ConfinedSame(d, region);
      WorkOn(d, d, d', region, s);
    }
  }

  // Erasing where no array is in the way.

  /** No array lies above any of the paths. */
  ghost predicate Unshadowed(d: Json, region: set<Path>) {
    forall e | e in region :: Clear(d, e)
  }

  ghost function Occupied(d: Json, region: set<Path>): set<Path> {
    set e | e in region && Ptr(d, e).Some?
  }

  /** Only what was there has been removed. */
  ghost predicate Clearing(d0: Json, d: Json, region: set<Path>) {
    && d.Obj? && Unshadowed(d, region)
    && Confined(d0, d, Occupied(d0, region))
    && forall e | e in region && Ptr(d0, e) == None :: Ptr(d, e) == None
  }

  lemma {:induction false} ClearingStart(d: Json, region: set<Path>)
    requires d.Obj? && Unshadowed(d, region)
    ensures Clearing(d, d, region)
  {
    ConfinedSame(d, Occupied(d, region));
  }

  /** Removing any of the paths does not fail, except by finding nothing. */
  lemma {:induction false} ClearingStep(d0: Json, d: Json, region: set<Path>, e: Path, v: Json)
    requires Clearing(d0, d, region) && e in region && e != []
    ensures match WriteBelow(d, Remove, e, v)
            case Done(d') => Clearing(d0, d', region)
            case NotFound => true
            case Invalid => false
  {
    RemoveGone(d, e, v);
    if WriteBelow(d, Remove, e, v).Done? {
      var d' := WriteBelow(d, Remove, e, v).doc;
      ObjectStays(d, Remove, e, v);
      if Ptr(d, e) == None { WriteNothing(d, Remove, e, e, v); }
      assert e in Occupied(d0, region);
      WriteTouches(d, Remove, e, v, e);
      ConfinedTouch(d, d', e, Occupied(d0, region));
      ConfinedTwice(d0, d, d', Occupied(d0, region));
      forall p | p in region ensures Clear(d', p) && (Ptr(d, p) == None ==> Ptr(d', p) == None) {
        RemoveKeeps(d, e, v, p);
      }
    }
  }

  // Filling.

  /** The value at a path, reached through objects only. */
  function Find(d: Json, p: Path): Option<Json>
    decreases |p|
  {
    if p == [] then Some(d)
    else if d.Obj? && p[0] in d.fields then Find(d.fields[p[0]], p[1..])
    else None
  }

  /** Making the directory and adding a value puts it there and touches nothing else. */
  lemma {:induction false} PlaceValue(d: Json, s: Path, v: Json)
    requires d.Obj? && s != [] && Clear(d, s)
    requires MakeDir(d, s[..|s| - 1]).Done? && WriteBelow(MakeDir(d, s[..|s| - 1]).doc, Add, s, v).Done?
    ensures var d' := WriteBelow(MakeDir(d, s[..|s| - 1]).doc, Add, s, v).doc;
            d'.Obj? && Ptr(d', s) == Some(v) && Touches(d, d', s)
  {
    var dir := s[..|s| - 1];
    var d1 := MakeDir(d, dir).doc;
    MakeDirMakes(d, dir);
    MakeDirTouches(d, dir, s);
    TouchesClear(d, d1, s);
    ObjectStays(d1, Add, s, v);
    AddFound(d1, s, v);
    WriteTouches(d1, Add, s, v, s);
    TouchesTwice(d, d1, WriteBelow(d1, Add, s, v).doc, s);
  }
}
