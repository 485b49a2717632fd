/** JSON documents as the store keeps them: reading at a path, patching, and making directories. */
module Documents {
  import opened Syntax
  import opened RootPaths
  import LocalVars

  datatype Json = Leaf(scalar: Scalar) | Arr(elems: seq<Json>) | Obj(fields: map<string, Json>)

  datatype Op = Add | Remove | Replace

  datatype Outcome = Done(doc: Json) | NotFound | Invalid

  // Array positions.

  function Digits(s: string): Option<nat> {
    if s == "" then Some(0)
    else if !('0' <= s[|s| - 1] <= '9') then None
    else
      match Digits(s[..|s| - 1])
      case None => None
      case Some(n) => Some(10 * n + (s[|s| - 1] as nat - '0' as nat))
  }

  /** A decimal number, possibly signed, that is not negative. */
  function ArrayIndex(s: string): Option<nat> {
    var signed := s != "" && (s[0] == '+' || s[0] == '-');
    var digits := if signed then s[1..] else s;
    if digits == "" then None
    else
      match Digits(digits)
      case None => None
      case Some(n) => if s[0] == '-' && n > 0 then None else Some(n)
  }

  function Position(elems: seq<Json>, s: string): (r: Option<nat>)
    ensures r.Some? ==> r.value < |elems|
  {
    match ArrayIndex(s)
    case None => None
    case Some(i) => if i < |elems| then Some(i) else None
  }

  // Reading and writing.

  function Ptr(d: Json, p: Path): Option<Json>
    decreases |p|
  {
    if p == [] then Some(d)
    else
      match d
      case Leaf(_) => None
      case Arr(elems) => (match Position(elems, p[0]) case None => None case Some(i) => Ptr(elems[i], p[1..]))
      case Obj(fields) => if p[0] in fields then Ptr(fields[p[0]], p[1..]) else None
  }

  function Write(d: Json, op: Op, p: Path, v: Json): Outcome {
    if p != [] then WriteBelow(d, op, p, v)
    else if op.Remove? || !v.Obj? then Invalid
    else Done(v)
  }

  function WriteBelow(d: Json, op: Op, p: Path, v: Json): Outcome
    requires p != []
    decreases |p|
  {
    match d
    case Leaf(_) => NotFound
    case Obj(fields) =>
      if |p| == 1 then WriteField(fields, op, p[0], v)
      else if p[0] !in fields then NotFound
      else (match WriteBelow(fields[p[0]], op, p[1..], v) case Done(c) => Done(Obj(fields[p[0] := c])) case other => other)
    case Arr(elems) =>
      if |p| == 1 then WriteElem(elems, op, p[0], v)
      else
        match Position(elems, p[0])
        case None => NotFound
        case Some(i) => match WriteBelow(elems[i], op, p[1..], v) case Done(c) => Done(Arr(elems[i := c])) case other => other
  }

  function WriteField(fields: map<string, Json>, op: Op, key: string, v: Json): Outcome {
    match op
    case Add => Done(Obj(fields[key := v]))
    case Replace => if key in fields then Done(Obj(fields[key := v])) else NotFound
    case Remove => if key in fields then Done(Obj(fields - {key})) else NotFound
  }

  function WriteElem(elems: seq<Json>, op: Op, key: string, v: Json): Outcome {
    if key == "-" || key == LocalVars.Decimal(|elems|) then
      if op.Add? then Done(Arr(elems + [v])) else Invalid
    else
      match Position(elems, key)
      case None => NotFound
      case Some(i) =>
        match op
        case Add => Done(Arr(elems[..i] + [v] + elems[i..]))
        case Remove => Done(Arr(elems[..i] + elems[i + 1..]))
        case Replace => Done(Arr(elems[i := v]))
  }

  function MakeDir(d: Json, p: Path): Outcome
    decreases |p|
  {
    if p == [] then Done(d)
    else
      match Ptr(d, p)
      case Some(v) => if v.Obj? then Done(d) else Invalid
      case None =>
        match MakeDir(d, p[..|p| - 1])
        case Done(d') => Write(d', Add, p, Obj(map[]))
        case other => other
  }

  // What a change at a path can disturb.

  ghost predicate Apart(p: Path, q: Path) {
    !Comparable(p, q)
  }

  ghost predicate Filled(o: Option<Json>) {
    o.Some? && !o.value.Obj?
  }

  ghost predicate IsArray(o: Option<Json>) {
    o.Some? && o.value.Arr?
  }

  /** No array lies strictly above the path. */
  ghost predicate Clear(d: Json, s: Path) {
    forall q: Path | q < s :: !IsArray(Ptr(d, q))
  }

  /** Nothing but objects lies strictly above the path. */
  ghost predicate Free(d: Json, s: Path) {
    forall q: Path | q < s :: !Filled(Ptr(d, q))
  }

  /** The change is confined to the path: what lies apart from it is kept, and above it nothing but objects appears. */
  ghost predicate Touches(d: Json, d': Json, s: Path) {
    && (forall p: Path | Apart(p, s) :: Ptr(d', p) == Ptr(d, p))
    && (forall p: Path | p < s :: Above(d, d', p))
  }

  ghost predicate Above(d: Json, d': Json, p: Path) {
    && (Filled(Ptr(d', p)) ==> Filled(Ptr(d, p)))
    && (IsArray(Ptr(d', p)) ==> IsArray(Ptr(d, p)))
  }

  lemma {:induction false} TouchesSame(d: Json, s: Path)
    ensures Touches(d, d, s)
  {
  }

  lemma {:induction false} TouchesTwice(d1: Json, d2: Json, d3: Json, s: Path)
    requires Touches(d1, d2, s) && Touches(d2, d3, s)
    ensures Touches(d1, d3, s)
  {
    forall p: Path | p < s ensures Above(d1, d3, p) {
      assert Above(d1, d2, p) && Above(d2, d3, p);
    }
  }

  lemma {:induction false} TouchesClear(d: Json, d': Json, s: Path)
    requires Touches(d, d', s) && Clear(d, s)
    ensures Clear(d', s)
  {
    forall q: Path | q < s ensures !IsArray(Ptr(d', q)) {
      assert Above(d, d', q);
    }
  }

  /** Nothing lies below a path that holds nothing. */
  lemma {:induction false} PtrBelow(d: Json, s: Path, p: Path)
    requires s <= p && Ptr(d, s) == None
    ensures Ptr(d, p) == None
    decreases |s|
  {
    var s', p' := s[1..], p[1..];
    match d
    case Leaf(_) =>
    case Arr(elems) =>
      var i := Position(elems, p[0]);
      if i.Some? { PtrBelow(elems[i.value], s', p'); }
    case Obj(fields) =>
      if p[0] in fields { PtrBelow(fields[p[0]], s', p'); }
  }

  lemma {:induction false} PtrConcat(d: Json, s: Path, p: Path)
    ensures Ptr(d, s + p) == (match Ptr(d, s) case None => None case Some(v) => Ptr(v, p))
    decreases |s|
  {
    if s == [] {
      assert s + p == p;
    } else {
      assert (s + p)[1..] == s[1..] + p;
      match d
      case Leaf(_) =>
      case Arr(elems) =>
        var i := Position(elems, s[0]);
        if i.Some? { PtrConcat(elems[i.value], s[1..], p); }
      case Obj(fields) =>
        if s[0] in fields { PtrConcat(fields[s[0]], s[1..], p); }
    }
  }

  lemma {:induction false} ApartTail(k: string, s: Path, q: Path)
    requires q != [] && q[0] == k
    ensures Comparable(q, [k] + s) <==> Comparable(q[1..], s)
    ensures q < [k] + s <==> q[1..] < s
  {
    var t := [k] + s;
    assert t[1..] == s;
    assert q == [k] + q[1..];
  }

  /** A change below a field is a change below the object. */
  lemma {:induction false} TouchesField(fields: map<string, Json>, k: string, c': Json, s: Path)
    requires k in fields && Touches(fields[k], c', s)
    ensures Touches(Obj(fields), Obj(fields[k := c']), [k] + s)
  {
    var d, d', t := Obj(fields), Obj(fields[k := c']), [k] + s;
    forall q: Path | Apart(q, t) ensures Ptr(d', q) == Ptr(d, q) {
      if q[0] == k { ApartTail(k, s, q); }
    }
    forall q: Path | q < t ensures Above(d, d', q) {
      if q != [] {
        assert q[0] == t[0];
        ApartTail(k, s, q);
        assert Above(fields[k], c', q[1..]);
      }
    }
  }

  /** A change of one field stays in that field. */
  lemma {:induction false} TouchesKey(fields: map<string, Json>, fields': map<string, Json>, k: string)
    requires fields - {k} == fields' - {k}
    ensures Touches(Obj(fields), Obj(fields'), [k])
  {
    var d, d' := Obj(fields), Obj(fields');
    forall q: Path | Apart(q, [k]) ensures Ptr(d', q) == Ptr(d, q) {
      assert q != [] && q[0] != k;
      assert q[0] in fields <==> q[0] in fields - {k};
      assert q[0] in fields' <==> q[0] in fields' - {k};
      assert q[0] in fields ==> fields[q[0]] == (fields - {k})[q[0]] == fields'[q[0]];
    }
    forall q: Path | q < [k] ensures Above(d, d', q) {
      assert q == [];
    }
  }

  lemma {:induction false} ClearField(fields: map<string, Json>, s: Path)
    requires s != [] && s[0] in fields && Clear(Obj(fields), s)
    ensures Clear(fields[s[0]], s[1..])
  {
    forall q: Path | q < s[1..] ensures !IsArray(Ptr(fields[s[0]], q)) {
      var t := [s[0]] + q;
      assert t[1..] == q && t < s;
      assert Ptr(Obj(fields), t) == Ptr(fields[s[0]], q);
    }
  }

  /** Writing at or below a path that no array shadows touches only that path. */
  lemma {:induction false} WriteTouches(d: Json, op: Op, p: Path, v: Json, s: Path)
    requires p != [] && s <= p && Clear(d, s) && WriteBelow(d, op, p, v).Done?
    ensures Touches(d, WriteBelow(d, op, p, v).doc, s)
    decreases |p|
  {
    if s != [] {
      assert Ptr(d, []) == Some(d) && [] < s;
      var k, fields, fields' := p[0], d.fields, WriteBelow(d, op, p, v).doc.fields;
      assert fields - {k} == fields' - {k};
      if |s| == 1 {
        assert s == [k];
        TouchesKey(fields, fields', k);
      } else {
        ClearField(fields, s);
        WriteTouches(fields[k], op, p[1..], v, s[1..]);
        TouchesField(fields, k, fields'[k], s[1..]);
        assert s == [k] + s[1..];
      }
    }
  }

  /** A removal takes effect, and fails only where there is nothing. */
  lemma {:induction false} RemoveGone(d: Json, p: Path, v: Json)
    requires p != [] && Clear(d, p)
    ensures match WriteBelow(d, Remove, p, v)
            case Done(d') => Ptr(d', p) == None
            case NotFound => Ptr(d, p) == None
            case Invalid => false
    decreases |p|
  {
    assert Ptr(d, []) == Some(d) && [] < p;
    if d.Obj? && |p| > 1 && p[0] in d.fields {
      ClearField(d.fields, p);
      RemoveGone(d.fields[p[0]], p[1..], v);
    }
  }

  /** Where there is nothing, nothing can be removed or replaced. */
  lemma {:induction false} WriteNothing(d: Json, op: Op, s: Path, p: Path, v: Json)
    requires !op.Add? && s != [] && s <= p && Clear(d, s) && Ptr(d, s) == None
    ensures WriteBelow(d, op, p, v) == NotFound
    decreases |p|
  {
    assert Ptr(d, []) == Some(d) && [] < s;
    if d.Obj? && p[0] in d.fields {
      assert |s| > 1;
      ClearField(d.fields, s);
      WriteNothing(d.fields[p[0]], op, s[1..], p[1..], v);
    }
  }

  lemma {:induction false} ReplaceFound(d: Json, p: Path, v: Json)
    requires p != [] && Clear(d, p) && Ptr(d, p).Some?
    ensures WriteBelow(d, Replace, p, v).Done? && Ptr(WriteBelow(d, Replace, p, v).doc, p) == Some(v)
    decreases |p|
  {
    assert Ptr(d, []) == Some(d) && [] < p;
    if |p| > 1 {
      ClearField(d.fields, p);
      ReplaceFound(d.fields[p[0]], p[1..], v);
    }
  }

  /** What was added is found again. */
  lemma {:induction false} AddFound(d: Json, p: Path, v: Json)
    requires p != [] && WriteBelow(d, Add, p, v).Done? && !IsArray(Ptr(d, p[..|p| - 1]))
    ensures Ptr(WriteBelow(d, Add, p, v).doc, p) == Some(v)
    decreases |p|
  {
    if |p| > 1 {
      assert p[1..][..|p| - 2] == p[..|p| - 1][1..];
      match d
      case Leaf(_) =>
      case Obj(fields) => AddFound(fields[p[0]], p[1..], v);
      case Arr(elems) => AddFound(elems[Position(elems, p[0]).value], p[1..], v);
    }
  }

  // Making directories.

  lemma {:induction false} ObjectStays(d: Json, op: Op, p: Path, v: Json)
    requires d.Obj? && p != [] && WriteBelow(d, op, p, v).Done?
    ensures WriteBelow(d, op, p, v).doc.Obj?
  {
  }

  lemma {:induction false} MakeDirMakes(d: Json, p: Path)
    requires d.Obj? && MakeDir(d, p).Done?
    ensures var d' := MakeDir(d, p).doc;
            d'.Obj? && Ptr(d', p).Some? && Ptr(d', p).value.Obj?
    ensures Ptr(d, p) == None ==> Ptr(MakeDir(d, p).doc, p) == Some(Obj(map[]))
    decreases |p|
  {
    if p != [] && Ptr(d, p) == None {
      MakeDirMakes(d, p[..|p| - 1]);
      var d1 := MakeDir(d, p[..|p| - 1]).doc;
      ObjectStays(d1, Add, p, Obj(map[]));
      AddFound(d1, p, Obj(map[]));
    }
  }

  lemma {:induction false} EmptyBelow(d: Json, s: Path, p: Path)
    requires s < p && Ptr(d, s) == Some(Obj(map[]))
    ensures Ptr(d, p) == None
  {
    PtrConcat(d, s, p[|s|..]);
    assert p == s + p[|s|..];
  }

  lemma {:induction false} MakeDirAddsNothing(d: Json, q: Path, p: Path)
    requires d.Obj? && q < p && MakeDir(d, q).Done? && Ptr(d, p) == None
    ensures Ptr(MakeDir(d, q).doc, p) == None
  {
    if Ptr(d, q) == None {
      MakeDirMakes(d, q);
      EmptyBelow(MakeDir(d, q).doc, q, p);
    }
  }

  /** An empty object appearing above a path touches that path at most. */
  lemma {:induction false} EmptyTouches(d: Json, d': Json, dir: Path, s: Path)
    requires dir < s && Touches(d, d', dir) && Ptr(d, dir) == None && Ptr(d', dir) == Some(Obj(map[]))
    ensures Touches(d, d', s)
  {
    forall q: Path | Apart(q, s) ensures Ptr(d', q) == Ptr(d, q) {
      if dir <= q {
        assert dir != q;
        PtrBelow(d, dir, q);
        EmptyBelow(d', dir, q);
      } else {
        assert Apart(q, dir);
      }
    }
    forall q: Path | q < s ensures Above(d, d', q) {
      PrefixesComparable(q, dir, s);
      if q < dir {
        assert Above(d, d', q);
      } else if dir < q {
        EmptyBelow(d', dir, q);
      } else {
        assert q == dir;
      }
    }
  }

  lemma {:induction false} ClearPrefix(d: Json, dir: Path, s: Path)
    requires dir <= s && Clear(d, s)
    ensures Clear(d, dir)
  {
  }

  lemma {:induction false} MakeDirTouches(d: Json, dir: Path, s: Path)
    requires d.Obj? && Comparable(s, dir) && Clear(d, s) && MakeDir(d, dir).Done?
    ensures Touches(d, MakeDir(d, dir).doc, s)
    decreases |dir|
  {
    if dir != [] && Ptr(d, dir) == None {
      var up := dir[..|dir| - 1];
      MakeDirMakes(d, dir);
      MakeDirMakes(d, up);
      MakeDirTouches(d, up, s);
      var d1, d2 := MakeDir(d, up).doc, MakeDir(d, dir).doc;
      TouchesClear(d, d1, s);
      if s <= dir {
        WriteTouches(d1, Add, dir, Obj(map[]), s);
      } else {
        ClearPrefix(d1, dir, s);
        WriteTouches(d1, Add, dir, Obj(map[]), dir);
        MakeDirAddsNothing(d, up, dir);
        EmptyTouches(d1, d2, dir, s);
      }
      TouchesTwice(d, d1, d2, s);
    }
  }

  // When operations succeed.

  lemma {:induction false} TouchesFree(d: Json, d': Json, s: Path)
    requires Touches(d, d', s) && Free(d, s)
    ensures Free(d', s)
  {
    forall q: Path | q < s ensures !Filled(Ptr(d', q)) {
      assert Above(d, d', q);
    }
  }

  /** A removal puts no array above any path, and nothing where nothing was. */
  lemma {:induction false} RemoveKeeps(d: Json, e: Path, v: Json, p: Path)
    requires e != [] && Clear(d, e) && Clear(d, p) && WriteBelow(d, Remove, e, v).Done?
    ensures var d' := WriteBelow(d, Remove, e, v).doc; Clear(d', p) && (Ptr(d, p) == None ==> Ptr(d', p) == None)
  {
    var d' := WriteBelow(d, Remove, e, v).doc;
    WriteTouches(d, Remove, e, v, e);
    RemoveGone(d, e, v);
    forall q: Path | q < p ensures !IsArray(Ptr(d', q)) {
      if e <= q {
        PtrBelow(d', e, q);
      } else if q < e {
        assert Above(d, d', q);
      }
    }
    if Ptr(d, p) == None {
      if e <= p {
        PtrBelow(d', e, p);
      } else if p < e {
        WriteNothing(d, Remove, p, e, v);
      }
    }
  }

  lemma {:induction false} AddDone(d: Json, p: Path, v: Json)
    requires p != [] && Ptr(d, p[..|p| - 1]).Some? && Ptr(d, p[..|p| - 1]).value.Obj?
    ensures WriteBelow(d, Add, p, v).Done?
    decreases |p|
  {
    if |p| > 1 {
      assert p[1..][..|p| - 2] == p[..|p| - 1][1..];
      match d
      case Leaf(_) =>
      case Obj(fields) => AddDone(fields[p[0]], p[1..], v);
      case Arr(elems) => AddDone(elems[Position(elems, p[0]).value], p[1..], v);
    }
  }

  /** Directories can be made where nothing but objects is in the way. */
  lemma {:induction false} MakeDirDone(d: Json, p: Path)
    requires d.Obj? && Free(d, p) && !Filled(Ptr(d, p))
    ensures MakeDir(d, p).Done?
    decreases |p|
  {
    if p != [] && Ptr(d, p) == None {
      var up := p[..|p| - 1];
      assert up < p;
      forall q: Path | q < up ensures !Filled(Ptr(d, q)) { assert q < p; }
      MakeDirDone(d, up);
      MakeDirMakes(d, up);
      AddDone(MakeDir(d, up).doc, p, Obj(map[]));
    }
  }

  /** A value can be placed where nothing but objects is in the way. */
  lemma {:induction false} PlaceDone(d: Json, s: Path, v: Json)
    requires d.Obj? && s != [] && Free(d, s)
    ensures var dir := s[..|s| - 1]; MakeDir(d, dir).Done? && WriteBelow(MakeDir(d, dir).doc, Add, s, v).Done?
  {
    var dir := s[..|s| - 1];
    assert dir < s;
    forall q: Path | q < dir ensures !Filled(Ptr(d, q)) { assert q < s; }
    MakeDirDone(d, dir);
    MakeDirMakes(d, dir);
    AddDone(MakeDir(d, dir).doc, s, v);
  }
}
