/** The algebra of bundle root paths, and the storage paths they stand for. */
module RootPaths {
  import opened Syntax

  type Path = seq<string>

  // Splitting on slashes.

  function Split(s: string): (r: seq<string>)
    ensures r != []
  {
    if s == "" then [""]
    else if s[0] == '/' then [""] + Split(s[1..])
    else var r := Split(s[1..]); [[s[0]] + r[0]] + r[1..]
  }

  function Join(parts: seq<string>): string
    requires parts != []
  {
    if |parts| == 1 then parts[0] else parts[0] + "/" + Join(parts[1..])
  }

  lemma {:induction false} JoinSlash(r: seq<string>)
    requires r != []
    ensures Join([""] + r) == "/" + Join(r)
  {
  }

  lemma {:induction false} JoinGrow(c: char, r: seq<string>)
    requires r != []
    ensures Join([[c] + r[0]] + r[1..]) == [c] + Join(r)
  {
  }

  lemma {:induction false} JoinSplit(s: string)
    ensures Join(Split(s)) == s
  {
    if s != "" {
      JoinSplit(s[1..]);
      if s[0] == '/' {
        JoinSlash(Split(s[1..]));
      } else {
        JoinGrow(s[0], Split(s[1..]));
      }
    }
  }

  /** What a root covers: everything at or below this path; the empty root covers everything. */
  function Area(root: string): Path {
    if root == "" then [] else Split(root)
  }

  lemma {:induction false} SplitEmpty(s: string)
    ensures Split(s) == [""] <==> s == ""
  {
    if s != "" && Split(s) == [""] {
      JoinSplit(s);
    }
  }

  ghost predicate InArea(root: string, p: Path) {
    Area(root) <= p
  }

  predicate Comparable(p: Path, q: Path) {
    p <= q || q <= p
  }

  predicate Overlaps(a: string, b: string) {
    Comparable(Area(a), Area(b))
  }

  /** Some root contains the path. */
  ghost predicate Covered(roots: seq<string>, path: string) {
    exists i | 0 <= i < |roots| :: Area(roots[i]) <= Area(path)
  }

  method RootContains(root: seq<string>, other: seq<string>) returns (r: bool)
    ensures r <==> root == [""] || root <= other
  {
    if |root| == 1 && root[0] == "" {
      return true;
    }
    if |root| > |other| {
      return false;
    }
    for j := 0 to |root|
      invariant root[..j] == other[..j]
    {
      if root[j] != other[j] {
        return false;
      }
    }
    return true;
  }

  lemma {:induction false} ContainsArea(a: string, b: string)
    ensures (Split(a) == [""] || Split(a) <= Split(b)) <==> Area(a) <= Area(b)
  {
    SplitEmpty(a);
    SplitEmpty(b);
    if a != "" && b == "" {
      assert Split(a) <= Split(b) ==> Split(a) == [""];
    }
  }

  method RootPathsOverlap(a: string, b: string) returns (r: bool)
    ensures r <==> Overlaps(a, b)
  {
    ContainsArea(a, b);
    ContainsArea(b, a);
    var ab := RootContains(Split(a), Split(b));
    var ba := RootContains(Split(b), Split(a));
    return ab || ba;
  }

  method RootPathsContain(roots: seq<string>, path: string) returns (r: bool)
    ensures r <==> Covered(roots, path)
  {
    for i := 0 to |roots|
      invariant forall j | 0 <= j < i :: !(Area(roots[j]) <= Area(path))
    {
      ContainsArea(roots[i], path);
      var c := RootContains(Split(roots[i]), Split(path));
      if c {
        return true;
      }
    }
    return false;
  }

  /** Two roots overlap exactly when some path lies in the area of both. */
  lemma {:induction false} OverlapsIffShared(a: string, b: string)
    ensures Overlaps(a, b) <==> exists p: Path :: InArea(a, p) && InArea(b, p)
  {
    if Area(a) <= Area(b) {
      assert InArea(a, Area(b)) && InArea(b, Area(b));
    } else if Area(b) <= Area(a) {
      assert InArea(a, Area(a)) && InArea(b, Area(a));
    }
    if p: Path :| InArea(a, p) && InArea(b, p) {
      PrefixesComparable(Area(a), Area(b), p);
    }
  }

  lemma {:induction false} PrefixesComparable(a: Path, b: Path, p: Path)
    requires a <= p && b <= p
    ensures Comparable(a, b)
  {
  }

  ghost predicate RootsDisjoint(a: seq<string>, b: seq<string>) {
    forall i, j | 0 <= i < |a| && 0 <= j < |b| :: !Overlaps(a[i], b[j])
  }

  /** Whether the relation holds between an element of the one and an element of the other. */
  method AnyPair<T>(related: (T, T) -> bool, a: seq<T>, b: seq<T>) returns (r: bool)
    ensures r <==> exists i, j | 0 <= i < |a| && 0 <= j < |b| :: related(a[i], b[j])
  {
    for i := 0 to |a|
      invariant forall k, l | 0 <= k < i && 0 <= l < |b| :: !related(a[k], b[l])
    {
      for j := 0 to |b|
        invariant forall l | 0 <= l < j :: !related(a[i], b[l])
      {
        if related(a[i], b[j]) {
          return true;
        }
      }
    }
    return false;
  }

  lemma {:induction false} DisjointMeans(related: (string, string) -> bool, a: seq<string>, b: seq<string>)
    requires forall x, y :: related(x, y) <==> Overlaps(x, y)
    ensures RootsDisjoint(a, b) <==> !exists i, j | 0 <= i < |a| && 0 <= j < |b| :: related(a[i], b[j])
  {
  }

  method RootsCollide(a: seq<string>, b: seq<string>) returns (r: bool)
    ensures r <==> !RootsDisjoint(a, b)
  {
    var related := (x, y) => Overlaps(x, y);
    DisjointMeans(related, a, b);
    r := AnyPair(related, a, b);
  }

  // Storage paths.

  function HexDigit(c: char): Option<nat> {
    if '0' <= c <= '9' then Some(c as nat - '0' as nat)
    else if 'a' <= c <= 'f' then Some(c as nat - 'a' as nat + 10)
    else if 'A' <= c <= 'F' then Some(c as nat - 'A' as nat + 10)
    else None
  }

  /** Decodes percent escapes; a malformed escape is an error. */
  function PathUnescape(s: string): Option<string> {
    if s == "" then Some("")
    else if s[0] == '%' then
      if |s| < 3 then None
      else
        (match (HexDigit(s[1]), HexDigit(s[2]), PathUnescape(s[3..]))
        case (Some(hi), Some(lo), Some(rest)) => Some([(16 * hi + lo) as char] + rest)
        case _ => None)
    else
      match PathUnescape(s[1..])
      case None => None
      case Some(rest) => Some([s[0]] + rest)
  }

  function UnescapeSegment(s: string): string {
    match PathUnescape(s) case None => s case Some(r) => r
  }

  function UnescapeAll(p: Path): (r: Path)
    ensures |r| == |p|
    ensures forall i | 0 <= i < |p| :: r[i] == UnescapeSegment(p[i])
  {
    if p == [] then [] else [UnescapeSegment(p[0])] + UnescapeAll(p[1..])
  }

  /** The path that a slash and the root are parsed into. */
  function StoragePath(root: string): Path {
    UnescapeAll(Area(root))
  }

  lemma {:induction false} PlainSegment(s: string)
    requires '%' !in s
    ensures UnescapeSegment(s) == s
  {
    if s != "" {
      PlainSegment(s[1..]);
    }
  }

  lemma {:induction false} SplitPlain(s: string, c: char, i: nat)
    requires c !in s && i < |Split(s)|
    ensures c !in Split(s)[i]
  {
    if s != "" {
      if s[0] == '/' {
        if i > 0 { SplitPlain(s[1..], c, i - 1); }
      } else {
        SplitPlain(s[1..], c, i);
      }
    }
  }

  /** Without percent signs a root is stored where it says. */
  lemma {:induction false} PlainStorage(root: string)
    requires '%' !in root
    ensures StoragePath(root) == Area(root)
  {
    forall i | 0 <= i < |Area(root)| ensures UnescapeSegment(Area(root)[i]) == Area(root)[i] {
      SplitPlain(root, '%', i);
      PlainSegment(Area(root)[i]);
    }
  }

  lemma {:induction false} UnescapeShrinks(s: string)
    ensures PathUnescape(s).Some? ==> |PathUnescape(s).value| <= |s| && ('%' in s ==> |PathUnescape(s).value| < |s|)
  {
    if s != "" {
      if s[0] == '%' {
        if |s| >= 3 { UnescapeShrinks(s[3..]); }
      } else {
        UnescapeShrinks(s[1..]);
      }
    }
  }

  /** A segment stays as it is exactly if it has no percent sign or a malformed escape. */
  lemma {:induction false} SegmentKept(s: string)
    ensures UnescapeSegment(s) == s <==> '%' !in s || PathUnescape(s).None?
  {
    UnescapeShrinks(s);
    if '%' !in s { PlainSegment(s); }
  }

  /** A root is stored where it says exactly if each of its segments has no percent sign or a malformed escape. */
  lemma {:induction false} StorageExact(root: string)
    ensures StoragePath(root) == Area(root) <==>
            forall i | 0 <= i < |Area(root)| :: '%' !in Area(root)[i] || PathUnescape(Area(root)[i]).None?
  {
    var p := Area(root);
    forall i | 0 <= i < |p| ensures StoragePath(root)[i] == p[i] <==> '%' !in p[i] || PathUnescape(p[i]).None? {
      SegmentKept(p[i]);
    }
  }

  /** Roots that overlap are stored at comparable paths; for roots that are stored where they say the converse holds. */
  lemma {:induction false} StorageOverlap(a: string, b: string)
    ensures Overlaps(a, b) ==> Comparable(StoragePath(a), StoragePath(b))
    ensures StoragePath(a) == Area(a) && StoragePath(b) == Area(b) ==>
              (Overlaps(a, b) <==> Comparable(StoragePath(a), StoragePath(b)))
  {
    if Area(a) <= Area(b) {
      UnescapePrefix(Area(a), Area(b));
    } else if Area(b) <= Area(a) {
      UnescapePrefix(Area(b), Area(a));
    }
  }

  lemma {:induction false} UnescapePrefix(p: Path, q: Path)
    requires p <= q
    ensures UnescapeAll(p) <= UnescapeAll(q)
  {
    forall i | 0 <= i < |p| ensures UnescapeAll(p)[i] == UnescapeAll(q)[i] {
      assert p[i] == q[i];
    }
  }

  /** Escapes are ignored when roots are compared: two roots can share a storage path and yet not overlap. */
  lemma {:induction false} EscapedRootsCollide()
    ensures StoragePath("%61") == StoragePath("a") && !Overlaps("%61", "a")
  {
    assert PathUnescape("") == Some("");
    assert PathUnescape("%61"[3..]) == Some("");
    assert HexDigit('6') == Some(6) && HexDigit('1') == Some(1);
    assert (16 * 6 + 1) as char == 'a';
    assert PathUnescape("%61") == Some(['a'] + "");
    PlainSegment("a");
    SplitSolid("%61");
    SplitSolid("a");
  }

  lemma {:induction false} SplitSolid(s: string)
    requires '/' !in s
    ensures Split(s) == [s]
  {
    if s != "" {
      SplitSolid(s[1..]);
      assert [s[0]] + s[1..] == s;
    }
  }

  // Patch paths.

  function TrimLeft(s: string): string {
    if s != "" && s[0] == '/' then TrimLeft(s[1..]) else s
  }

  function TrimRight(s: string): string {
    if s != "" && s[|s| - 1] == '/' then TrimRight(s[..|s| - 1]) else s
  }

  function Trim(s: string): string {
    TrimRight(TrimLeft(s))
  }

  /** Replaces a tilde followed by the code with the character it stands for. */
  function Substitute(s: string, code: char, plain: char): string {
    if s == "" then ""
    else if |s| >= 2 && s[0] == '~' && s[1] == code then [plain] + Substitute(s[2..], code, plain)
    else [s[0]] + Substitute(s[1..], code, plain)
  }

  function PointerSegment(s: string): string {
    Substitute(Substitute(s, '1', '/'), '0', '~')
  }

  function PointerSegments(p: Path): (r: Path)
    ensures |r| == |p|
    ensures forall i | 0 <= i < |p| :: r[i] == PointerSegment(p[i])
  {
    if p == [] then [] else [PointerSegment(p[0])] + PointerSegments(p[1..])
  }

  /** Patch paths decode the escapes of JSON Pointer (section 4 of RFC 6901) after those of URLs. */
  function PatchPath(path: string): Path {
    PointerSegments(StoragePath(Trim(path)))
  }

  lemma {:induction false} PlainPointer(s: string, code: char, plain: char)
    requires '~' !in s
    ensures Substitute(s, code, plain) == s
  {
    if s != "" {
      PlainPointer(s[1..], code, plain);
    }
  }

  /** A root that decodes to itself as the path of a patch. */
  predicate Literal(root: string) {
    PointerSegments(StoragePath(root)) == Area(root)
  }

  /** A patch admitted by such a root lands in that root's area, whatever its own segments escape. */
  lemma {:induction false} PatchInside(root: string, path: string)
    requires Literal(root) && Area(root) <= Area(Trim(path))
    ensures Area(root) <= PatchPath(path)
  {
    forall i | 0 <= i < |Area(root)| ensures PatchPath(path)[i] == Area(root)[i] {
      assert Area(Trim(path))[i] == Area(root)[i];
      assert StoragePath(Trim(path))[i] == StoragePath(root)[i];
    }
  }

  /** Every patch that a root admits lands in its area exactly if the root decodes to itself. */
  lemma {:induction false} PatchExact(root: string)
    requires Trim(root) == root
    ensures (forall path | Area(root) <= Area(Trim(path)) :: Area(root) <= PatchPath(path)) <==> Literal(root)
  {
    if Literal(root) {
      forall path | Area(root) <= Area(Trim(path)) ensures Area(root) <= PatchPath(path) {
        PatchInside(root, path);
      }
    }
    if Area(root) <= PatchPath(root) {
      assert |PatchPath(root)| == |Area(root)|;
    }
  }

  /** Without percent signs and tildes a root decodes to itself. */
  lemma {:induction false} PlainLiteral(root: string)
    requires '%' !in root && '~' !in root
    ensures Literal(root)
  {
    PlainStorage(root);
    forall i | 0 <= i < |Area(root)| ensures PointerSegment(Area(root)[i]) == Area(root)[i] {
      SplitPlain(root, '~', i);
      PlainPointer(Area(root)[i], '1', '/');
      PlainPointer(Area(root)[i], '0', '~');
    }
  }

  /** A patch admitted by a root with an escaped slash in it lands outside that root's area. */
  lemma {:induction false} EscapedPatchLeaves()
    ensures Covered(["a~1b"], Trim("/a~1b")) && PatchPath("/a~1b") == ["a/b"] && !InArea("a~1b", PatchPath("/a~1b"))
  {
    var root := "a~1b";
    assert "/a~1b"[1..] == root;
    assert TrimLeft("/a~1b") == root && TrimRight(root) == root;
    SplitSolid(root);
    assert Area([root][0]) <= Area(Trim("/a~1b"));
    PlainStorage(root);
    EscapedSlash();
    assert PointerSegments([root]) == [PointerSegment(root)] + PointerSegments([]) by { assert [root][1..] == []; }
  }

  lemma {:induction false} EscapedSlash()
    ensures PointerSegment("a~1b") == "a/b"
  {
    assert "a~1b"[1..] == "~1b" && "~1b"[2..] == "b" && "b"[1..] == "";
    assert Substitute("b", '1', '/') == "b";
    assert Substitute("~1b", '1', '/') == "/b";
    assert Substitute("a~1b", '1', '/') == "a/b";
    PlainPointer("a/b", '0', '~');
  }
}
