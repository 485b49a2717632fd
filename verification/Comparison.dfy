/** The order on values: by kind, then by contents. */
module Comparison {

  /** Terms without comprehensions; sets and objects list their members in order, as they do once compared. */
  datatype Datum =
    | Null
    | Boolean(b: bool)
    | Number(n: int)
    | Text(s: string)
    | Variable(name: string)
    | Reference(parts: seq<Datum>)
    | ArrayOf(elems: seq<Datum>)
    | ObjectOf(items: seq<Pair>)
    | SetOf(elems: seq<Datum>)
    | CallOf(parts: seq<Datum>)

  datatype Pair = Pair(key: Datum, value: Datum)

  function SortOrder(a: Datum): nat {
    match a
    case Null => 0
    case Boolean(_) => 1
    case Number(_) => 2
    case Text(_) => 3
    case Variable(_) => 4
    case Reference(_) => 5
    case ArrayOf(_) => 6
    case ObjectOf(_) => 7
    case SetOf(_) => 8
    case CallOf(_) => 12
  }

  function Sign(a: int, b: int): int {
    if a < b then -1 else if b < a then 1 else 0
  }

  function CompareText(s: string, t: string): int {
    if s == "" || t == "" then Sign(|s|, |t|)
    else if s[0] != t[0] then Sign(s[0] as int, t[0] as int)
    else CompareText(s[1..], t[1..])
  }

  function Compare(a: Datum, b: Datum): int
    decreases a, 1
  {
    if SortOrder(a) != SortOrder(b) then Sign(SortOrder(a), SortOrder(b))
    else
      match a
      case Null => 0
      case Boolean(x) => if x == b.b then 0 else if !x then -1 else 1
      case Number(n) => Sign(n, b.n)
      case Text(s) => CompareText(s, b.s)
      case Variable(s) => CompareText(s, b.name)
      case Reference(parts) => CompareSlices(parts, b.parts)
      case ArrayOf(elems) => CompareSlices(elems, b.elems)
      case ObjectOf(items) => CompareItems(items, b.items)
      case SetOf(elems) => CompareSlices(elems, b.elems)
      case CallOf(parts) => CompareSlices(parts, b.parts)
  }

  function CompareSlices(a: seq<Datum>, b: seq<Datum>): int
    decreases a, 0
  {
    if a == [] || b == [] then Sign(|a|, |b|)
    else
      var c := Compare(a[0], b[0]);
      if c != 0 then c else CompareSlices(a[1..], b[1..])
  }

  function CompareItems(a: seq<Pair>, b: seq<Pair>): int
    decreases a, 0
  {
    if a == [] || b == [] then Sign(|a|, |b|)
    else
      var c := ComparePair(a[0], b[0]);
      if c != 0 then c else CompareItems(a[1..], b[1..])
  }

  function ComparePair(a: Pair, b: Pair): int
    decreases a, 0
  {
    var c := Compare(a.key, b.key);
    if c != 0 then c else Compare(a.value, b.value)
  }

  // The loops.

  method TermSliceCompare(a: seq<Datum>, b: seq<Datum>) returns (r: int)
    ensures r == CompareSlices(a, b)
    decreases a, 0
  {
    var minLen := if |b| < |a| then |b| else |a|;
    for i := 0 to minLen
      invariant CompareSlices(a, b) == CompareSlices(a[i..], b[i..])
    {
      r := CompareValues(a[i], b[i]);
      assert a[i..][1..] == a[i + 1..] && b[i..][1..] == b[i + 1..];
      if r != 0 {
        return;
      }
    }
    if |a| < |b| {
      return -1;
    } else if |b| < |a| {
      return 1;
    }
    return 0;
  }

  method ObjectCompare(a: seq<Pair>, b: seq<Pair>) returns (r: int)
    ensures r == CompareItems(a, b)
    decreases a, 0
  {
    var minLen := if |b| < |a| then |b| else |a|;
    for i := 0 to minLen
      invariant CompareItems(a, b) == CompareItems(a[i..], b[i..])
    {
      assert a[i..][1..] == a[i + 1..] && b[i..][1..] == b[i + 1..];
      SmallerPair(a, i);
      r := CompareValues(a[i].key, b[i].key);
      CompareRange(a[i].key, b[i].key);
      if r < 0 {
        return -1;
      }
      if r > 0 {
        return 1;
      }
      r := CompareValues(a[i].value, b[i].value);
      if r != 0 {
        return;
      }
    }
    if |a| < |b| {
      return -1;
    }
    if |b| < |a| {
      return 1;
    }
    return 0;
  }

  lemma SmallerPair(a: seq<Pair>, i: nat)
    requires i < |a|
    ensures a[i].key < a[i] && a[i].value < a[i]
  {
  }

  method CompareValues(a: Datum, b: Datum) returns (r: int)
    ensures r == Compare(a, b)
    decreases a, 1
  {
    var sortA, sortB := SortOrder(a), SortOrder(b);
    if sortA < sortB {
      return -1;
    } else if sortB < sortA {
      return 1;
    }
    match a {
      case Null => r := 0;
      case Boolean(x) => r := if x == b.b then 0 else if !x then -1 else 1;
      case Number(n) => r := Sign(n, b.n);
      case Text(s) => r := CompareText(s, b.s);
      case Variable(s) => r := CompareText(s, b.name);
      case Reference(parts) => r := TermSliceCompare(parts, b.parts);
      case ArrayOf(elems) => r := TermSliceCompare(elems, b.elems);
      case ObjectOf(items) => r := ObjectCompare(items, b.items);
      case SetOf(elems) => r := TermSliceCompare(elems, b.elems);
      case CallOf(parts) => r := TermSliceCompare(parts, b.parts);
    }
  }

  lemma {:induction false} CompareRange(a: Datum, b: Datum)
    ensures -1 <= Compare(a, b) <= 1
    decreases a, 1
  {
    match a
    case Text(s) => if b.Text? { CompareTextRange(s, b.s); }
    case Variable(s) => if b.Variable? { CompareTextRange(s, b.name); }
    case Reference(parts) => if b.Reference? { CompareSlicesRange(parts, b.parts); }
    case ArrayOf(elems) => if b.ArrayOf? { CompareSlicesRange(elems, b.elems); }
    case ObjectOf(items) => if b.ObjectOf? { CompareItemsRange(items, b.items); }
    case SetOf(elems) => if b.SetOf? { CompareSlicesRange(elems, b.elems); }
    case CallOf(parts) => if b.CallOf? { CompareSlicesRange(parts, b.parts); }
    case _ =>
  }

  lemma {:induction false} CompareTextRange(s: string, t: string)
    ensures -1 <= CompareText(s, t) <= 1
  {
    if s != "" && t != "" { CompareTextRange(s[1..], t[1..]); }
  }

  lemma {:induction false} CompareSlicesRange(a: seq<Datum>, b: seq<Datum>)
    ensures -1 <= CompareSlices(a, b) <= 1
    decreases a, 0
  {
    if a != [] && b != [] {
      CompareRange(a[0], b[0]);
      CompareSlicesRange(a[1..], b[1..]);
    }
  }

  lemma {:induction false} CompareItemsRange(a: seq<Pair>, b: seq<Pair>)
    ensures -1 <= CompareItems(a, b) <= 1
    decreases a, 0
  {
    if a != [] && b != [] {
      ComparePairRange(a[0], b[0]);
      CompareItemsRange(a[1..], b[1..]);
    }
  }

  lemma {:induction false} ComparePairRange(a: Pair, b: Pair)
    ensures -1 <= ComparePair(a, b) <= 1
    decreases a, 0
  {
    CompareRange(a.key, b.key);
    CompareRange(a.value, b.value);
  }

  // A total order.

  /** Zero means equal. */
  lemma {:induction false} CompareZero(a: Datum, b: Datum)
    ensures Compare(a, b) == 0 <==> a == b
    decreases a, 1
  {
    match a
    case Text(s) => if b.Text? { CompareTextZero(s, b.s); }
    case Variable(s) => if b.Variable? { CompareTextZero(s, b.name); }
    case Reference(parts) => if b.Reference? { CompareSlicesZero(parts, b.parts); }
    case ArrayOf(elems) => if b.ArrayOf? { CompareSlicesZero(elems, b.elems); }
    case ObjectOf(items) => if b.ObjectOf? { CompareItemsZero(items, b.items); }
    case SetOf(elems) => if b.SetOf? { CompareSlicesZero(elems, b.elems); }
    case CallOf(parts) => if b.CallOf? { CompareSlicesZero(parts, b.parts); }
    case _ =>
  }

  lemma {:induction false} CompareTextZero(s: string, t: string)
    ensures CompareText(s, t) == 0 <==> s == t
  {
    if s != "" && t != "" {
      CompareTextZero(s[1..], t[1..]);
      assert s == [s[0]] + s[1..] && t == [t[0]] + t[1..];
    }
  }

  lemma {:induction false} CompareSlicesZero(a: seq<Datum>, b: seq<Datum>)
    ensures CompareSlices(a, b) == 0 <==> a == b
    decreases a, 0
  {
    if a != [] && b != [] {
      CompareZero(a[0], b[0]);
      CompareSlicesZero(a[1..], b[1..]);
      assert a == [a[0]] + a[1..] && b == [b[0]] + b[1..];
    }
  }

  lemma {:induction false} CompareItemsZero(a: seq<Pair>, b: seq<Pair>)
    ensures CompareItems(a, b) == 0 <==> a == b
    decreases a, 0
  {
    if a != [] && b != [] {
      ComparePairZero(a[0], b[0]);
      CompareItemsZero(a[1..], b[1..]);
      assert a == [a[0]] + a[1..] && b == [b[0]] + b[1..];
    }
  }

  lemma {:induction false} ComparePairZero(a: Pair, b: Pair)
    ensures ComparePair(a, b) == 0 <==> a == b
    decreases a, 0
  {
    CompareZero(a.key, b.key);
    CompareZero(a.value, b.value);
  }

  /** The order is antisymmetric and total. */
  lemma {:induction false} CompareFlip(a: Datum, b: Datum)
    ensures Compare(b, a) == -Compare(a, b)
    decreases a, 1
  {
    match a
    case Text(s) => if b.Text? { CompareTextFlip(s, b.s); }
    case Variable(s) => if b.Variable? { CompareTextFlip(s, b.name); }
    case Reference(parts) => if b.Reference? { CompareSlicesFlip(parts, b.parts); }
    case ArrayOf(elems) => if b.ArrayOf? { CompareSlicesFlip(elems, b.elems); }
    case ObjectOf(items) => if b.ObjectOf? { CompareItemsFlip(items, b.items); }
    case SetOf(elems) => if b.SetOf? { CompareSlicesFlip(elems, b.elems); }
    case CallOf(parts) => if b.CallOf? { CompareSlicesFlip(parts, b.parts); }
    case _ =>
  }

  lemma {:induction false} CompareTextFlip(s: string, t: string)
    ensures CompareText(t, s) == -CompareText(s, t)
  {
    if s != "" && t != "" {
      CompareTextFlip(s[1..], t[1..]);
    }
  }

  lemma {:induction false} CompareSlicesFlip(a: seq<Datum>, b: seq<Datum>)
    ensures CompareSlices(b, a) == -CompareSlices(a, b)
    decreases a, 0
  {
    if a != [] && b != [] {
      CompareFlip(a[0], b[0]);
      CompareSlicesFlip(a[1..], b[1..]);
    }
  }

  lemma {:induction false} CompareItemsFlip(a: seq<Pair>, b: seq<Pair>)
    ensures CompareItems(b, a) == -CompareItems(a, b)
    decreases a, 0
  {
    if a != [] && b != [] {
      ComparePairFlip(a[0], b[0]);
      CompareItemsFlip(a[1..], b[1..]);
    }
  }

  lemma {:induction false} ComparePairFlip(a: Pair, b: Pair)
    ensures ComparePair(b, a) == -ComparePair(a, b)
    decreases a, 0
  {
    CompareFlip(a.key, b.key);
    CompareFlip(a.value, b.value);
  }

  /** What follows for three values from two comparisons. */
  ghost predicate Chained(ab: int, bc: int, ac: int) {
    ab <= 0 && bc <= 0 ==> ac <= 0 && (ac == 0 ==> ab == 0 && bc == 0)
  }

  /** The order is transitive, strictly if either step is strict. */
  lemma {:induction false} CompareTrans(a: Datum, b: Datum, c: Datum)
    ensures Chained(Compare(a, b), Compare(b, c), Compare(a, c))
    decreases a, 1
  {
    if SortOrder(a) == SortOrder(b) == SortOrder(c) {
      match a
      case Text(s) => CompareTextTrans(s, b.s, c.s);
      case Variable(s) => CompareTextTrans(s, b.name, c.name);
      case Reference(parts) => CompareSlicesTrans(parts, b.parts, c.parts);
      case ArrayOf(elems) => CompareSlicesTrans(elems, b.elems, c.elems);
      case ObjectOf(items) => CompareItemsTrans(items, b.items, c.items);
      case SetOf(elems) => CompareSlicesTrans(elems, b.elems, c.elems);
      case CallOf(parts) => CompareSlicesTrans(parts, b.parts, c.parts);
      case _ =>
    }
  }

  lemma {:induction false} CompareTextTrans(s: string, t: string, u: string)
    ensures Chained(CompareText(s, t), CompareText(t, u), CompareText(s, u))
  {
    if s != "" && t != "" && u != "" {
      CompareTextTrans(s[1..], t[1..], u[1..]);
    }
  }

  lemma {:induction false} CompareSlicesTrans(a: seq<Datum>, b: seq<Datum>, c: seq<Datum>)
    ensures Chained(CompareSlices(a, b), CompareSlices(b, c), CompareSlices(a, c))
    decreases a, 0
  {
    if a != [] && b != [] && c != [] {
      CompareTrans(a[0], b[0], c[0]);
      HeadZero(a[0], b[0], c[0]);
      CompareSlicesTrans(a[1..], b[1..], c[1..]);
    }
  }

  /** Equal values compare alike. */
  lemma {:induction false} HeadZero(a: Datum, b: Datum, c: Datum)
    ensures Compare(a, b) == 0 ==> Compare(b, c) == Compare(a, c)
    ensures Compare(b, c) == 0 ==> Compare(a, b) == Compare(a, c)
  {
    CompareZero(a, b);
    CompareZero(b, c);
  }

  lemma {:induction false} CompareItemsTrans(a: seq<Pair>, b: seq<Pair>, c: seq<Pair>)
    ensures Chained(CompareItems(a, b), CompareItems(b, c), CompareItems(a, c))
    decreases a, 0
  {
    if a != [] && b != [] && c != [] {
      ComparePairTrans(a[0], b[0], c[0]);
      ComparePairZero(a[0], b[0]);
      ComparePairZero(b[0], c[0]);
      CompareItemsTrans(a[1..], b[1..], c[1..]);
    }
  }

  lemma {:induction false} ComparePairTrans(a: Pair, b: Pair, c: Pair)
    ensures Chained(ComparePair(a, b), ComparePair(b, c), ComparePair(a, c))
    decreases a, 0
  {
    CompareTrans(a.key, b.key, c.key);
    HeadZero(a.key, b.key, c.key);
    CompareTrans(a.value, b.value, c.value);
  }

  // What sets and objects denote.

  predicate Increasing(s: seq<Datum>) {
    forall i, j | 0 <= i < j < |s| :: Compare(s[i], s[j]) < 0
  }

  function Keys(items: seq<Pair>): seq<Datum> {
    seq(|items|, i requires 0 <= i < |items| => items[i].key)
  }

  /** Members and keys are listed in order, without duplicates, at every level. */
  predicate Ordered(a: Datum)
    decreases a, 1
  {
    match a
    case Reference(parts) => AllOrdered(parts)
    case ArrayOf(elems) => AllOrdered(elems)
    case SetOf(elems) => AllOrdered(elems) && Increasing(elems)
    case ObjectOf(items) => ItemsOrdered(items) && Increasing(Keys(items))
    case CallOf(parts) => AllOrdered(parts)
    case _ => true
  }

  predicate AllOrdered(s: seq<Datum>)
    decreases s, 0
  {
    s == [] || (Ordered(s[0]) && AllOrdered(s[1..]))
  }

  predicate ItemsOrdered(s: seq<Pair>)
    decreases s, 0
  {
    s == [] || (PairOrdered(s[0]) && ItemsOrdered(s[1..]))
  }

  predicate PairOrdered(p: Pair)
    decreases p, 0
  {
    Ordered(p.key) && Ordered(p.value)
  }

  function Members(s: seq<Datum>): set<Datum> {
    set x | x in s
  }

  /** The key-value map of an object without duplicate keys. */
  function Fields(items: seq<Pair>): map<Datum, Datum> {
    if items == [] then map[] else Fields(items[1..])[items[0].key := items[0].value]
  }

  /** Listings in order are determined by their members. */
  lemma {:induction false} IncreasingUnique(a: seq<Datum>, b: seq<Datum>)
    requires Increasing(a) && Increasing(b) && Members(a) == Members(b)
    ensures a == b
    decreases |a|
  {
    if a == [] {
      assert Members(a) == {};
      if b != [] { FirstMember(b); }
    } else {
      assert a[0] in Members(b);
      assert b[0] in Members(a) by { assert b[0] in Members(b); }
      FirstIsLeast(a, b);
      TailMembers(a);
      TailMembers(b);
      IncreasingUnique(a[1..], b[1..]);
      assert a == [a[0]] + a[1..] && b == [b[0]] + b[1..];
    }
  }

  lemma {:induction false} FirstMember(a: seq<Datum>)
    requires a != []
    ensures Members(a) != {}
  {
    assert a[0] in Members(a);
  }

  lemma {:induction false} FirstIsLeast(a: seq<Datum>, b: seq<Datum>)
    requires Increasing(a) && Increasing(b) && a != [] && b != [] && a[0] in b && b[0] in a
    ensures a[0] == b[0]
  {
    var i :| 0 <= i < |a| && a[i] == b[0];
    var j :| 0 <= j < |b| && b[j] == a[0];
    CompareFlip(a[0], b[0]);
  }

  lemma {:induction false} TailMembers(a: seq<Datum>)
    requires Increasing(a) && a != []
    ensures Members(a[1..]) == Members(a) - {a[0]}
    ensures Increasing(a[1..])
  {
    CompareZero(a[0], a[0]);
    forall x | x in Members(a) - {a[0]} ensures x in Members(a[1..]) {
      var i :| 0 <= i < |a| && a[i] == x;
      assert a[1..][i - 1] == x;
    }
  }

  lemma {:induction false} FieldsKeys(items: seq<Pair>)
    ensures Fields(items).Keys == Members(Keys(items))
  {
    if items != [] {
      FieldsKeys(items[1..]);
      assert Keys(items) == [items[0].key] + Keys(items[1..]);
    }
  }

  lemma {:induction false} FieldsAt(items: seq<Pair>, i: nat)
    requires Increasing(Keys(items)) && i < |items|
    ensures items[i].key in Fields(items) && Fields(items)[items[i].key] == items[i].value
  {
    if i > 0 {
      var keys := Keys(items);
      assert Keys(items[1..]) == keys[1..];
      assert keys[0] != keys[i] by { CompareZero(keys[0], keys[i]); }
      FieldsAt(items[1..], i - 1);
    }
  }

  /** Two sets compare as equal exactly when they have the same members. */
  lemma {:induction false} SetsEqual(a: Datum, b: Datum)
    requires a.SetOf? && b.SetOf? && Ordered(a) && Ordered(b)
    ensures Compare(a, b) == 0 <==> Members(a.elems) == Members(b.elems)
  {
    CompareZero(a, b);
    if Members(a.elems) == Members(b.elems) {
      IncreasingUnique(a.elems, b.elems);
    }
  }

  /** Two objects compare as equal exactly when they are the same map from keys to values. */
  lemma {:induction false} ObjectsEqual(a: Datum, b: Datum)
    requires a.ObjectOf? && b.ObjectOf? && Ordered(a) && Ordered(b)
    ensures Compare(a, b) == 0 <==> Fields(a.items) == Fields(b.items)
  {
    CompareZero(a, b);
    if Fields(a.items) == Fields(b.items) {
      FieldsKeys(a.items);
      FieldsKeys(b.items);
      IncreasingUnique(Keys(a.items), Keys(b.items));
      assert |Keys(a.items)| == |Keys(b.items)|;
      forall i | 0 <= i < |a.items| ensures a.items[i] == b.items[i] {
        assert Keys(a.items)[i] == Keys(b.items)[i];
        FieldsAt(a.items, i);
        FieldsAt(b.items, i);
      }
    }
  }

  // The order that is documented.

  /** Kinds are sorted as null, booleans, numbers, strings, variables, references, arrays, objects, sets, calls. */
  lemma {:induction false} KindsInOrder(b: bool, n: int, s: string, x: string, ref: seq<Datum>, a: seq<Datum>, o: seq<Pair>, m: seq<Datum>, c: seq<Datum>)
    ensures Compare(Null, Boolean(b)) < 0 && Compare(Boolean(b), Number(n)) < 0 && Compare(Number(n), Text(s)) < 0
    ensures Compare(Text(s), Variable(x)) < 0 && Compare(Variable(x), Reference(ref)) < 0 && Compare(Reference(ref), ArrayOf(a)) < 0
    ensures Compare(ArrayOf(a), ObjectOf(o)) < 0 && Compare(ObjectOf(o), SetOf(m)) < 0 && Compare(SetOf(m), CallOf(c)) < 0
    ensures Compare(Boolean(false), Boolean(true)) < 0
  {
  }

  /** Sequences compare as their first different elements do. */
  lemma {:induction false} FirstDifferenceDecides(p: seq<Datum>, x: Datum, a: seq<Datum>, y: Datum, b: seq<Datum>)
    requires x != y
    ensures CompareSlices(p + [x] + a, p + [y] + b) == Compare(x, y)
  {
    var l, r := p + [x] + a, p + [y] + b;
    if p == [] {
      assert l[0] == x && r[0] == y;
      CompareZero(x, y);
    } else {
      assert l[0] == p[0] && r[0] == p[0];
      assert l[1..] == p[1..] + [x] + a && r[1..] == p[1..] + [y] + b;
      CompareZero(p[0], p[0]);
      FirstDifferenceDecides(p[1..], x, a, y, b);
    }
  }

  /** A sequence is less than its extensions. */
  lemma {:induction false} PrefixIsLess(p: seq<Datum>, a: seq<Datum>)
    requires a != []
    ensures CompareSlices(p, p + a) < 0
  {
    if p != [] {
      assert (p + a)[0] == p[0] && (p + a)[1..] == p[1..] + a;
      CompareZero(p[0], p[0]);
      PrefixIsLess(p[1..], a);
    }
  }
}
