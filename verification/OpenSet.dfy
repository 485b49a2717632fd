/** The open-addressed set: elements live in the first free slot at or after their hash. */
module OpenSet {
  import opened Syntax
  import opened Comparison

  const MIN: int := -0x8000_0000_0000_0000
  const MAX: int := 0x7fff_ffff_ffff_ffff
  const WORDS: int := 0x1_0000_0000_0000_0000

  /** A machine integer. */
  type Word = w: int | MIN <= w <= MAX

  /** Incrementing wraps around. */
  function Next(w: Word): Word {
    if w == MAX then MIN else w + 1
  }

  function AddWords(a: Word, b: Word): Word {
    if a + b > MAX then a + b - WORDS else if a + b < MIN then a + b + WORDS else a + b
  }

  /** How many increments lead from one word to another. */
  function Distance(a: Word, b: Word): nat {
    if a <= b then b - a else b - a + WORDS
  }

  lemma {:induction false} DistanceNext(a: Word, b: Word)
    requires Distance(a, b) < WORDS - 1
    ensures Distance(a, Next(b)) == Distance(a, b) + 1
  {
  }

  // Equality as it is inlined in the probing loops.

  predicate EqualValues(x: Datum, y: Datum) {
    match x
    case Null => x == y
    case Boolean(_) => x == y
    case Text(_) => x == y
    case Variable(_) => x == y
    case Number(n) => y.Number? && n == y.n
    case _ => Compare(x, y) == 0
  }

  lemma {:induction false} EqualValuesIff(x: Datum, y: Datum)
    ensures EqualValues(x, y) <==> x == y
  {
    CompareZero(x, y);
  }

  // The hash of a set is the wrapped sum of its elements' hashes, in whatever order they came.

  ghost predicate Distinct(s: seq<Datum>) {
    forall i, j | 0 <= i < j < |s| :: s[i] != s[j]
  }

  function SumHash(hashOf: Datum -> Word, s: seq<Datum>): Word
    decreases |s|
  {
    if s == [] then 0 else AddWords(SumHash(hashOf, s[..|s| - 1]), hashOf(s[|s| - 1]))
  }

  lemma {:induction false} AddWordsSwap(a: Word, b: Word, c: Word)
    ensures AddWords(AddWords(a, b), c) == AddWords(AddWords(a, c), b)
  {
  }

  function Without(s: seq<Datum>, i: nat): seq<Datum>
    requires i < |s|
  {
    s[..i] + s[i + 1..]
  }

  lemma {:induction false} SumHashWithout(hashOf: Datum -> Word, s: seq<Datum>, i: nat)
    requires i < |s|
    ensures SumHash(hashOf, s) == AddWords(SumHash(hashOf, Without(s, i)), hashOf(s[i]))
    decreases |s|
  {
    var n := |s| - 1;
    if i == n {
      assert Without(s, i) == s[..n];
    } else {
      SumHashWithout(hashOf, s[..n], i);
      var t := Without(s, i);
      assert t[..|t| - 1] == Without(s[..n], i) && t[|t| - 1] == s[n];
      AddWordsSwap(SumHash(hashOf, Without(s[..n], i)), hashOf(s[i]), hashOf(s[n]));
    }
  }

  lemma {:induction false} WithoutMembers(s: seq<Datum>, i: nat)
    requires i < |s| && Distinct(s)
    ensures Distinct(Without(s, i)) && Members(Without(s, i)) == Members(s) - {s[i]}
  {
  }

  /** The cached hash does not depend on the order of insertion. */
  lemma {:induction false} SumHashByMembers(hashOf: Datum -> Word, s: seq<Datum>, t: seq<Datum>)
    requires Distinct(s) && Distinct(t) && Members(s) == Members(t)
    ensures SumHash(hashOf, s) == SumHash(hashOf, t)
    decreases |s|
  {
    if s == [] {
      assert Members(s) == {};
      if t != [] { FirstMember(t); }
    } else {
      var n := |s| - 1;
      var x := s[n];
      assert x in Members(t) by { assert x in Members(s); }
      var j :| 0 <= j < |t| && t[j] == x;
      WithoutMembers(s, n);
      WithoutMembers(t, j);
      SumHashWithout(hashOf, s, n);
      SumHashWithout(hashOf, t, j);
      SumHashByMembers(hashOf, Without(s, n), Without(t, j));
    }
  }

  // Probing.

  ghost predicate Stores(elems: map<Word, Datum>, x: Datum) {
    exists p | p in elems :: elems[p] == x
  }

  /** Every slot from the hash up to the place is taken. */
  ghost predicate NoGap(elems: map<Word, Datum>, hash: Word, place: Word) {
    forall w: Word | Distance(hash, w) < Distance(hash, place) :: w in elems
  }

  ghost predicate Probed(hashOf: Datum -> Word, elems: map<Word, Datum>) {
    && (forall p | p in elems :: NoGap(elems, hashOf(elems[p]), p))
    && (forall p, q | p in elems && q in elems && elems[p] == elems[q] :: p == q)
  }

  /** The probe has passed these slots without meeting the element. */
  ghost predicate Passed(elems: map<Word, Datum>, hash: Word, slot: Word, x: Datum) {
    forall w: Word | Distance(hash, w) < Distance(hash, slot) :: w in elems && elems[w] != x
  }

  /** An element that a probe has passed by up to a free slot is nowhere. */
  lemma {:induction false} PassedMeansAbsent(hashOf: Datum -> Word, elems: map<Word, Datum>, slot: Word, x: Datum)
    requires Probed(hashOf, elems) && slot !in elems && Passed(elems, hashOf(x), slot, x)
    ensures !Stores(elems, x)
  {
  }

  lemma {:induction false} PassOne(elems: map<Word, Datum>, hash: Word, slot: Word, x: Datum)
    requires Passed(elems, hash, slot, x) && slot in elems && elems[slot] != x && Distance(hash, slot) < WORDS - 1
    ensures Passed(elems, hash, Next(slot), x)
  {
  }

  ghost function Segment(hash: Word, n: nat): set<Word>
    requires n <= WORDS
  {
    set w: Word | MIN <= w <= MAX && Distance(hash, w) < n
  }

  ghost function At(hash: Word, n: nat): Word
    requires n < WORDS
  {
    if hash + n > MAX then hash + n - WORDS else hash + n
  }

  lemma {:induction false} SegmentGrows(hash: Word, n: nat)
    requires n < WORDS
    ensures Segment(hash, n + 1) == Segment(hash, n) + {At(hash, n)} && At(hash, n) !in Segment(hash, n)
  {
  }

  lemma {:induction false} SegmentSize(hash: Word, n: nat)
    requires n <= WORDS
    ensures |Segment(hash, n)| == n
  {
    if n == 0 {
      assert Segment(hash, 0) == {};
    } else {
      SegmentSize(hash, n - 1);
      SegmentGrows(hash, n - 1);
    }
  }

  lemma {:induction false} SubsetSize(a: set<Word>, b: set<Word>)
    requires a <= b
    ensures |a| <= |b|
  {
    assert b == a + (b - a);
  }

  /** In a table that is not full a probe finds a free slot. */
  lemma {:induction false} ProbeEnds(elems: map<Word, Datum>, hash: Word, slot: Word, x: Datum)
    requires Passed(elems, hash, slot, x) && slot in elems && |elems| < WORDS
    ensures Distance(hash, slot) < WORDS - 1
  {
    assert |elems.Keys| == |elems|;
    if Distance(hash, slot) >= WORDS - 1 {
      SegmentSize(hash, WORDS);
      forall w: Word | w in Segment(hash, WORDS) ensures w in elems.Keys {
        if w != slot { assert Distance(hash, w) < Distance(hash, slot); }
      }
      SubsetSize(Segment(hash, WORDS), elems.Keys);
    }
  }

  /** The element may be put there. */
  ghost predicate Fits(hashOf: Datum -> Word, elems: map<Word, Datum>, slot: Word, x: Datum) {
    Probed(hashOf, elems[slot := x]) && forall y :: Stores(elems[slot := x], y) <==> y == x || Stores(elems, y)
  }

  lemma {:induction false} PlaceNew(hashOf: Datum -> Word, elems: map<Word, Datum>, slot: Word, x: Datum)
    requires Probed(hashOf, elems) && slot !in elems && Passed(elems, hashOf(x), slot, x)
    ensures Fits(hashOf, elems, slot, x)
  {
    PassedMeansAbsent(hashOf, elems, slot, x);
    var elems' := elems[slot := x];
    forall p | p in elems' ensures NoGap(elems', hashOf(elems'[p]), p) {
      if p != slot { assert NoGap(elems, hashOf(elems[p]), p); }
    }
    forall y ensures Stores(elems', y) <==> y == x || Stores(elems, y) {
      assert slot in elems' && elems'[slot] == x;
      if Stores(elems, y) {
        var p :| p in elems && elems[p] == y;
        assert p in elems' && elems'[p] == y;
      }
    }
  }

  // Sorting.

  function InsertOrdered(x: Datum, s: seq<Datum>): seq<Datum> {
    if s == [] || Compare(x, s[0]) < 0 then [x] + s else [s[0]] + InsertOrdered(x, s[1..])
  }

  lemma {:induction false} ConsMembers(x: Datum, s: seq<Datum>)
    ensures Members([x] + s) == Members(s) + {x}
  {
  }

  lemma {:induction false} ConsMembersEnd(s: seq<Datum>, x: Datum)
    ensures Members(s + [x]) == Members(s) + {x}
  {
  }

  lemma {:induction false} InsertOrderedMembers(x: Datum, s: seq<Datum>)
    ensures Members(InsertOrdered(x, s)) == Members(s) + {x}
  {
    ConsMembers(x, s);
    if s != [] {
      InsertOrderedMembers(x, s[1..]);
      ConsMembers(s[0], s[1..]);
      ConsMembers(s[0], InsertOrdered(x, s[1..]));
      assert s == [s[0]] + s[1..];
    }
  }

  lemma {:induction false} InsertOrderedKeeps(x: Datum, s: seq<Datum>)
    requires Increasing(s) && x !in s
    ensures Increasing(InsertOrdered(x, s))
  {
    if s != [] {
      if Compare(x, s[0]) < 0 {
        forall j | 1 <= j < |s| ensures Compare(x, s[j]) < 0 {
          CompareTrans(x, s[0], s[j]);
        }
      } else {
        CompareFlip(x, s[0]);
        CompareZero(x, s[0]);
        TailMembers(s);
        InsertOrderedKeeps(x, s[1..]);
        InsertOrderedMembers(x, s[1..]);
        var t := InsertOrdered(x, s[1..]);
        forall j | 0 <= j < |t| ensures Compare(s[0], t[j]) < 0 {
          assert t[j] in Members(t);
        }
      }
    }
  }

  lemma {:induction false} IncreasingDistinct(s: seq<Datum>)
    requires Increasing(s)
    ensures Distinct(s)
  {
    forall i, j | 0 <= i < j < |s| ensures s[i] != s[j] {
      CompareZero(s[i], s[j]);
    }
  }

  /** Sorts distinct elements. */
  method Sort(s: seq<Datum>) returns (r: seq<Datum>)
    requires Distinct(s)
    ensures Increasing(r) && Members(r) == Members(s) && |r| == |s|
  {
    r := [];
    for i := 0 to |s|
      invariant Increasing(r) && Members(r) == Members(s[..i]) && |r| == i
    {
      assert s[..i + 1] == s[..i] + [s[i]];
      assert s[i] in r <==> s[i] in Members(r);
      assert s[i] !in Members(s[..i]);
      InsertOrderedKeeps(s[i], r);
      InsertOrderedMembers(s[i], r);
      InsertOrderedLength(s[i], r);
      r := InsertOrdered(s[i], r);
    }
    assert s[..|s|] == s;
  }

  lemma {:induction false} InsertOrderedLength(x: Datum, s: seq<Datum>)
    ensures |InsertOrdered(x, s)| == |s| + 1
  {
    if s != [] { InsertOrderedLength(x, s[1..]); }
  }

  /** The keys list the table's elements, and the cached hash is theirs. */
  ghost predicate Listed(hashOf: Datum -> Word, elems: map<Word, Datum>, keys: seq<Datum>, hash: Word) {
    && Distinct(keys) && |keys| == |elems| && (forall x :: x in keys <==> Stores(elems, x))
    && hash == SumHash(hashOf, keys)
  }

  lemma {:induction false} ListNew(hashOf: Datum -> Word, elems: map<Word, Datum>, keys: seq<Datum>, hash: Word,
                                   elems': map<Word, Datum>, x: Datum)
    requires Listed(hashOf, elems, keys, hash) && !Stores(elems, x) && |elems'| == |elems| + 1
    requires forall y :: Stores(elems', y) <==> y == x || Stores(elems, y)
    ensures Listed(hashOf, elems', keys + [x], AddWords(hash, hashOf(x)))
    ensures Members(keys + [x]) == Members(keys) + {x}
  {
    assert (keys + [x])[..|keys|] == keys;
    ConsMembersEnd(keys, x);
    assert x !in keys;
    DistinctSnoc(keys, x);
  }

  lemma {:induction false} DistinctSnoc(keys: seq<Datum>, x: Datum)
    requires Distinct(keys) && x !in keys
    ensures Distinct(keys + [x])
  {
  }

  lemma {:induction false} ListSorted(hashOf: Datum -> Word, elems: map<Word, Datum>, keys: seq<Datum>, hash: Word, s: seq<Datum>)
    requires Listed(hashOf, elems, keys, hash) && Increasing(s) && Members(s) == Members(keys) && |s| == |keys|
    ensures Listed(hashOf, elems, s, hash)
  {
    IncreasingDistinct(s);
    SumHashByMembers(hashOf, keys, s);
    forall x ensures x in s <==> x in keys {
      assert x in Members(s) <==> x in Members(keys);
    }
  }

  ghost predicate WellKept(hashOf: Datum -> Word, elems: map<Word, Datum>, keys: seq<Datum>, hash: Word, sorted: bool) {
    Probed(hashOf, elems) && Listed(hashOf, elems, keys, hash) && (sorted ==> Increasing(keys))
  }

  lemma {:induction false} Grow(hashOf: Datum -> Word, elems: map<Word, Datum>, keys: seq<Datum>, hash: Word, sorted: bool, slot: Word, x: Datum)
    requires WellKept(hashOf, elems, keys, hash, sorted) && slot !in elems && x !in Members(keys) && Fits(hashOf, elems, slot, x)
    ensures WellKept(hashOf, elems[slot := x], keys + [x], AddWords(hash, hashOf(x)), false)
    ensures Members(keys + [x]) == Members(keys) + {x}
  {
    ListNew(hashOf, elems, keys, hash, elems[slot := x], x);
  }

  class OpenSet {
    const hashOf: Datum -> Word
    var elems: map<Word, Datum>
    var keys: seq<Datum>
    var hash: Word
    var sorted: bool

    ghost predicate Valid()
      reads this
    {
      WellKept(hashOf, elems, keys, hash, sorted)
    }

    ghost function Contents(): set<Datum>
      reads this
    {
      Members(keys)
    }

    constructor (hashOf: Datum -> Word)
      ensures Valid() && Contents() == {} && elems == map[] && this.hashOf == hashOf
    {
      this.hashOf := hashOf;
      elems, keys, hash, sorted := map[], [], 0, false;
    }

    /** The slot that holds the element, or the free slot it belongs in. */
    method Probe(x: Datum) returns (slot: Word)
      requires Valid() && |elems| < WORDS
      ensures slot in elems <==> x in Contents()
      ensures slot in elems ==> elems[slot] == x
      ensures slot !in elems ==> Fits(hashOf, elems, slot, x)
    {
      slot := hashOf(x);
      while slot in elems
        invariant Passed(elems, hashOf(x), slot, x)
        decreases WORDS - Distance(hashOf(x), slot)
      {
        EqualValuesIff(x, elems[slot]);
        if EqualValues(x, elems[slot]) {
          assert Stores(elems, x);
          return;
        }
        ProbeEnds(elems, hashOf(x), slot, x);
        PassOne(elems, hashOf(x), slot, x);
        DistanceNext(hashOf(x), slot);
        slot := Next(slot);
      }
      PassedMeansAbsent(hashOf, elems, slot, x);
      PlaceNew(hashOf, elems, slot, x);
    }

    method Insert(x: Datum)
      requires Valid() && |elems| < WORDS
      modifies this
      ensures Valid() && Contents() == old(Contents()) + {x}
      ensures x in old(Contents()) ==> unchanged(this)
      ensures |elems| <= old(|elems|) + 1
    {
      var slot := Probe(x);
      if slot !in elems {
        Grow(hashOf, elems, keys, hash, sorted, slot, x);
        Place(slot, x);
      } else {
        assert Contents() == old(Contents()) + {x};
      }
    }

    /** Fills a free slot, and lists the element. */
    method Place(slot: Word, x: Datum)
      requires WellKept(hashOf, elems[slot := x], keys + [x], AddWords(hash, hashOf(x)), false)
      modifies this
      ensures Valid() && keys == old(keys) + [x] && elems == old(elems)[slot := x]
    {
      elems, keys, sorted, hash := elems[slot := x], keys + [x], false, AddWords(hash, hashOf(x));
    }

    method Get(x: Datum) returns (r: Option<Datum>)
      requires Valid() && |elems| < WORDS
      ensures r == if x in Contents() then Some(x) else None
    {
      var slot := Probe(x);
      return if slot in elems then Some(elems[slot]) else None;
    }

    /** Sorts the keys, unless that has been done since the last insertion. */
    method SortedKeys() returns (r: seq<Datum>)
      requires Valid()
      modifies `keys, `sorted
      ensures Valid() && Contents() == old(Contents()) && r == keys
      ensures Increasing(r)
    {
      if !sorted {
        var s := Sort(keys);
        ListSorted(hashOf, elems, keys, hash, s);
        keys, sorted := s, true;
      }
      return keys;
    }

    /** Compares two sets as values: zero means that they have the same elements. */
    method CompareTo(other: OpenSet) returns (r: int)
      requires Valid() && other.Valid()
      modifies this, other
      ensures Valid() && other.Valid() && Contents() == old(Contents()) && other.Contents() == old(other.Contents())
      ensures r == 0 <==> Contents() == other.Contents()
      ensures hashOf == other.hashOf && r == 0 ==> hash == other.hash
    {
      var a := SortedKeys();
      var b := other.SortedKeys();
      r := TermSliceCompare(a, b);
      SlicesByMembers(a, b);
    }
  }

  lemma {:induction false} MembersTake(terms: seq<Datum>, i: nat)
    requires i < |terms|
    ensures Members(terms[..i + 1]) == Members(terms[..i]) + {terms[i]}
  {
    assert terms[..i + 1] == terms[..i] + [terms[i]];
    ConsMembersEnd(terms[..i], terms[i]);
  }

  /** Whatever is added, in whatever order and however often, the set holds exactly that. */
  method NewSet(hashOf: Datum -> Word, terms: seq<Datum>) returns (s: OpenSet)
    requires |terms| < WORDS
    ensures fresh(s) && s.Valid() && s.Contents() == Members(terms)
  {
    s := new OpenSet(hashOf);
    for i := 0 to |terms|
      invariant fresh(s) && s.Valid() && s.Contents() == Members(terms[..i]) && |s.elems| <= i
    {
      MembersTake(terms, i);
      s.Insert(terms[i]);
    }
    assert terms[..|terms|] == terms;
  }

  lemma {:induction false} SlicesByMembers(a: seq<Datum>, b: seq<Datum>)
    requires Increasing(a) && Increasing(b)
    ensures CompareSlices(a, b) == 0 <==> Members(a) == Members(b)
    ensures CompareSlices(a, b) == 0 <==> a == b
  {
    CompareSlicesZero(a, b);
    if Members(a) == Members(b) {
      IncreasingUnique(a, b);
    }
  }

  /** Sets with the same elements have the same hash and the same sorted keys, whatever the order of insertion. */
  lemma {:induction false} OrderIrrelevant(hashOf: Datum -> Word, s: seq<Datum>, t: seq<Datum>, s': seq<Datum>, t': seq<Datum>)
    requires Distinct(s) && Distinct(t) && Members(s) == Members(t)
    requires Increasing(s') && Members(s') == Members(s) && Increasing(t') && Members(t') == Members(t)
    ensures SumHash(hashOf, s) == SumHash(hashOf, t) && s' == t'
  {
    SumHashByMembers(hashOf, s, t);
    IncreasingUnique(s', t');
  }
}
