/** Objects that convert their native contents on demand, and cannot be told from strict ones. */
module LazyObjects {
  import opened Syntax
  import opened Semantics
  import opened Documents
  import Comparison
  import OpenSet

  type Native = map<string, Json>

  // The strict conversion.

  function KeyOf(k: string): Value {
    VScalar(String(k))
  }

  function Convert(j: Json): Value
    decreases j, 1
  {
    match j
    case Leaf(s) => VScalar(s)
    case Arr(elems) => VArray(ConvertAll(elems))
    case Obj(fields) => VObject(ConvertFields(fields))
  }

  function ConvertFields(native: Native): (fields: map<Value, Value>)
    ensures forall k | k in native :: KeyOf(k) in fields && fields[KeyOf(k)] == Convert(native[k])
    ensures forall v | v in fields :: v.VScalar? && v.scalar.String? && v.scalar.s in native
    decreases Obj(native), 0
  {
    map k | k in native :: KeyOf(k) := Convert(native[k])
  }

  function ConvertAll(elems: seq<Json>): seq<Value>
    decreases elems, 0
  {
    if elems == [] then [] else [Convert(elems[0])] + ConvertAll(elems[1..])
  }

  function Strict(native: Native): (v: Value)
    ensures v.VObject?
  {
    Convert(Obj(native))
  }

  // What strict values answer.

  function GetValue(v: Value, k: Value): Option<Value>
    requires v.VObject?
  {
    if k in v.fields then Some(v.fields[k]) else None
  }

  function FindValue(v: Value, path: seq<Value>): Option<Value>
    decreases |path|
  {
    if path == [] then Some(v)
    else
      match v
      case VObject(fields) => if path[0] in fields then FindValue(fields[path[0]], path[1..]) else None
      case VArray(elems) =>
        if path[0].VScalar? && path[0].scalar.Number? && 0 <= path[0].scalar.n < |elems|
        then FindValue(elems[path[0].scalar.n], path[1..]) else None
      case VSet(members) => if path[0] in members then FindValue(path[0], path[1..]) else None
      case VScalar(_) => None
  }

  lemma {:induction false} StrictField(native: Native, k: Value)
    ensures var fields := Strict(native).fields;
            if k.VScalar? && k.scalar.String? && k.scalar.s in native
            then k in fields && fields[k] == Convert(native[k.scalar.s]) else k !in fields
  {
    if k.VScalar? && k.scalar.String? && k.scalar.s in native {
      assert KeyOf(k.scalar.s) in ConvertFields(native);
    }
  }

  /** A value as it is handed out: converted, or another lazy object. */
  datatype Handed = Plain(value: Value) | Lazy(obj: LazyObject)

  function Denotes(h: Handed): Value {
    match h case Plain(v) => v case Lazy(l) => Strict(l.native)
  }

  ghost predicate Among(h: Handed, world: set<LazyObject>) {
    h.Lazy? ==> h.obj in world
  }

  function Read(h: Option<Handed>): Option<Value> {
    match h case None => None case Some(x) => Some(Denotes(x))
  }

  ghost predicate IsFor(h: Handed, j: Json, world: set<LazyObject>) {
    match h
    case Plain(v) => v == Convert(j)
    case Lazy(l) => l in world && j.Obj? && l.native == j.fields
  }

  /** Every object of the world is consistent with its native contents. */
  ghost predicate Consistent(world: set<LazyObject>)
    reads world
  {
    forall l | l in world :: l.Local(world)
  }

  class LazyObject {
    const native: Native
    var strict: Option<Value>
    var cache: map<string, Handed>

    constructor (native: Native)
      ensures this.native == native && strict == None && cache == map[]
    {
      this.native, strict, cache := native, None, map[];
    }

    ghost predicate Local(world: set<LazyObject>)
      reads this
    {
      && (strict.Some? ==> strict.value == Strict(native))
      && forall k | k in cache :: k in native && IsFor(cache[k], native[k], world)
    }

    /** Converts everything, and drops the cache. */
    method Force(ghost world: set<LazyObject>) returns (v: Value)
      requires this in world && Consistent(world)
      modifies this
      ensures Consistent(world) && v == Strict(native)
    {
      if strict.None? {
        strict, cache := Some(Strict(native)), map[];
      }
      return strict.value;
    }

    /** The value for a native key: from the cache, or converted now and cached. */
    method Realize(k: string, ghost world: set<LazyObject>) returns (h: Handed, ghost world': set<LazyObject>)
      requires this in world && Consistent(world) && k in native
      modifies this
      ensures world <= world' && fresh(world' - world) && Consistent(world')
      ensures IsFor(h, native[k], world')
    {
      world' := world;
      if k in cache {
        return cache[k], world;
      }
      match native[k] {
        case Obj(fields) =>
          var l := new LazyObject(fields);
          world' := world + {l};
          h := Lazy(l);
        case _ => h := Plain(Convert(native[k]));
      }
      cache := cache[k := h];
    }

    method Get(k: Value, ghost world: set<LazyObject>) returns (r: Option<Handed>, ghost world': set<LazyObject>)
      requires this in world && Consistent(world)
      modifies this
      ensures world <= world' && fresh(world' - world) && Consistent(world')
      ensures Read(r) == GetValue(Strict(native), k)
      ensures r.Some? && r.value.Lazy? ==> r.value.obj in world'
    {
      StrictField(native, k);
      world' := world;
      if strict.Some? {
        return if k in strict.value.fields then Some(Plain(strict.value.fields[k])) else None, world;
      }
      if k.VScalar? && k.scalar.String? && k.scalar.s in native {
        var h;
        h, world' := Realize(k.scalar.s, world);
        return Some(h), world';
      }
      return None, world;
    }

    method Find(path: seq<Value>, ghost world: set<LazyObject>) returns (r: Option<Handed>, ghost world': set<LazyObject>)
      requires this in world && Consistent(world)
      modifies world
      ensures world <= world' && fresh(world' - world) && Consistent(world')
      ensures Read(r) == FindValue(Strict(native), path)
      ensures r.Some? && r.value.Lazy? ==> r.value.obj in world'
      decreases |path|
    {
      world' := world;
      if strict.Some? {
        var v := FindValue(strict.value, path);
        return if v.Some? then Some(Plain(v.value)) else None, world;
      }
      if path == [] {
        return Some(Lazy(this)), world;
      }
      StrictField(native, path[0]);
      if path[0].VScalar? && path[0].scalar.String? && path[0].scalar.s in native {
        var h;
        h, world' := Realize(path[0].scalar.s, world);
        match h {
          case Lazy(l) => r, world' := l.Find(path[1..], world');
          case Plain(v) =>
            var f := FindValue(v, path[1..]);
            r := if f.Some? then Some(Plain(f.value)) else None;
        }
        return;
      }
      return None, world;
    }

    /** The keys in order, without converting the values. */
    method Keys() returns (r: seq<Comparison.Datum>)
      requires strict.Some? ==> strict.value == Strict(native)
      ensures IsKeyList(Strict(native), r)
    {
      KeyTermsNative(native);
      if strict.Some? {
        r := StrictKeys(strict.value);
      } else {
        r := SortTexts(native.Keys);
      }
    }

    method Len() returns (n: nat)
      ensures n == |Strict(native).fields|
    {
      SameSize(native.Keys);
      assert ConvertFields(native).Keys == KeysOf(native.Keys);
      return |native|;
    }

    /** The other value may be lazy as well, and is then converted too. */
    method CompareTo(other: Handed, objects: (Value, Value) -> int, ghost world: set<LazyObject>) returns (r: int)
      requires this in world && Among(other, world) && Consistent(world)
      modifies world
      ensures Consistent(world) && r == CompareStrict(objects, Strict(native), Denotes(other))
    {
      var o1, o2 := OBJECT_ORDER, if other.Lazy? then OBJECT_ORDER else KindOrder(other.value);
      if o1 < o2 {
        return -1;
      } else if o2 < o1 {
        return 1;
      }
      var v := Force(world);
      var w;
      match other {
        case Lazy(l) => w := l.Force(world);
        case Plain(o) => w := o;
      }
      return objects(v, w);
    }

    method Hash(hash: Value -> int, ghost world: set<LazyObject>) returns (r: int)
      requires this in world && Consistent(world)
      modifies this
      ensures Consistent(world) && r == hash(Strict(native))
    {
      var v := Force(world);
      return hash(v);
    }
  }

  // Keys.

  function KeyTerms(v: Value): set<Comparison.Datum>
    requires v.VObject?
  {
    set k | k in v.fields && k.VScalar? && k.scalar.String? :: Comparison.Text(k.scalar.s)
  }

  ghost predicate IsKeyList(v: Value, r: seq<Comparison.Datum>)
    requires v.VObject?
  {
    Comparison.Increasing(r) && Comparison.Members(r) == KeyTerms(v)
  }

  function Texts(keys: set<string>): set<Comparison.Datum> {
    set k | k in keys :: Comparison.Text(k)
  }

  lemma {:induction false} KeyTermsNative(native: Native)
    ensures KeyTerms(Strict(native)) == Texts(native.Keys)
  {
    var fields := ConvertFields(native);
    forall x | x in Texts(native.Keys) ensures x in KeyTerms(Strict(native)) {
      var k :| k in native && Comparison.Text(k) == x;
      assert KeyOf(k) in fields;
    }
  }

  method SortTexts(keys: set<string>) returns (r: seq<Comparison.Datum>)
    ensures Comparison.Increasing(r) && Comparison.Members(r) == Texts(keys)
  {
    var list: seq<Comparison.Datum> := [];
    var todo := keys;
    while todo != {}
      invariant todo <= keys && OpenSet.Distinct(list) && forall x :: x in list <==> x in Texts(keys - todo)
      decreases todo
    {
      var k :| k in todo;
      ghost var done := keys - todo;
      todo := todo - {k};
      assert keys - todo == done + {k};
      assert Texts(done + {k}) == Texts(done) + {Comparison.Text(k)};
      OpenSet.DistinctSnoc(list, Comparison.Text(k));
      list := list + [Comparison.Text(k)];
    }
    assert keys - todo == keys;
    r := OpenSet.Sort(list);
  }

  method StrictKeys(v: Value) returns (r: seq<Comparison.Datum>)
    requires v.VObject?
    ensures IsKeyList(v, r)
  {
    var keys := set k | k in v.fields && k.VScalar? && k.scalar.String? :: k.scalar.s;
    r := SortTexts(keys);
    forall x | x in KeyTerms(v) ensures x in Texts(keys) {
      var k :| k in v.fields && k.VScalar? && k.scalar.String? && Comparison.Text(k.scalar.s) == x;
      assert k.scalar.s in keys;
    }
  }

  // Size.

  function KeysOf(keys: set<string>): set<Value> {
    set k | k in keys :: KeyOf(k)
  }

  lemma {:induction false} SameSize(keys: set<string>)
    ensures |KeysOf(keys)| == |keys|
    decreases |keys|
  {
    if keys != {} {
      var k :| k in keys;
      SameSize(keys - {k});
      assert KeysOf(keys) == KeysOf(keys - {k}) + {KeyOf(k)};
    }
  }

  // Comparing.

  const OBJECT_ORDER := 7

  function KindOrder(v: Value): nat {
    match v
    case VScalar(Null) => 0
    case VScalar(Boolean(_)) => 1
    case VScalar(Number(_)) => 2
    case VScalar(String(_)) => 3
    case VArray(_) => 6
    case VObject(_) => OBJECT_ORDER
    case VSet(_) => 8
  }

  function CompareStrict(objects: (Value, Value) -> int, v: Value, other: Value): int {
    if KindOrder(v) != KindOrder(other) then Comparison.Sign(KindOrder(v), KindOrder(other)) else objects(v, other)
  }

  // Any sequence of questions.

  /** How objects are compared and hashed once they are strict. */
  datatype Observers = Observers(objects: (Value, Value) -> int, hash: Value -> int)

  datatype Question =
    | Get(key: Value)
    | Find(path: seq<Value>)
    | Keys
    | Len
    | Compare(value: Value)
    | CompareAnswer(with: nat)
    | Hash
    | Force

  datatype Answer = Found(value: Option<Value>) | Amount(n: int) | List(keys: seq<Comparison.Datum>)

  /** The answer of the strict object, compared with another strict value where that is the question. */
  ghost predicate Answers(obs: Observers, v: Value, other: Value, q: Question, a: Answer)
    requires v.VObject?
  {
    match q
    case Get(k) => a == Found(GetValue(v, k))
    case Find(path) => a == Found(FindValue(v, path))
    case Keys => a.List? && IsKeyList(v, a.keys)
    case Len => a == Amount(|v.fields|)
    case Compare(value) => a == Amount(CompareStrict(obs.objects, v, value))
    case CompareAnswer(_) => a == Amount(CompareStrict(obs.objects, v, other))
    case Hash => a == Amount(obs.hash(v))
    case Force => a == Found(Some(v))
  }

  /** There is only one answer to each question. */
  lemma {:induction false} OneAnswer(obs: Observers, v: Value, other: Value, q: Question, a: Answer, b: Answer)
    requires v.VObject? && Answers(obs, v, other, q, a) && Answers(obs, v, other, q, b)
    ensures a == b
  {
    if q.Keys? {
      Comparison.IncreasingUnique(a.keys, b.keys);
    }
  }

  function ObjectIn(a: Answer): (r: Option<Value>)
    ensures r.Some? ==> r.value.VObject?
  {
    if a.Found? && a.value.Some? && a.value.value.VObject? then a.value else None
  }

  /** The object in an answer as it was handed out. */
  ghost predicate HandedOut(h: Option<Handed>, a: Answer, world: set<LazyObject>) {
    match h
    case None => ObjectIn(a) == None
    case Some(x) => ObjectIn(a) == Some(Denotes(x)) && Among(x, world)
  }

  function AsObject(h: Option<Handed>): Option<Handed> {
    if h.Some? && h.value.Plain? && !h.value.value.VObject? then None else h
  }

  /** Asks a lazy object one question; what comes back may be another lazy object. */
  method AskLazy(l: LazyObject, other: Handed, q: Question, obs: Observers, ghost world: set<LazyObject>)
    returns (handed: Option<Handed>, a: Answer, ghost world': set<LazyObject>)
    requires l in world && Among(other, world) && Consistent(world)
    modifies world
    ensures world <= world' && fresh(world' - world) && Consistent(world')
    ensures Answers(obs, Strict(l.native), Denotes(other), q, a) && HandedOut(handed, a, world')
  {
    handed, world' := None, world;
    match q {
      case Get(k) =>
        var h;
        h, world' := l.Get(k, world);
        a, handed := Found(Read(h)), AsObject(h);
      case Find(path) =>
        var h;
        h, world' := l.Find(path, world);
        a, handed := Found(Read(h)), AsObject(h);
      case Keys =>
        assert l.Local(world);
        var keys := l.Keys();
        a := List(keys);
      case Len =>
        var n := l.Len();
        a := Amount(n);
      case Compare(value) =>
        var r := l.CompareTo(Plain(value), obs.objects, world);
        a := Amount(r);
      case CompareAnswer(_) =>
        var r := l.CompareTo(other, obs.objects, world);
        a := Amount(r);
      case Hash =>
        var r := l.Hash(obs.hash, world);
        a := Amount(r);
      case Force =>
        var v := l.Force(world);
        a, handed := Found(Some(v)), Some(Plain(v));
    }
  }

  method AskStrict(v: Value, other: Handed, q: Question, obs: Observers, ghost world: set<LazyObject>)
    returns (handed: Option<Handed>, a: Answer)
    requires v.VObject? && Among(other, world) && Consistent(world)
    modifies world
    ensures Consistent(world) && Answers(obs, v, Denotes(other), q, a) && HandedOut(handed, a, world)
  {
    handed := None;
    match q {
      case Get(k) =>
        var r := GetValue(v, k);
        a, handed := Found(r), AsObject(if r.Some? then Some(Plain(r.value)) else None);
      case Find(path) =>
        var r := FindValue(v, path);
        a, handed := Found(r), AsObject(if r.Some? then Some(Plain(r.value)) else None);
      case Keys =>
        var keys := StrictKeys(v);
        a := List(keys);
      case Len => a := Amount(|v.fields|);
      case Compare(value) => a := Amount(CompareStrict(obs.objects, v, value));
      case CompareAnswer(_) =>
        var w;
        match other {
          case Lazy(l) => w := l.Force(world);
          case Plain(o) => w := o;
        }
        a := Amount(CompareStrict(obs.objects, v, w));
      case Hash => a := Amount(obs.hash(v));
      case Force => a, handed := Found(Some(v)), Some(Plain(v));
    }
  }

  /** A question to the first object (number 0), or to the object in an earlier answer (counted from 1). */
  datatype Request = Request(who: nat, q: Question)

  /** The strict object a number stands for; the first one if that answer holds no object. */
  ghost function Addressed(whole: Value, answers: seq<Answer>, who: nat): (v: Value)
    requires whole.VObject?
    ensures v.VObject?
  {
    if 0 < who <= |answers| && ObjectIn(answers[who - 1]).Some? then ObjectIn(answers[who - 1]).value else whole
  }

  ghost function Compared(whole: Value, answers: seq<Answer>, q: Question): (v: Value)
    requires whole.VObject?
    ensures v.VObject?
  {
    Addressed(whole, answers, if q.CompareAnswer? then q.with else 0)
  }

  /** The answers of a strict object, and of the objects in its answers, to a sequence of requests. */
  ghost predicate IsRun(obs: Observers, whole: Value, reqs: seq<Request>, answers: seq<Answer>)
    requires whole.VObject?
  {
    && |answers| == |reqs|
    && forall i | 0 <= i < |reqs| ::
         Answers(obs, Addressed(whole, answers[..i], reqs[i].who), Compared(whole, answers[..i], reqs[i].q), reqs[i].q, answers[i])
  }

  lemma {:induction false} SameNext(obs: Observers, whole: Value, reqs: seq<Request>, xs: seq<Answer>, ys: seq<Answer>, i: nat)
    requires whole.VObject? && IsRun(obs, whole, reqs, xs) && IsRun(obs, whole, reqs, ys)
    requires i < |reqs| && xs[..i] == ys[..i]
    ensures xs[i] == ys[i]
  {
    var v, other := Addressed(whole, xs[..i], reqs[i].who), Compared(whole, xs[..i], reqs[i].q);
    OneAnswer(obs, v, other, reqs[i].q, xs[i], ys[i]);
  }

  lemma {:induction false} SamePrefix(obs: Observers, whole: Value, reqs: seq<Request>, xs: seq<Answer>, ys: seq<Answer>, i: nat)
    requires whole.VObject? && IsRun(obs, whole, reqs, xs) && IsRun(obs, whole, reqs, ys) && i <= |reqs|
    ensures xs[..i] == ys[..i]
  {
    if i > 0 {
      SamePrefix(obs, whole, reqs, xs, ys, i - 1);
      SameNext(obs, whole, reqs, xs, ys, i - 1);
      LastOfPrefix(xs, i - 1);
      LastOfPrefix(ys, i - 1);
    }
  }

  lemma {:induction false} LastOfPrefix<T>(xs: seq<T>, i: nat)
    requires i < |xs|
    ensures xs[..i + 1] == xs[..i] + [xs[i]]
  {
  }

  /** There is only one such sequence of answers. */
  lemma {:induction false} OneRun(obs: Observers, whole: Value, reqs: seq<Request>, xs: seq<Answer>, ys: seq<Answer>)
    requires whole.VObject? && IsRun(obs, whole, reqs, xs) && IsRun(obs, whole, reqs, ys)
    ensures xs == ys
  {
    SamePrefix(obs, whole, reqs, xs, ys, |reqs|);
    assert xs[..|reqs|] == xs && ys[..|reqs|] == ys;
  }

  /** The object that a number stands for, as it was handed out. */
  function Recipient(l: LazyObject, known: seq<Option<Handed>>, who: nat): Handed {
    if 0 < who <= |known| && known[who - 1].Some? then known[who - 1].value else Lazy(l)
  }

  ghost predicate AllHandedOut(known: seq<Option<Handed>>, answers: seq<Answer>, world: set<LazyObject>) {
    |known| == |answers| && forall j | 0 <= j < |known| :: HandedOut(known[j], answers[j], world)
  }

  lemma {:induction false} RecipientDenotes(l: LazyObject, known: seq<Option<Handed>>, answers: seq<Answer>, world: set<LazyObject>, who: nat)
    requires l in world && AllHandedOut(known, answers, world)
    ensures var h := Recipient(l, known, who); Among(h, world) && Denotes(h) == Addressed(Strict(l.native), answers, who)
  {
  }

  lemma {:induction false} HandedOutLater(known: seq<Option<Handed>>, answers: seq<Answer>, world: set<LazyObject>,
                                          h: Option<Handed>, a: Answer, world': set<LazyObject>)
    requires AllHandedOut(known, answers, world) && world <= world' && HandedOut(h, a, world')
    ensures AllHandedOut(known + [h], answers + [a], world')
  {
  }

  lemma {:induction false} RunNext(obs: Observers, whole: Value, reqs: seq<Request>, i: nat, answers: seq<Answer>, a: Answer)
    requires whole.VObject? && i < |reqs| && IsRun(obs, whole, reqs[..i], answers)
    requires Answers(obs, Addressed(whole, answers, reqs[i].who), Compared(whole, answers, reqs[i].q), reqs[i].q, a)
    ensures IsRun(obs, whole, reqs[..i + 1], answers + [a])
  {
    var all := answers + [a];
    forall j | 0 <= j < i + 1
      ensures Answers(obs, Addressed(whole, all[..j], reqs[j].who), Compared(whole, all[..j], reqs[j].q), reqs[j].q, all[j])
    {
      if j < i {
        assert all[..j] == answers[..j] && reqs[..i][j] == reqs[j];
      } else {
        assert all[..j] == answers;
      }
    }
  }

  /**
    Whatever is asked, in whatever order, of the object and of the objects in its answers, lazy or converted:
    the answers are those of the strict object and of the objects in its answers.
   */
  method AskAll(l: LazyObject, reqs: seq<Request>, obs: Observers, ghost world: set<LazyObject>)
    returns (answers: seq<Answer>, ghost world': set<LazyObject>)
    requires l in world && Consistent(world)
    modifies world
    ensures world <= world' && fresh(world' - world) && Consistent(world')
    ensures IsRun(obs, Strict(l.native), reqs, answers)
  {
    answers, world' := [], world;
    var known: seq<Option<Handed>> := [];
    for i := 0 to |reqs|
      invariant world <= world' && fresh(world' - world) && Consistent(world')
      invariant AllHandedOut(known, answers, world') && IsRun(obs, Strict(l.native), reqs[..i], answers)
    {
      var q := reqs[i].q;
      var target := Recipient(l, known, reqs[i].who);
      var other := Recipient(l, known, if q.CompareAnswer? then q.with else 0);
      RecipientDenotes(l, known, answers, world', reqs[i].who);
      RecipientDenotes(l, known, answers, world', if q.CompareAnswer? then q.with else 0);
      ghost var before := world';
      var a;
      var handed;
      match target {
        case Lazy(t) => handed, a, world' := AskLazy(t, other, q, obs, world');
        case Plain(v) => handed, a := AskStrict(v, other, q, obs, world');
      }
      RunNext(obs, Strict(l.native), reqs, i, answers, a);
      HandedOutLater(known, answers, before, handed, a, world');
      answers, known := answers + [a], known + [handed];
    }
    assert reqs[..|reqs|] == reqs;
  }
}
