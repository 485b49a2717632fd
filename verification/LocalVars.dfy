/** Generated variable names: never one of the excluded names, never twice the same. */
module LocalVars {
  import opened Syntax

  /** What a generator was created with. */
  datatype Generator = Generator(exclude: set<Name>, suffix: string)

  function Digit(d: nat): char
    requires d < 10
  {
    ['0', '1', '2', '3', '4', '5', '6', '7', '8', '9'][d]
  }

  function Decimal(n: nat): string {
    if n < 10 then [Digit(n)] else Decimal(n / 10) + [Digit(n % 10)]
  }

  function Local(g: Generator, n: nat): Name {
    "__local" + g.suffix + Decimal(n) + "__"
  }

  lemma {:induction false} DecimalInjective(m: nat, n: nat)
    requires Decimal(m) == Decimal(n)
    ensures m == n
  {
    var s, t := Decimal(m), Decimal(n);
    if m >= 10 && n >= 10 {
      assert s[..|s| - 1] == Decimal(m / 10) && t[..|t| - 1] == Decimal(n / 10);
      assert s[|s| - 1] == Digit(m % 10) && t[|t| - 1] == Digit(n % 10);
      DecimalInjective(m / 10, n / 10);
    } else {
      DecimalNonempty(m / 10);
      DecimalNonempty(n / 10);
      assert s[|s| - 1] == t[|t| - 1];
    }
  }

  lemma {:induction false} DecimalNonempty(n: nat)
    ensures |Decimal(n)| >= 1
  {
  }

  lemma {:induction false} LocalInjective(g: Generator, m: nat, n: nat)
    requires Local(g, m) == Local(g, n)
    ensures m == n
  {
    var p := |"__local" + g.suffix|;
    var x, y := Local(g, m), Local(g, n);
    assert x[p..|x| - 2] == Decimal(m) && y[p..|y| - 2] == Decimal(n);
    DecimalInjective(m, n);
  }

  /** The first counter from `n` on whose name is not excluded. */
  function FirstFree(g: Generator, n: nat): (k: nat)
    ensures n <= k && Local(g, k) !in g.exclude
    ensures forall j | n <= j < k :: Local(g, j) in g.exclude
    decreases |g.exclude|
  {
    if Local(g, n) !in g.exclude then n
    else
      var rest := g.(exclude := g.exclude - {Local(g, n)});
      var k := FirstFree(rest, n + 1);
      assert Local(g, k) !in g.exclude && (forall j | n <= j < k :: Local(g, j) in g.exclude) by {
        assert forall j :: Local(rest, j) == Local(g, j);
        if Local(g, k) == Local(g, n) { LocalInjective(g, k, n); }
      }
      k
  }

  /** `x` is a name the generator can hand out while its counter runs from `n` below `m`. */
  ghost predicate Generated(g: Generator, n: nat, m: nat, x: Name) {
    x !in g.exclude && exists k: nat | n <= k < m :: x == Local(g, k)
  }

  /** `x` is a name the generator can still hand out. */
  ghost predicate Ahead(g: Generator, n: nat, x: Name) {
    x !in g.exclude && exists k: nat | n <= k :: x == Local(g, k)
  }

  lemma {:induction false} GeneratedOnce(g: Generator, n: nat, x: Name)
    ensures Generated(g, n, FirstFree(g, n) + 1, x) <==> x == Local(g, FirstFree(g, n))
  {
  }

  lemma {:induction false} GeneratedSplits(g: Generator, n: nat, m: nat, p: nat, x: Name)
    requires n <= m <= p
    ensures Generated(g, n, p, x) <==> Generated(g, n, m, x) || Generated(g, m, p, x)
    ensures !(Generated(g, n, m, x) && Ahead(g, m, x))
  {
    if Generated(g, n, p, x) {
      var k: nat :| n <= k < p && x == Local(g, k);
      assert if k < m then Generated(g, n, m, x) else Generated(g, m, p, x);
    }
    if Generated(g, n, m, x) && Ahead(g, m, x) {
      var j: nat :| n <= j < m && x == Local(g, j);
      var k: nat :| m <= k && x == Local(g, k);
      LocalInjective(g, j, k);
    }
  }

  /** The generator object: a counter that skips excluded names. */
  class LocalVarGenerator {
    const gen: Generator
    var next: nat

    constructor (exclude: set<Name>, suffix: string)
      ensures gen == Generator(exclude, suffix) && next == 0
    {
      gen := Generator(exclude, suffix);
      next := 0;
    }

    method Generate() returns (x: Name)
      modifies this`next
      ensures x == Local(gen, FirstFree(gen, old(next))) && next == FirstFree(gen, old(next)) + 1
      ensures Ahead(gen, old(next), x) && !Ahead(gen, next, x)
    {
      ghost var start := next;
      ghost var free := FirstFree(gen, next);
      while true
        invariant start <= next <= free && FirstFree(gen, next) == free
        decreases free - next
      {
        x := Local(gen, next);
        next := next + 1;
        if x !in gen.exclude {
          forall k: nat | next <= k ensures x != Local(gen, k) {
            if x == Local(gen, k) { LocalInjective(gen, k, next - 1); }
          }
          return;
        }
        FreeFromNext(gen, next - 1);
      }
    }
  }

  lemma {:induction false} FreeFromNext(g: Generator, n: nat)
    requires Local(g, n) in g.exclude
    ensures FirstFree(g, n) == FirstFree(g, n + 1)
  {
  }
}
