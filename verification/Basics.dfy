/** Bytes, and the few facts about remainders and finite ranges that several modules share. */
module Basics {

  type byte = x: int | 0 <= x < 256

  datatype Option<+T> = None | Some(value: T) {
    predicate IsFailure() {
      None?
    }

    function PropagateFailure<U>(): Option<U>
      requires None?
    {
      None
    }

    function Extract(): T
      requires Some?
    {
      value
    }
  }

  /** Free-running ring indices are 16 bits wide. */
  const IDX: nat := 65536

  /** The 16-bit index that a counter value is stored as. */
  function Wrap(i: nat): (r: nat)
    ensures r < IDX
  {
    i % IDX
  }

  lemma WrapStep(i: nat)
    ensures Wrap(Wrap(i) + 1) == Wrap(i + 1)
  {
  }

  /** The number of increments of a 16-bit index that lead from `a` to `b`. */
  function Dist(a: nat, b: nat): (d: nat)
    ensures a < IDX && b < IDX ==> d < IDX
  {
    if a <= b then b - a else if a <= b + IDX then b + IDX - a else 0
  }

  lemma DistOfCounts(lo: nat, hi: nat)
    requires lo <= hi < lo + IDX
    ensures Dist(Wrap(lo), Wrap(hi)) == hi - lo
  {
    var x := hi % IDX - lo % IDX;
    assert hi - lo == x || hi - lo == x + IDX;
  }

  lemma DistStep(a: nat, b: nat)
    requires a < IDX && b < IDX && a != b
    ensures Dist(a, b) > 0 && Dist(Wrap(a + 1), b) == Dist(a, b) - 1
  {
  }

  lemma PositiveMultiple(n: nat, d: int)
    requires d > 0
    ensures d * n >= n
  {
    var e: nat := d - 1;
    assert e * n >= 0;
    assert d * n == e * n + n;
  }

  /** A multiple of `n` strictly between `-n` and `n` is zero. */
  lemma SmallMultiple(n: nat, d: int)
    ensures d != 0 ==> d * n >= n || d * n <= 0 - n
  {
    if d > 0 {
      PositiveMultiple(n, d);
    } else if d < 0 {
      PositiveMultiple(n, -d);
      assert (-d) * n == 0 - d * n;
    }
  }

  lemma QuotientUnique(n: nat, q: int, r: nat, x: int)
    requires n > 0 && r < n && x == q * n + r
    ensures x / n == q && x % n == r
  {
    var d := q - x / n;
    assert d * n == q * n - (x / n) * n;
    SmallMultiple(n, d);
  }

  /** Two counters closer than `n` never share a remainder modulo `n`. */
  lemma RemaindersDiffer(n: nat, i: nat, j: nat)
    requires n > 0 && i < j < i + n
    ensures i % n != j % n
  {
    var d := j / n - i / n;
    assert j - i == d * n + (j % n - i % n);
    SmallMultiple(n, d);
  }

  /** Reducing first modulo a multiple of `n` changes nothing. */
  lemma RemainderOfRemainder(n: nat, m: nat, i: nat)
    requires n > 0 && m > 0 && m % n == 0
    ensures (i % m) % n == i % n
  {
    var k, q := m / n, i / m;
    assert m == k * n;
    assert i == q * m + i % m;
    var r := (i % m) % n;
    var p := (i % m) / n;
    assert i % m == p * n + r;
    assert i == (q * k + p) * n + r by {
      assert q * m == q * (k * n) == (q * k) * n;
    }
    QuotientUnique(n, q * k + p, r, i);
  }

  /** The identifiers `0..n`. */
  function Range(n: nat): (r: set<nat>)
    ensures forall x: nat {:trigger x in r} :: x in r <==> x < n
  {
    if n == 0 then {} else Range(n - 1) + {n - 1}
  }

  lemma {:induction false} RangeSize(n: nat)
    ensures |Range(n)| == n
  {
    if n > 0 {
      RangeSize(n - 1);
    }
  }

  lemma {:induction false} SubsetSize<T>(a: set<T>, b: set<T>)
    requires a <= b
    ensures |a| <= |b|
    ensures |a| == |b| ==> a == b
  {
    assert b == a + (b - a);
    assert |b| == |a| + |b - a|;
  }
}
