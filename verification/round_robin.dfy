/**
 Index arithmetic shared by all three pools: the round-robin placement of
 submissions (`index++ % n`) and the rotated order `(index + i) % n` in which
 an idle worker of the mutex pool tries its peers.
 */
module RoundRobin {

  /** The queue that the submission numbered `counter` is placed in. */
  function Target(counter: nat, n: nat): (i: nat)
    requires n >= 1
    ensures i < n
  {
    counter % n
  }

  /** The `k`-th queue tried by a rotation over `n` queues that starts at `start`. */
  function Probe(start: nat, k: nat, n: nat): (j: nat)
    requires n >= 1
    ensures j < n
  {
    (start + k) % n
  }

  /** The queues tried, in order, by a rotation over `n` queues that starts at `start`. */
  function Rotation(start: nat, n: nat): (r: seq<nat>)
    requires n >= 1
    ensures |r| == n
    ensures forall k :: 0 <= k < n ==> r[k] == Probe(start, k, n)
  {
    seq(n, k requires 0 <= k < n => Probe(start, k, n))
  }

  /** Euclidean division is unique: `x = q*n + r` with `0 <= r < n` determines `x % n`. */
  lemma ModUnique(x: int, n: int, q: int, r: int)
    requires n > 0 && 0 <= r < n && x == q * n + r
    ensures x % n == r
  {
    var q', r' := x / n, x % n;
    assert x == q' * n + r';
    Distribute(q, q', n);
    if q > q' {
      MulAtLeast(q - q', n);
    } else if q < q' {
      MulAtLeast(q' - q, n);
    }
  }

  lemma Distribute(a: int, b: int, n: int)
    ensures (a - b) * n == a * n - b * n
  {
  }

  lemma MulAtLeast(d: int, n: int)
    requires d >= 1 && n > 0
    ensures d * n >= n
  {
  }

  /** Two numbers less than `n` apart with the same residue modulo `n` are equal. */
  lemma SameResidue(x: int, y: int, n: int)
    requires n > 0 && 0 <= y - x < n && x % n == y % n
    ensures x == y
  {
    var qx, qy, m := x / n, y / n, x % n;
    assert x == qx * n + m && y == qy * n + m;
    Distribute(qy, qx, n);
    if qy > qx {
      MulAtLeast(qy - qx, n);
    } else if qy < qx {
      MulAtLeast(qx - qy, n);
    }
  }

  /**
   The rotation starting at `start` tries `start % n` first, stays inside
   `0..n-1`, tries every queue, and never tries one twice.
   */
  lemma RotationVisitsEachOnce(start: nat, n: nat)
    requires n >= 1
    ensures Rotation(start, n)[0] == start % n
    ensures forall k :: 0 <= k < n ==> Rotation(start, n)[k] < n
    ensures forall j :: 0 <= j < n ==> j in Rotation(start, n)
    ensures forall a, b :: 0 <= a < b < n ==> Rotation(start, n)[a] != Rotation(start, n)[b]
  {
    var r := Rotation(start, n);
    forall j | 0 <= j < n
      ensures j in r
    {
      var k := Offset(start, j, n);
      assert r[k] == j;
    }
    forall a, b | 0 <= a < b < n
      ensures r[a] != r[b]
    {
      if r[a] == r[b] {
        SameResidue(start + a, start + b, n);
      }
    }
  }

  /** The position at which the rotation starting at `start` reaches queue `j`. */
  function Offset(start: nat, j: nat, n: nat): (k: nat)
    requires n >= 1 && j < n
    ensures k < n && Probe(start, k, n) == j
  {
    var s := start % n;
    var k := if s <= j then j - s else j + n - s;
    ModUnique(start + k, n, start / n + (if s <= j then 0 else 1), j);
    k
  }

  /** The submission `k` places after `counter` lands on queue `j` exactly when `k` is `j`'s offset. */
  lemma OffsetUnique(start: nat, k: nat, n: nat)
    requires n >= 1 && k < n
    ensures Offset(start, Probe(start, k, n), n) == k
  {
    var j := (start + k) % n;
    var k' := Offset(start, j, n);
    if k < k' {
      SameResidue(start + k, start + k', n);
    } else if k' < k {
      SameResidue(start + k', start + k, n);
    }
  }
}
