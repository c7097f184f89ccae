/**
 The flat matrix layout shared by every part of the safety check.

 A P x R matrix is stored as one sequence of P * R integers in row-major order:
 the cell of process i and resource type j sits at index i * R + j.
 */
module Layout {

  /** The inputs of one safety check: `n` processes, `r` resource types, and the
      need and allocation matrices, both flat and row-major. */
  datatype Snapshot = Snapshot(n: nat, r: nat, need: seq<int>, alloc: seq<int>)

  /** Both matrices have exactly one cell per (process, resource) pair. */
  predicate WellFormed(sn: Snapshot) {
    |sn.need| == sn.n * sn.r && |sn.alloc| == sn.n * sn.r
  }

  predicate NonNegative(m: seq<int>) {
    forall k :: 0 <= k < |m| ==> 0 <= m[k]
  }

  /** Every entry of `q` is a process index. */
  predicate InRange(q: seq<int>, n: nat) {
    forall k :: 0 <= k < |q| ==> 0 <= q[k] < n
  }

  predicate Distinct(q: seq<int>) {
    forall a, b :: 0 <= a < b < |q| ==> q[a] != q[b]
  }

  /** Row i of a P x R matrix ends inside the matrix. */
  lemma {:induction false} RowFits(n: nat, r: nat, i: nat)
    requires i < n
    ensures i * r + r <= n * r
    decreases n
  {
    if i + 1 < n {
      RowFits(n - 1, r, i);
      assert (n - 1) * r + r == n * r;
    } else {
      assert i * r + r == (i + 1) * r;
    }
  }

  /** The row of process i: cell j of the result is cell i * r + j of `m`. */
  function Row(m: seq<int>, n: nat, r: nat, i: nat): (row: seq<int>)
    requires |m| == n * r && i < n
    ensures i * r + r <= n * r
    ensures |row| == r
    ensures forall j :: 0 <= j < r ==> row[j] == m[i * r + j]
  {
    RowFits(n, r, i);
    m[i * r .. i * r + r]
  }

  function NeedRow(sn: Snapshot, i: nat): seq<int>
    requires WellFormed(sn) && i < sn.n
  {
    Row(sn.need, sn.n, sn.r, i)
  }

  function AllocRow(sn: Snapshot, i: nat): seq<int>
    requires WellFormed(sn) && i < sn.n
  {
    Row(sn.alloc, sn.n, sn.r, i)
  }

  /** A need row is covered by a work vector when no resource is short. */
  predicate Covers(row: seq<int>, work: seq<int>)
    requires |row| == |work|
  {
    forall j :: 0 <= j < |work| ==> row[j] <= work[j]
  }

  /** Pointwise `a <= b`. */
  predicate AtMost(a: seq<int>, b: seq<int>)
    requires |a| == |b|
  {
    forall j :: 0 <= j < |a| ==> a[j] <= b[j]
  }

  /** The work vector after a process hands back the allocation `row`. */
  function AddRow(work: seq<int>, row: seq<int>): (w: seq<int>)
    requires |row| == |work|
    ensures |w| == |work|
    ensures forall j :: 0 <= j < |w| ==> w[j] - work[j] == row[j]
  {
    seq(|work|, j requires 0 <= j < |work| => work[j] + row[j])
  }

  /** A need covered by some work vector is covered by any larger one. */
  lemma CoversMonotone(row: seq<int>, w1: seq<int>, w2: seq<int>)
    requires |row| == |w1| == |w2|
    requires Covers(row, w1) && AtMost(w1, w2)
    ensures Covers(row, w2)
  {
  }
}
