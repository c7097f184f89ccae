/**
 Resource accounting over the allocation matrix: what a sequence of completed
 processes hands back, the work vector that results, what unfinished processes
 still hold, and the classical notion of a safe sequence.
 */
module Ledger {
  import opened Layout

  /** Units of resource j that the processes of `q` hold together. */
  function Released(sn: Snapshot, q: seq<int>, j: nat): int
    requires WellFormed(sn) && j < sn.r && InRange(q, sn.n)
  {
    if q == [] then 0 else Released(sn, q[..|q| - 1], j) + AllocRow(sn, q[|q| - 1])[j]
  }

  /** The work vector once every process of `q` has handed back its allocation. */
  function WorkAfter(sn: Snapshot, available: seq<int>, q: seq<int>): (w: seq<int>)
    requires WellFormed(sn) && |available| == sn.r && InRange(q, sn.n)
    ensures |w| == sn.r
  {
    seq(sn.r, j requires 0 <= j < sn.r => available[j] + Released(sn, q, j))
  }

  /** A safe sequence: distinct processes, each of whose need is covered by the
      available vector plus what the processes before it hand back. */
  ghost predicate IsSafeSequence(sn: Snapshot, available: seq<int>, q: seq<int>)
    requires WellFormed(sn) && |available| == sn.r
  {
    && InRange(q, sn.n)
    && Distinct(q)
    && forall k :: 0 <= k < |q| ==> Covers(NeedRow(sn, q[k]), WorkAfter(sn, available, q[..k]))
  }

  /** A sequence that names every process. */
  ghost predicate Complete(q: seq<int>, n: nat) {
    forall i :: 0 <= i < n ==> i in q
  }

  /** Units of resource j held by the processes among the first m whose flag is
      clear. */
  function Held(sn: Snapshot, safe: seq<bool>, j: nat, m: nat): int
    requires WellFormed(sn) && |safe| == sn.n && j < sn.r && m <= sn.n
  {
    if m == 0 then 0
    else Held(sn, safe, j, m - 1) + (if safe[m - 1] then 0 else AllocRow(sn, m - 1)[j])
  }

  /** Units of resource j allocated to the first m processes. */
  function Total(sn: Snapshot, j: nat, m: nat): int
    requires WellFormed(sn) && j < sn.r && m <= sn.n
  {
    if m == 0 then 0 else Total(sn, j, m - 1) + AllocRow(sn, m - 1)[j]
  }

  /** With no flag set, the unfinished processes hold everything allocated. */
  lemma {:induction false} HeldNoneIsTotal(sn: Snapshot, safe: seq<bool>, j: nat, m: nat)
    requires WellFormed(sn) && |safe| == sn.n && j < sn.r && m <= sn.n
    requires forall i :: 0 <= i < sn.n ==> !safe[i]
    ensures Held(sn, safe, j, m) == Total(sn, j, m)
  {
    if m > 0 {
      HeldNoneIsTotal(sn, safe, j, m - 1);
    }
  }

  /** Setting the flag of process i removes exactly its allocation from what
      the unfinished processes hold. */
  lemma {:induction false} HeldFlip(sn: Snapshot, safe: seq<bool>, i: nat, j: nat, m: nat)
    requires WellFormed(sn) && |safe| == sn.n && j < sn.r && m <= sn.n
    requires i < sn.n && !safe[i]
    ensures Held(sn, safe[i := true], j, m)
            == Held(sn, safe, j, m) - (if i < m then AllocRow(sn, i)[j] else 0)
  {
    if m > 0 {
      HeldFlip(sn, safe, i, j, m - 1);
    }
  }

  /** Releasing two sequences one after the other releases their sum. */
  lemma {:induction false} ReleasedAppend(sn: Snapshot, s: seq<int>, t: seq<int>, j: nat)
    requires WellFormed(sn) && j < sn.r && InRange(s, sn.n) && InRange(t, sn.n)
    ensures InRange(s + t, sn.n)
    ensures Released(sn, s + t, j) == Released(sn, s, j) + Released(sn, t, j)
    decreases |t|
  {
    if t == [] {
      assert s + t == s;
    } else {
      var t' := t[..|t| - 1];
      assert (s + t)[..|s + t| - 1] == s + t';
      ReleasedAppend(sn, s, t', j);
    }
  }

  lemma {:induction false} ReleasedNonNegative(sn: Snapshot, q: seq<int>, j: nat)
    requires WellFormed(sn) && j < sn.r && InRange(q, sn.n)
    requires NonNegative(sn.alloc)
    ensures 0 <= Released(sn, q, j)
  {
    if q != [] {
      ReleasedNonNegative(sn, q[..|q| - 1], j);
    }
  }

  /** Removing the entry at position p takes exactly that process's allocation
      out of the released total. */
  lemma ReleasedRemoveAt(sn: Snapshot, b: seq<int>, p: nat, j: nat)
    requires WellFormed(sn) && j < sn.r && InRange(b, sn.n) && p < |b|
    ensures InRange(b[..p] + b[p + 1..], sn.n)
    ensures Released(sn, b, j) == Released(sn, b[..p] + b[p + 1..], j) + AllocRow(sn, b[p])[j]
  {
    var b1, b2 := b[..p], b[p + 1..];
    assert b == (b1 + [b[p]]) + b2;
    assert InRange(b1, sn.n) && InRange(b2, sn.n);
    ReleasedAppend(sn, b1, [b[p]], j);
    ReleasedAppend(sn, b1 + [b[p]], b2, j);
    ReleasedAppend(sn, b1, b2, j);
    assert [b[p]][..0] == [];
  }

  /** Removing one entry of a distinct sequence keeps it distinct and keeps
      every other entry. */
  lemma RemoveAtKeeps(b: seq<int>, p: nat)
    requires p < |b| && Distinct(b)
    ensures Distinct(b[..p] + b[p + 1..])
    ensures forall y :: y in b && y != b[p] ==> y in b[..p] + b[p + 1..]
  {
    var b' := b[..p] + b[p + 1..];
    forall u, v | 0 <= u < v < |b'|
      ensures b'[u] != b'[v]
    {
      var u' := if u < p then u else u + 1;
      var v' := if v < p then v else v + 1;
      assert b'[u] == b[u'] && b'[v] == b[v'];
    }
    forall y | y in b && y != b[p]
      ensures y in b'
    {
      var kb :| 0 <= kb < |b| && b[kb] == y;
      if kb < p {
        assert b'[kb] == y;
      } else {
        assert b'[kb - 1] == y;
      }
    }
  }

  /** Every entry of `a` is an entry of `b`. */
  ghost predicate Within(a: seq<int>, b: seq<int>) {
    forall x :: x in a ==> x in b
  }

  /** When every entry of a distinct `a` appears in a distinct `b`, the last
      entry of `a` sits at some position p of `b`, and the rest of `a` appears
      in `b` with position p removed. */
  lemma DropLastInside(a: seq<int>, b: seq<int>) returns (p: nat)
    requires a != [] && Distinct(a) && Distinct(b)
    requires Within(a, b)
    ensures p < |b| && b[p] == a[|a| - 1]
    ensures Distinct(a[..|a| - 1]) && Distinct(b[..p] + b[p + 1..])
    ensures Within(a[..|a| - 1], b[..p] + b[p + 1..])
  {
    var x := a[|a| - 1];
    assert x in a;
    p :| 0 <= p < |b| && b[p] == x;
    RemoveAtKeeps(b, p);
    var a', b' := a[..|a| - 1], b[..p] + b[p + 1..];
    forall y | y in a'
      ensures y in b'
    {
      var ka :| 0 <= ka < |a'| && a'[ka] == y;
      assert a[ka] == y;
      assert y in b && y != b[p];
    }
  }

  /** With non-negative allocations, a distinct sequence whose processes all
      appear in another distinct sequence releases no more than it. */
  lemma {:induction false} ReleasedSubset(sn: Snapshot, a: seq<int>, b: seq<int>, j: nat)
    requires WellFormed(sn) && j < sn.r && InRange(a, sn.n) && InRange(b, sn.n)
    requires NonNegative(sn.alloc)
    requires Distinct(a) && Distinct(b)
    requires Within(a, b)
    ensures Released(sn, a, j) <= Released(sn, b, j)
    decreases |a|
  {
    if a == [] {
      ReleasedNonNegative(sn, b, j);
    } else {
      var x := a[|a| - 1];
      var a' := a[..|a| - 1];
      var p := DropLastInside(a, b);
      var b' := b[..p] + b[p + 1..];
      ReleasedRemoveAt(sn, b, p, j);
      assert InRange(a', sn.n);
      ReleasedSubset(sn, a', b', j);
      assert Released(sn, a, j) == Released(sn, a', j) + AllocRow(sn, x)[j];
    }
  }

  /** With non-negative allocations, the work vector never shrinks as more of
      a sequence completes. */
  lemma {:induction false} WorkAfterPrefix(sn: Snapshot, available: seq<int>, q: seq<int>, k: nat)
    requires WellFormed(sn) && |available| == sn.r && InRange(q, sn.n) && k <= |q|
    requires NonNegative(sn.alloc)
    ensures AtMost(available, WorkAfter(sn, available, q[..k]))
    ensures AtMost(WorkAfter(sn, available, q[..k]), WorkAfter(sn, available, q))
  {
    forall j | 0 <= j < sn.r
      ensures available[j] <= WorkAfter(sn, available, q[..k])[j]
      ensures WorkAfter(sn, available, q[..k])[j] <= WorkAfter(sn, available, q)[j]
    {
      assert q == q[..k] + q[k..];
      ReleasedAppend(sn, q[..k], q[k..], j);
      ReleasedNonNegative(sn, q[..k], j);
      ReleasedNonNegative(sn, q[k..], j);
    }
  }
}
