/**
 What the safety simulation guarantees.

 Every completion is justified (the order is a safe sequence), resources are
 conserved, the verdict is safe exactly when every process completed, an
 unsafe run stops with no unfinished process coverable, and — with
 non-negative allocations — no safe sequence of any kind can finish a process
 the simulation left unfinished, so "unsafe" means no safe sequence exists.
 */
module SafetyProofs {
  import opened Layout
  import opened Safety
  import opened Ledger

  /** Resource conservation in the form the loop keeps it: for every resource,
      work plus what unfinished processes hold equals available plus everything
      allocated. */
  ghost predicate Conserved(sn: Snapshot, available: seq<int>, s: State)
    requires Valid(sn, s) && |available| == sn.r
  {
    forall j :: 0 <= j < sn.r ==>
      s.work[j] + Held(sn, s.safe, j, sn.n) == available[j] + Total(sn, j, sn.n)
  }

  /** How a state relates to the available vector it started from: work is
      available plus what the completed processes handed back, the order is a
      safe sequence, and resources are conserved. */
  ghost predicate Tracks(sn: Snapshot, available: seq<int>, s: State)
    requires Valid(sn, s) && |available| == sn.r
  {
    && s.work == WorkAfter(sn, available, s.order)
    && IsSafeSequence(sn, available, s.order)
    && Conserved(sn, available, s)
  }

  /** No unfinished process is covered by the current work vector. */
  ghost predicate Stuck(sn: Snapshot, s: State)
    requires Valid(sn, s)
  {
    forall i :: 0 <= i < sn.n && !s.safe[i] ==> !Covers(NeedRow(sn, i), s.work)
  }

  lemma InitTracks(sn: Snapshot, available: seq<int>)
    requires WellFormed(sn) && |available| == sn.r
    ensures Tracks(sn, available, Init(sn, available))
  {
    var s := Init(sn, available);
    assert WorkAfter(sn, available, []) == available;
    forall j | 0 <= j < sn.r
      ensures s.work[j] + Held(sn, s.safe, j, sn.n) == available[j] + Total(sn, j, sn.n)
    {
      HeldNoneIsTotal(sn, s.safe, j, sn.n);
    }
  }

  /** Releasing one more process adds exactly its allocation row to the work
      vector. */
  lemma WorkAfterAppend(sn: Snapshot, available: seq<int>, q: seq<int>, i: nat)
    requires WellFormed(sn) && |available| == sn.r && InRange(q, sn.n) && i < sn.n
    ensures InRange(q + [i], sn.n)
    ensures WorkAfter(sn, available, q + [i]) == AddRow(WorkAfter(sn, available, q), AllocRow(sn, i))
  {
    assert (q + [i])[..|q|] == q;
  }

  /** One visit keeps the relation to the available vector. */
  lemma StepTracks(sn: Snapshot, available: seq<int>, s: State, i: nat)
    requires Valid(sn, s) && |available| == sn.r && i < sn.n
    requires Tracks(sn, available, s)
    ensures Tracks(sn, available, Step(sn, s, i))
  {
    if CanComplete(sn, s, i) {
      var s' := Step(sn, s, i);
      assert s'.order == s.order + [i];
      WorkAfterAppend(sn, available, s.order, i);
      forall k | 0 <= k < |s'.order|
        ensures Covers(NeedRow(sn, s'.order[k]), WorkAfter(sn, available, s'.order[..k]))
      {
        if k < |s.order| {
          assert s'.order[..k] == s.order[..k];
        } else {
          assert s'.order[..k] == s.order;
        }
      }
      forall j | 0 <= j < sn.r
        ensures s'.work[j] + Held(sn, s'.safe, j, sn.n) == available[j] + Total(sn, j, sn.n)
      {
        HeldFlip(sn, s.safe, i, j, sn.n);
      }
    }
  }

  lemma {:induction false} PassFromTracks(sn: Snapshot, available: seq<int>, s: State, i: nat)
    requires Valid(sn, s) && |available| == sn.r && i <= sn.n
    requires Tracks(sn, available, s)
    ensures Tracks(sn, available, PassFrom(sn, s, i))
    decreases sn.n - i
  {
    if i < sn.n {
      StepTracks(sn, available, s, i);
      PassFromTracks(sn, available, Step(sn, s, i), i + 1);
    }
  }

  lemma {:induction false} RunTracks(sn: Snapshot, available: seq<int>, s: State, last: int)
    requires Valid(sn, s) && |available| == sn.r
    requires Tracks(sn, available, s)
    ensures Tracks(sn, available, Run(sn, s, last).state)
    decreases sn.n - |s.order|, if |s.order| == last then 0 else 1
  {
    if |s.order| != sn.n && |s.order| != last {
      PassFromTracks(sn, available, s, 0);
      RunTracks(sn, available, Pass(sn, s), |s.order|);
    }
  }

  /** A pass (or the rest of one) that completes nothing leaves the state
      unchanged, and every process it visited unfinished was not covered. */
  lemma {:induction false} PassFromNoProgress(sn: Snapshot, s: State, i: nat)
    requires Valid(sn, s) && i <= sn.n
    requires |PassFrom(sn, s, i).order| == |s.order|
    ensures PassFrom(sn, s, i) == s
    ensures forall x :: i <= x < sn.n && !s.safe[x] ==> !Covers(NeedRow(sn, x), s.work)
    decreases sn.n - i
  {
    if i < sn.n {
      var s1 := Step(sn, s, i);
      assert |PassFrom(sn, s1, i + 1).order| >= |s1.order|;
      assert s1 == s;
      PassFromNoProgress(sn, s1, i + 1);
    }
  }

  /** The two ways the loop stops: safe exactly when every process completed,
      and unsafe only with no unfinished process coverable. */
  lemma {:induction false} RunVerdict(sn: Snapshot, s: State, last: int)
    requires Valid(sn, s)
    requires last == |s.order| ==> Stuck(sn, s)
    ensures Run(sn, s, last).verdict == Safe <==> |Run(sn, s, last).state.order| == sn.n
    ensures Run(sn, s, last).verdict == Unsafe ==> Stuck(sn, Run(sn, s, last).state)
    decreases sn.n - |s.order|, if |s.order| == last then 0 else 1
  {
    if |s.order| != sn.n && |s.order| != last {
      var s' := Pass(sn, s);
      if |s'.order| == |s.order| {
        PassFromNoProgress(sn, s, 0);
      }
      RunVerdict(sn, s', |s.order|);
    }
  }

  /** From position `from` on, the entries of `q` are strictly ascending and at
      least `lo`. */
  predicate AscendingFrom(q: seq<int>, from: nat, lo: int) {
    && (forall a :: from <= a < |q| ==> lo <= q[a])
    && (forall a, b :: from <= a < b < |q| ==> q[a] < q[b])
  }

  lemma AscendingCons(q: seq<int>, from: nat, lo: int)
    requires from < |q| && q[from] == lo && AscendingFrom(q, from + 1, lo + 1)
    ensures AscendingFrom(q, from, lo)
  {
    forall a, b | from <= a < b < |q|
      ensures q[a] < q[b]
    {
      if a == from {
        assert lo + 1 <= q[b];
      }
    }
  }

  /** Within one pass processes complete in strictly ascending index order, all
      at or after the index the pass resumed from. */
  lemma {:induction false} PassFromAscending(sn: Snapshot, s: State, i: nat)
    requires Valid(sn, s) && i <= sn.n
    ensures AscendingFrom(PassFrom(sn, s, i).order, |s.order|, i)
    decreases sn.n - i
  {
    if i < sn.n {
      var s1 := Step(sn, s, i);
      PassFromAscending(sn, s1, i + 1);
      var q := PassFrom(sn, s1, i + 1).order;
      if |s1.order| > |s.order| {
        assert q[..|s1.order|] == s1.order;
        assert q[|s.order|] == s1.order[|s.order|];
        AscendingCons(q, |s.order|, i);
      }
    }
  }

  /** The order the simulation reports is a safe sequence, its final work
      vector is available plus what the completed processes hand back, and
      resources are conserved. */
  lemma SimulateSound(sn: Snapshot, available: seq<int>)
    requires WellFormed(sn) && |available| == sn.r
    ensures var o := Simulate(sn, available);
      && IsSafeSequence(sn, available, o.state.order)
      && o.state.work == WorkAfter(sn, available, o.state.order)
      && Conserved(sn, available, o.state)
  {
    InitTracks(sn, available);
    RunTracks(sn, available, Init(sn, available), -1);
  }

  /** The verdict: safe exactly when every process completed, in which case the
      order names each process exactly once; unsafe leaves some process
      unfinished and none of the unfinished ones coverable by the final work. */
  lemma SimulateVerdict(sn: Snapshot, available: seq<int>)
    requires WellFormed(sn) && |available| == sn.r
    ensures var o := Simulate(sn, available);
      && Distinct(o.state.order)
      && InRange(o.state.order, sn.n)
      && |o.state.safe| == sn.n
      && (forall i :: 0 <= i < sn.n ==> (o.state.safe[i] <==> i in o.state.order))
      && |o.state.order| == Count(o.state.safe)
      && (o.verdict == Safe <==> |o.state.order| == sn.n)
      && (o.verdict == Safe ==> Complete(o.state.order, sn.n))
      && (o.verdict == Unsafe ==> |o.state.order| < sn.n)
      && (o.verdict == Unsafe ==> forall i :: 0 <= i < sn.n && i !in o.state.order ==>
            !Covers(NeedRow(sn, i), WorkAfter(sn, available, o.state.order)))
  {
    var o := Simulate(sn, available);
    RunVerdict(sn, Init(sn, available), -1);
    SimulateSound(sn, available);
    if o.verdict == Safe {
      CountFull(o.state.safe);
    }
  }

  /** Maximality: with non-negative allocations, every process of any safe
      sequence is one the simulation completed. */
  lemma {:induction false} SimulateMaximal(sn: Snapshot, available: seq<int>, q: seq<int>)
    requires WellFormed(sn) && |available| == sn.r && NonNegative(sn.alloc)
    requires IsSafeSequence(sn, available, q)
    ensures Within(q, Simulate(sn, available).state.order)
    decreases |q|
  {
    var o := Simulate(sn, available);
    if q != [] {
      var q' := q[..|q| - 1];
      var x := q[|q| - 1];
      assert IsSafeSequence(sn, available, q') by {
        forall k | 0 <= k < |q'|
          ensures Covers(NeedRow(sn, q'[k]), WorkAfter(sn, available, q'[..k]))
        {
          assert q'[..k] == q[..k];
        }
      }
      SimulateMaximal(sn, available, q');
      if x !in o.state.order {
        SimulateSound(sn, available);
        SimulateVerdict(sn, available);
        forall j | 0 <= j < sn.r
          ensures WorkAfter(sn, available, q')[j] <= WorkAfter(sn, available, o.state.order)[j]
        {
          ReleasedSubset(sn, q', o.state.order, j);
        }
        assert q[..|q| - 1] == q';
        CoversMonotone(NeedRow(sn, x), WorkAfter(sn, available, q'),
                       WorkAfter(sn, available, o.state.order));
        assert false;
      }
      forall y | y in q
        ensures y in o.state.order
      {
        if y != x {
          var k :| 0 <= k < |q| && q[k] == y;
          assert q'[k] == y;
        }
      }
    }
  }

  /** With non-negative allocations, an unsafe verdict means no safe sequence
      names every process. */
  lemma UnsafeHasNoSafeSequence(sn: Snapshot, available: seq<int>, q: seq<int>)
    requires WellFormed(sn) && |available| == sn.r && NonNegative(sn.alloc)
    requires Simulate(sn, available).verdict == Unsafe
    requires IsSafeSequence(sn, available, q)
    ensures !Complete(q, sn.n)
  {
    var order := Simulate(sn, available).state.order;
    SimulateVerdict(sn, available);
    SimulateMaximal(sn, available, q);
    MissingIndex(order, sn.n);
  }

  /** A distinct sequence of fewer than n process indices misses one of them. */
  lemma {:induction false} MissingIndex(q: seq<int>, n: nat)
    requires InRange(q, n) && Distinct(q) && |q| < n
    ensures exists i :: 0 <= i < n && i !in q
    decreases n
  {
    if n - 1 in q {
      var p :| 0 <= p < |q| && q[p] == n - 1;
      var q' := q[..p] + q[p + 1..];
      RemoveAtKeeps(q, p);
      forall k | 0 <= k < |q'|
        ensures 0 <= q'[k] < n - 1
      {
        var k' := if k < p then k else k + 1;
        assert q'[k] == q[k'];
      }
      MissingIndex(q', n - 1);
      var i :| 0 <= i < n - 1 && i !in q';
      assert i in q ==> i in q';
    }
  }

  /** The verdict's characterisation: with non-negative allocations the
      verdict is safe exactly when some safe sequence names every process. */
  lemma SafeIffSafeSequenceExists(sn: Snapshot, available: seq<int>)
    requires WellFormed(sn) && |available| == sn.r && NonNegative(sn.alloc)
    ensures Simulate(sn, available).verdict == Safe
            <==> exists q :: IsSafeSequence(sn, available, q) && Complete(q, sn.n)
  {
    var o := Simulate(sn, available);
    SimulateSound(sn, available);
    SimulateVerdict(sn, available);
    if o.verdict == Unsafe {
      forall q | IsSafeSequence(sn, available, q)
        ensures !Complete(q, sn.n)
      {
        UnsafeHasNoSafeSequence(sn, available, q);
      }
    }
  }

  /** With non-negative allocations the work vector never decreases along the
      completion order. */
  lemma WorkNeverDecreases(sn: Snapshot, available: seq<int>, k1: nat, k2: nat)
    requires WellFormed(sn) && |available| == sn.r && NonNegative(sn.alloc)
    requires k1 <= k2 <= |Simulate(sn, available).state.order|
    ensures var order := Simulate(sn, available).state.order;
      && AtMost(available, WorkAfter(sn, available, order[..k1]))
      && AtMost(WorkAfter(sn, available, order[..k1]), WorkAfter(sn, available, order[..k2]))
  {
    var order := Simulate(sn, available).state.order;
    SimulateVerdict(sn, available);
    assert order[..k2][..k1] == order[..k1];
    WorkAfterPrefix(sn, available, order[..k2], k1);
  }
}
