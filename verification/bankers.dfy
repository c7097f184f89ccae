/**
 The routines of bankers.c that make up the safety check, written the way the
 program runs them: flat integer buffers, a need loop that aborts on the first
 negative cell, and the `while(1)` pass loop of `getOrderMatrix`. Instead of
 printing, the loop returns the order prefix, the completed count and the
 verdict. Each routine is tied to the reference definitions of `Safety` and
 the guarantees of `SafetyProofs`.
 */
module Bankers {
  import opened Layout
  import opened Safety
  import opened Ledger
  import opened SafetyProofs

  /** How need derivation ends: the need matrix, or the first cell whose
      allocation exceeds the declared maximum (where the program exits). */
  datatype NeedsResult = Needs(need: seq<int>) | AllocExceedsMax(cell: nat)

  /** What the safety loop reports in place of its messages. */
  datatype Report = Report(order: seq<int>, completed: nat, verdict: Verdict)

  /** The whole run after the input has been read. */
  datatype CheckResult = InvalidSnapshot(cell: nat) | Checked(report: Report)

  /** No cell allocates more than the declared maximum. */
  predicate AllocWithinMax(maxM: seq<int>, alloc: seq<int>)
    requires |maxM| == |alloc|
  {
    forall k :: 0 <= k < |alloc| ==> alloc[k] <= maxM[k]
  }

  /** The need matrix, cell by cell. */
  function NeedMatrix(maxM: seq<int>, alloc: seq<int>): (need: seq<int>)
    requires |maxM| == |alloc|
    ensures |need| == |alloc|
  {
    seq(|alloc|, k requires 0 <= k < |alloc| => maxM[k] - alloc[k])
  }

  /** Need derivation: every cell is max minus allocation; the first cell where
      that is negative aborts the run. */
  method GetNeeds(n: nat, r: nat, maxM: seq<int>, alloc: seq<int>) returns (res: NeedsResult)
    requires |maxM| == n * r && |alloc| == n * r
    ensures res.Needs? <==> AllocWithinMax(maxM, alloc)
    ensures res.Needs? ==> |res.need| == n * r && NonNegative(res.need)
    ensures res.Needs? ==> forall k :: 0 <= k < n * r ==> res.need[k] == maxM[k] - alloc[k]
    ensures res.AllocExceedsMax? ==>
      && res.cell < n * r
      && maxM[res.cell] < alloc[res.cell]
      && forall k :: 0 <= k < res.cell ==> alloc[k] <= maxM[k]
  {
    var size := n * r;
    var need := seq(size, k => 0);
    var i := 0;
    while i < size
      invariant 0 <= i <= size && |need| == size
      invariant forall k :: 0 <= k < i ==> need[k] == maxM[k] - alloc[k] && 0 <= need[k]
    {
      need := need[i := maxM[i] - alloc[i]];
      if need[i] < 0 {
        return AllocExceedsMax(i);
      }
      i := i + 1;
    }
    return Needs(need);
  }

  /** A freshly allocated per-process buffer: every flag clear, every order slot
      zero. */
  function InitProcessMatrix(n: nat): (m: seq<int>)
    ensures |m| == n
    ensures forall i :: 0 <= i < n ==> m[i] == 0
  {
    seq(n, i => 0)
  }

  /** The work vector starts as a copy of the first `size` cells of `available`. */
  method InitWork(available: seq<int>, size: nat) returns (work: seq<int>)
    requires size <= |available|
    ensures |work| == size
    ensures forall i :: 0 <= i < size ==> work[i] == available[i]
  {
    work := seq(size, i => 0);
    var i := 0;
    while i < size
      invariant 0 <= i <= size && |work| == size
      invariant forall k :: 0 <= k < i ==> work[k] == available[k]
    {
      work := work[i := available[i]];
      i := i + 1;
    }
  }

  /** The program's buffers agree with the reference state: same work vector,
      a nonzero flag exactly for completed processes, and the first `completed`
      order slots holding the completion order. */
  ghost predicate Mirrors(sn: Snapshot, st: State, work: seq<int>, safe: seq<int>,
                          order: seq<int>, completed: int)
    requires Valid(sn, st)
  {
    && work == st.work
    && |safe| == sn.n
    && (forall x :: 0 <= x < sn.n ==> (safe[x] != 0 <==> st.safe[x]))
    && |order| == sn.n
    && completed == |st.order|
    && order[..completed] == st.order
  }

  /** The inner resource loop: process i's need is met exactly when the work
      vector covers every cell of its need row. */
  method MeetsNeeds(sn: Snapshot, i: nat, work: seq<int>) returns (meetsNeeds: bool)
    requires WellFormed(sn) && i < sn.n && |work| == sn.r
    ensures meetsNeeds <==> Covers(NeedRow(sn, i), work)
  {
    var r := sn.r;
    RowFits(sn.n, r, i);
    meetsNeeds := true;
    var j := 0;
    while j < r
      invariant 0 <= j <= r
      invariant meetsNeeds <==> forall j' :: 0 <= j' < j ==> sn.need[i * r + j'] <= work[j']
    {
      var k := i * r + j;
      if sn.need[k] > work[j] {
        meetsNeeds := false;
      }
      j := j + 1;
    }
  }

  /** A completed process hands its allocation row back: every work cell grows
      by exactly that process's allocation of the resource. */
  method ReleaseAllocation(sn: Snapshot, i: nat, work: seq<int>) returns (work': seq<int>)
    requires WellFormed(sn) && i < sn.n && |work| == sn.r
    ensures work' == AddRow(work, AllocRow(sn, i))
  {
    var r := sn.r;
    var row := AllocRow(sn, i);
    var base := i * r;
    work' := work;
    var j := 0;
    while j < r
      invariant 0 <= j <= r && |work'| == r
      invariant forall j' :: 0 <= j' < j ==> work'[j'] == work[j'] + row[j']
      invariant forall j' :: j <= j' < r ==> work'[j'] == work[j']
    {
      var k := base + j;
      assert sn.alloc[k] == row[j];
      work' := work'[j := work'[j] + sn.alloc[k]];
      j := j + 1;
    }
  }

  /** The visit of process i within a pass, on the program's buffers: it does
      what the reference `Step` does. A process completes only if it had not
      completed and its need was covered at that moment; then its id goes into
      order slot `completed`, the count rises by one and its allocation is
      folded into work. */
  method VisitProcess(sn: Snapshot, ghost st: State, i: nat, work: seq<int>, safe: seq<int>,
                      order: seq<int>, completed: int)
    returns (work': seq<int>, safe': seq<int>, order': seq<int>, completed': int)
    requires Valid(sn, st) && i < sn.n
    requires Mirrors(sn, st, work, safe, order, completed)
    ensures Mirrors(sn, Step(sn, st, i), work', safe', order', completed')
    ensures completed' == completed + 1 <==> CanComplete(sn, st, i)
    ensures completed' == completed + 1 ==> order'[completed] == i && safe'[i] != 0
  {
    work', safe', order', completed' := work, safe, order, completed;
    if safe[i] == 0 {
      var meetsNeeds := MeetsNeeds(sn, i, work);
      if meetsNeeds {
        CountSet(st.safe, i);
        safe' := safe[i := 1];
        order' := order[completed := i];
        completed' := completed + 1;
        work' := ReleaseAllocation(sn, i, work);
        assert order'[..completed'] == st.order + [i];
      }
    }
  }

  /** One pass of the `for` loop over all processes, in ascending index order. */
  method ScanPass(sn: Snapshot, ghost st: State, work: seq<int>, safe: seq<int>,
                  order: seq<int>, completed: int)
    returns (work': seq<int>, safe': seq<int>, order': seq<int>, completed': int)
    requires Valid(sn, st)
    requires Mirrors(sn, st, work, safe, order, completed)
    ensures Mirrors(sn, Pass(sn, st), work', safe', order', completed')
    ensures completed <= completed'
  {
    work', safe', order', completed' := work, safe, order, completed;
    ghost var cur := st;
    var i := 0;
    while i < sn.n
      invariant 0 <= i <= sn.n
      invariant Valid(sn, cur)
      invariant Mirrors(sn, cur, work', safe', order', completed')
      invariant PassFrom(sn, cur, i) == Pass(sn, st)
    {
      work', safe', order', completed' := VisitProcess(sn, cur, i, work', safe', order', completed');
      cur := Step(sn, cur, i);
      i := i + 1;
    }
  }

  /** The safety loop. The result is the reference outcome, and so: the order
      is a safe sequence of distinct processes, the verdict is safe exactly when
      every process completed (and then every process appears), and an unsafe
      verdict leaves no unfinished process whose need the final work covers. */
  method GetOrder(sn: Snapshot, work0: seq<int>) returns (report: Report)
    requires WellFormed(sn) && |work0| == sn.r
    ensures report.order == Simulate(sn, work0).state.order
    ensures report.verdict == Simulate(sn, work0).verdict
    ensures report.completed == |report.order| <= sn.n
    ensures IsSafeSequence(sn, work0, report.order)
    ensures report.verdict == Safe <==> report.completed == sn.n
    ensures report.verdict == Safe ==> Complete(report.order, sn.n)
    ensures report.verdict == Unsafe ==> forall i :: 0 <= i < sn.n && i !in report.order ==>
              !Covers(NeedRow(sn, i), WorkAfter(sn, work0, report.order))
  {
    var work := work0;
    var safe := InitProcessMatrix(sn.n);
    var order := InitProcessMatrix(sn.n);
    var processesCompleted := 0;
    var lastCompleted := -1;
    ghost var st := Init(sn, work0);
    var verdict: Verdict;
    while true
      invariant Valid(sn, st)
      invariant Mirrors(sn, st, work, safe, order, processesCompleted)
      invariant Run(sn, st, lastCompleted) == Simulate(sn, work0)
      decreases sn.n - processesCompleted, if processesCompleted == lastCompleted then 0 else 1
    {
      if processesCompleted == sn.n {
        verdict := Safe;
        break;
      }
      if processesCompleted == lastCompleted {
        verdict := Unsafe;
        break;
      }
      lastCompleted := processesCompleted;
      work, safe, order, processesCompleted := ScanPass(sn, st, work, safe, order, processesCompleted);
      st := Pass(sn, st);
    }
    report := Report(order[..processesCompleted], processesCompleted, verdict);
    SimulateVerdict(sn, work0);
    SimulateSound(sn, work0);
  }

  /** The run of `main` once the input is read: derive needs (aborting on an
      allocation above its maximum), copy the available vector into work, and
      run the safety loop. With non-negative allocations the verdict is safe
      exactly when some safe sequence finishes every process. */
  method CheckSnapshot(n: nat, r: nat, alloc: seq<int>, maxM: seq<int>, available: seq<int>)
    returns (res: CheckResult)
    requires |alloc| == n * r && |maxM| == n * r && |available| == r
    ensures res.InvalidSnapshot? <==> !AllocWithinMax(maxM, alloc)
    ensures res.InvalidSnapshot? ==> res.cell < n * r && maxM[res.cell] < alloc[res.cell]
    ensures res.Checked? ==>
      var sn := Snapshot(n, r, NeedMatrix(maxM, alloc), alloc);
      && res.report.order == Simulate(sn, available).state.order
      && res.report.verdict == Simulate(sn, available).verdict
      && res.report.completed == |res.report.order| <= n
      && IsSafeSequence(sn, available, res.report.order)
      && (NonNegative(alloc) ==>
            (res.report.verdict == Safe <==>
               exists q :: IsSafeSequence(sn, available, q) && Complete(q, n)))
  {
    var needs := GetNeeds(n, r, maxM, alloc);
    if needs.AllocExceedsMax? {
      return InvalidSnapshot(needs.cell);
    }
    var sn := Snapshot(n, r, needs.need, alloc);
    assert needs.need == NeedMatrix(maxM, alloc);
    var work := InitWork(available, r);
    assert work == available;
    var report := GetOrder(sn, work);
    if NonNegative(alloc) {
      SafeIffSafeSequenceExists(sn, available);
    }
    return Checked(report);
  }
}
