/**
 The safety simulation of bankers.c as a pure reference definition.

 `Run` follows the `while(1)` loop of `getOrderMatrix` step by step: it stops as
 safe once every process has completed, stops as unsafe after a pass that
 completed nothing, and otherwise runs one more pass. A pass (`PassFrom`) visits
 the processes in ascending index order and folds the allocation of each
 process it completes into the work vector at once, so later processes of the
 same pass see those resources.
 */
module Safety {
  import opened Layout

  datatype Verdict = Safe | Unsafe

  /** The simulation's mutable data: the work vector, one completion flag per
      process, and the completion order found so far (its length is the number
      of completed processes). */
  datatype State = State(work: seq<int>, safe: seq<bool>, order: seq<int>)

  datatype Outcome = Outcome(state: State, verdict: Verdict)

  /** Number of set flags. */
  function Count(flags: seq<bool>): (c: nat)
    ensures c <= |flags|
  {
    if flags == [] then 0 else (if flags[0] then 1 else 0) + Count(flags[1..])
  }

  lemma {:induction false} CountNone(flags: seq<bool>)
    requires forall i :: 0 <= i < |flags| ==> !flags[i]
    ensures Count(flags) == 0
  {
    if flags != [] {
      CountNone(flags[1..]);
    }
  }

  /** Setting one clear flag raises the count by exactly one. */
  lemma {:induction false} CountSet(flags: seq<bool>, i: nat)
    requires i < |flags| && !flags[i]
    ensures Count(flags[i := true]) == Count(flags) + 1
  {
    if i == 0 {
      assert flags[i := true][1..] == flags[1..];
    } else {
      assert flags[i := true][1..] == flags[1..][i - 1 := true];
      CountSet(flags[1..], i - 1);
    }
  }

  /** When every flag is counted, every flag is set. */
  lemma {:induction false} CountFull(flags: seq<bool>)
    requires Count(flags) == |flags|
    ensures forall i :: 0 <= i < |flags| ==> flags[i]
  {
    if flags != [] {
      CountFull(flags[1..]);
      assert forall i :: 1 <= i < |flags| ==> flags[i] == flags[1..][i - 1];
    }
  }

  /** The bookkeeping that every reachable state keeps: the order holds
      distinct process indices, exactly the processes whose flag is set, and so
      its length is the number of set flags. */
  ghost predicate Valid(sn: Snapshot, s: State) {
    && WellFormed(sn)
    && |s.work| == sn.r
    && |s.safe| == sn.n
    && InRange(s.order, sn.n)
    && Distinct(s.order)
    && (forall i :: 0 <= i < sn.n ==> (s.safe[i] <==> i in s.order))
    && |s.order| == Count(s.safe)
  }

  /** The state at the start of the loop: work is the available vector, no
      process is flagged and the order is empty. */
  function Init(sn: Snapshot, available: seq<int>): (s: State)
    requires WellFormed(sn) && |available| == sn.r
    ensures Valid(sn, s)
  {
    var none := seq(sn.n, i => false);
    CountNone(none);
    State(available, none, [])
  }

  /** Process i can complete when it has not completed yet and the current work
      vector covers its need. */
  predicate CanComplete(sn: Snapshot, s: State, i: nat)
    requires Valid(sn, s) && i < sn.n
  {
    !s.safe[i] && Covers(NeedRow(sn, i), s.work)
  }

  /** The visit of process i within a pass. */
  function Step(sn: Snapshot, s: State, i: nat): (s': State)
    requires Valid(sn, s) && i < sn.n
    ensures Valid(sn, s')
  {
    if CanComplete(sn, s, i) then
      CountSet(s.safe, i);
      State(AddRow(s.work, AllocRow(sn, i)), s.safe[i := true], s.order + [i])
    else
      s
  }

  /** The rest of a pass, from process i up to the last process. */
  function PassFrom(sn: Snapshot, s: State, i: nat): (s': State)
    requires Valid(sn, s) && i <= sn.n
    ensures Valid(sn, s')
    ensures |s.order| <= |s'.order|
    ensures s'.order[..|s.order|] == s.order
    decreases sn.n - i
  {
    if i == sn.n then s else PassFrom(sn, Step(sn, s, i), i + 1)
  }

  function Pass(sn: Snapshot, s: State): State
    requires Valid(sn, s)
  {
    PassFrom(sn, s, 0)
  }

  /** The main loop; `last` is the completed count before the previous pass
      (-1 before the first pass). */
  function Run(sn: Snapshot, s: State, last: int): (o: Outcome)
    requires Valid(sn, s)
    ensures Valid(sn, o.state)
    ensures |s.order| <= |o.state.order|
    decreases sn.n - |s.order|, if |s.order| == last then 0 else 1
  {
    if |s.order| == sn.n then Outcome(s, Safe)
    else if |s.order| == last then Outcome(s, Unsafe)
    else Run(sn, Pass(sn, s), |s.order|)
  }

  /** The whole safety check on a snapshot and an available vector. */
  function Simulate(sn: Snapshot, available: seq<int>): Outcome
    requires WellFormed(sn) && |available| == sn.r
  {
    Run(sn, Init(sn, available), -1)
  }
}
