/**
 Concrete runs of the safety check.
 */
module Scenarios {
  import opened Layout
  import opened Safety
  import opened Bankers

  const TextbookAlloc: seq<int> := [0, 1, 0,  2, 0, 0,  3, 0, 2,  2, 1, 1,  0, 0, 2]
  const TextbookMax: seq<int> := [7, 5, 3,  3, 2, 2,  9, 0, 2,  2, 2, 2,  4, 3, 3]
  const TextbookNeed: seq<int> := [7, 4, 3,  1, 2, 2,  6, 0, 0,  0, 1, 1,  4, 3, 1]

  function Textbook(): (sn: Snapshot)
    ensures WellFormed(sn)
  {
    Snapshot(5, 3, TextbookNeed, TextbookAlloc)
  }

  lemma TextbookNeeds()
    ensures NeedMatrix(TextbookMax, TextbookAlloc) == TextbookNeed
  {
  }

  lemma TextbookRows(sn: Snapshot)
    requires sn == Textbook()
    ensures NeedRow(sn, 0) == [7, 4, 3] && AllocRow(sn, 0) == [0, 1, 0]
    ensures NeedRow(sn, 1) == [1, 2, 2] && AllocRow(sn, 1) == [2, 0, 0]
    ensures NeedRow(sn, 2) == [6, 0, 0] && AllocRow(sn, 2) == [3, 0, 2]
    ensures NeedRow(sn, 3) == [0, 1, 1] && AllocRow(sn, 3) == [2, 1, 1]
    ensures NeedRow(sn, 4) == [4, 3, 1] && AllocRow(sn, 4) == [0, 0, 2]
  {
  }

  /** The states the textbook run passes through. Each visit below is its own
      lemma taking the validity of its start state as a premise (established by
      `TextbookStart` or the previous visit's ensures), so that every proof
      obligation stays small; the pass lemmas chain them. */
  const S0 := State([3, 3, 2], [false, false, false, false, false], [])
  const S1 := State([5, 3, 2], [false, true, false, false, false], [1])
  const S2 := State([7, 4, 3], [false, true, false, true, false], [1, 3])
  const S3 := State([7, 4, 5], [false, true, false, true, true], [1, 3, 4])
  const S4 := State([7, 5, 5], [true, true, false, true, true], [1, 3, 4, 0])
  const S5 := State([10, 5, 7], [true, true, true, true, true], [1, 3, 4, 0, 2])

  lemma TextbookStart()
    ensures Init(Textbook(), [3, 3, 2]) == S0
    ensures Valid(Textbook(), S0)
  {
  }

  /** P0 needs 7 units of resource 0 and only 3 are free. */
  lemma TextbookVisit0()
    requires Valid(Textbook(), S0)
    ensures Step(Textbook(), S0, 0) == S0
  {
    TextbookRows(Textbook());
    assert NeedRow(Textbook(), 0)[0] > S0.work[0];
  }

  lemma TextbookVisit1()
    requires Valid(Textbook(), S0)
    ensures Step(Textbook(), S0, 1) == S1
    ensures Valid(Textbook(), S1)
  {
    TextbookRows(Textbook());
    assert AddRow(S0.work, [2, 0, 0]) == S1.work;
  }

  /** P2 needs 6 units of resource 0 and only 5 are free. */
  lemma TextbookVisit2()
    requires Valid(Textbook(), S1)
    ensures Step(Textbook(), S1, 2) == S1
  {
    TextbookRows(Textbook());
    assert NeedRow(Textbook(), 2)[0] > S1.work[0];
  }

  lemma TextbookVisit3()
    requires Valid(Textbook(), S1)
    ensures Step(Textbook(), S1, 3) == S2
    ensures Valid(Textbook(), S2)
  {
    TextbookRows(Textbook());
    assert AddRow(S1.work, [2, 1, 1]) == S2.work;
  }

  lemma TextbookVisit4()
    requires Valid(Textbook(), S2)
    ensures Step(Textbook(), S2, 4) == S3
    ensures Valid(Textbook(), S3)
  {
    TextbookRows(Textbook());
    assert AddRow(S2.work, [0, 0, 2]) == S3.work;
  }

  lemma TextbookPass2Visit0()
    requires Valid(Textbook(), S3)
    ensures Step(Textbook(), S3, 0) == S4
    ensures Valid(Textbook(), S4)
  {
    TextbookRows(Textbook());
    assert AddRow(S3.work, [0, 1, 0]) == S4.work;
  }

  lemma TextbookPass2Visit2()
    requires Valid(Textbook(), S4)
    ensures Step(Textbook(), S4, 2) == S5
    ensures Valid(Textbook(), S5)
  {
    TextbookRows(Textbook());
    assert AddRow(S4.work, [3, 0, 2]) == S5.work;
  }

  /** Processes that already completed are skipped. */
  lemma TextbookVisitDone()
    requires Valid(Textbook(), S4) && Valid(Textbook(), S5)
    ensures Step(Textbook(), S4, 1) == S4
    ensures Step(Textbook(), S5, 3) == S5
    ensures Step(Textbook(), S5, 4) == S5
  {
  }

  /** First pass: P1 completes, then P3 and P4 on what P1 handed back. */
  lemma TextbookFirstPass()
    ensures Valid(Textbook(), S0) && Valid(Textbook(), S3)
    ensures Pass(Textbook(), S0) == S3
  {
    var sn := Textbook();
    TextbookStart();
    TextbookVisit0();
    TextbookVisit1();
    TextbookVisit2();
    TextbookVisit3();
    TextbookVisit4();
    assert PassFrom(sn, S0, 0) == PassFrom(sn, S0, 1);
    assert PassFrom(sn, S0, 1) == PassFrom(sn, S1, 2);
    assert PassFrom(sn, S1, 2) == PassFrom(sn, S1, 3);
    assert PassFrom(sn, S1, 3) == PassFrom(sn, S2, 4);
    assert PassFrom(sn, S2, 4) == PassFrom(sn, S3, 5);
  }

  /** Second pass: P0 and then P2 complete; the others are already done. */
  lemma TextbookSecondPass()
    requires Valid(Textbook(), S3)
    ensures Pass(Textbook(), S3) == S5
  {
    var sn := Textbook();
    TextbookPass2Visit0();
    TextbookPass2Visit2();
    TextbookVisitDone();
    assert PassFrom(sn, S3, 0) == PassFrom(sn, S4, 1);
    assert PassFrom(sn, S4, 1) == PassFrom(sn, S4, 2);
    assert PassFrom(sn, S4, 2) == PassFrom(sn, S5, 3);
    assert PassFrom(sn, S5, 3) == PassFrom(sn, S5, 4);
    assert PassFrom(sn, S5, 4) == PassFrom(sn, S5, 5);
  }

  /** The textbook instance is safe with order P1, P3, P4, P0, P2. */
  lemma TextbookIsSafe()
    ensures Simulate(Textbook(), [3, 3, 2]).state.order == [1, 3, 4, 0, 2]
    ensures Simulate(Textbook(), [3, 3, 2]).verdict == Safe
  {
    var sn := Textbook();
    TextbookStart();
    TextbookFirstPass();
    TextbookSecondPass();
    assert Run(sn, S0, -1) == Run(sn, S3, 0);
    assert Run(sn, S3, 0) == Run(sn, S5, 3);
  }

  /** With nothing available every process is short of something, so the first
      pass completes nothing and the verdict is unsafe with an empty order. */
  lemma TextbookStarvedIsUnsafe()
    ensures Simulate(Textbook(), [0, 0, 0]).state.order == []
    ensures Simulate(Textbook(), [0, 0, 0]).verdict == Unsafe
  {
    var sn := Textbook();
    var z := Init(sn, [0, 0, 0]);
    TextbookRows(sn);
    forall i | 0 <= i < 5
      ensures Step(sn, z, i) == z
    {
      assert NeedRow(sn, i)[1] > 0 || NeedRow(sn, i)[2] > 0 || NeedRow(sn, i)[0] > 0;
    }
    assert PassFrom(sn, z, 0) == PassFrom(sn, z, 1) == PassFrom(sn, z, 2);
    assert PassFrom(sn, z, 2) == PassFrom(sn, z, 3) == PassFrom(sn, z, 4);
    assert PassFrom(sn, z, 4) == PassFrom(sn, z, 5) == z;
    assert Run(sn, z, -1) == Run(sn, z, 0);
  }

  /** A single process whose need is zero completes at once, even with nothing
      available. */
  lemma SingleProcessIsSafe()
    ensures NeedMatrix([2], [2]) == [0]
    ensures Simulate(Snapshot(1, 1, [0], [2]), [0]).state.order == [0]
    ensures Simulate(Snapshot(1, 1, [0], [2]), [0]).verdict == Safe
  {
    var sn := Snapshot(1, 1, [0], [2]);
    var s0 := Init(sn, [0]);
    var s1 := State([2], [true], [0]);
    assert NeedRow(sn, 0) == [0] && AllocRow(sn, 0) == [2];
    assert AddRow([0], [2]) == [2];
    assert Step(sn, s0, 0) == s1;
    assert Pass(sn, s0) == s1;
  }

  /** A 2x2 snapshot in which process 1 holds 3 units of resource 0 but
      declares a maximum of 2: need derivation rejects it at cell 2, and the
      safety loop never runs. */
  method MalformedSnapshotRejected() returns (res: CheckResult)
    ensures res == InvalidSnapshot(2)
  {
    var alloc, maxM := [1, 0, 3, 1], [2, 2, 2, 2];
    assert maxM[2] < alloc[2];
    res := CheckSnapshot(2, 2, alloc, maxM, [1, 1]);
    assert forall c :: 0 <= c < 4 && maxM[c] < alloc[c] ==> c == 2;
  }
}
