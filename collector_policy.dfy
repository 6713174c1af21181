/** The Shenandoah collector policy: the counters it keeps for every cycle
    outcome, its cycle counter and shutdown flag, its statistics report, its
    metadata-allocation retry sequence and its alignment setup. */
module CollectorPolicy {
  import opened Wrappers
  import opened PolicyState
  import opened StatsReport
  import opened MetadataRetry

  /** The alignment of heap and space: the region size, raised to the large
      page size when large pages are in use. */
  function Alignment(regionSizeBytes: nat, useLargePages: bool, largePageSize: nat): (a: nat)
    ensures a >= regionSizeBytes
    ensures useLargePages ==> a >= largePageSize && (a == regionSizeBytes || a == largePageSize)
    ensures !useLargePages ==> a == regionSizeBytes
  {
    if useLargePages && largePageSize > regionSizeBytes then largePageSize else regionSizeBytes
  }

  class ShenandoahCollectorPolicy {
    var successConcurrentGcs: nat
    var successDegeneratedGcs: nat
    var successFullGcs: nat
    var allocFailureDegenerated: nat
    var allocFailureFull: nat
    var allocFailureDegeneratedUpgradeToFull: nat
    var explicitConcurrent: nat
    var explicitFull: nat
    var implicitConcurrent: nat
    var implicitFull: nat
    var cycleCounter: nat
    /** One slot per degeneration point; its length is the number of points. */
    var degenPoints: array<nat>
    var inShutdown: bool
    var spaceAlignment: nat
    var heapAlignment: nat

    /** All the statistics, as a value. */
    ghost function Snapshot(): Stats
      reads this, degenPoints
    {
      Stats(successConcurrentGcs, successDegeneratedGcs, successFullGcs,
            allocFailureDegenerated, allocFailureFull, allocFailureDegeneratedUpgradeToFull,
            explicitConcurrent, explicitFull, implicitConcurrent, implicitFull,
            cycleCounter, degenPoints[..], inShutdown)
    }

    /** The object invariant: there is at least one degeneration point, and the
        per-point table sums to the aggregate degeneration counter. */
    ghost predicate Valid()
      reads this, degenPoints
    {
      degenPoints.Length > 0 && TableMatches(Snapshot())
    }

    /** Every counter, the cycle counter and every slot of the table start at
        zero, and the shutdown flag starts clear. */
    constructor (degeneratedLimit: nat)
      requires degeneratedLimit > 0
      ensures Valid() && fresh(degenPoints)
      ensures Snapshot() == Initial(degeneratedLimit)
    {
      successConcurrentGcs, successDegeneratedGcs, successFullGcs := 0, 0, 0;
      allocFailureDegenerated, allocFailureFull, allocFailureDegeneratedUpgradeToFull := 0, 0, 0;
      explicitConcurrent, explicitFull, implicitConcurrent, implicitFull := 0, 0, 0, 0;
      cycleCounter := 0;
      degenPoints := new nat[degeneratedLimit](_ => 0);
      inShutdown := false;
      spaceAlignment, heapAlignment := 0, 0;
      new;
      assert degenPoints[..] == Initial(degeneratedLimit).degenPoints;
    }

    method RecordExplicitToConcurrent()
      requires Valid()
      modifies this`explicitConcurrent
      ensures Valid() && Snapshot() == Step(old(Snapshot()), ExplicitToConcurrent)
    {
      explicitConcurrent := explicitConcurrent + 1;
    }

    method RecordExplicitToFull()
      requires Valid()
      modifies this`explicitFull
      ensures Valid() && Snapshot() == Step(old(Snapshot()), ExplicitToFull)
    {
      explicitFull := explicitFull + 1;
    }

    method RecordImplicitToConcurrent()
      requires Valid()
      modifies this`implicitConcurrent
      ensures Valid() && Snapshot() == Step(old(Snapshot()), ImplicitToConcurrent)
    {
      implicitConcurrent := implicitConcurrent + 1;
    }

    method RecordImplicitToFull()
      requires Valid()
      modifies this`implicitFull
      ensures Valid() && Snapshot() == Step(old(Snapshot()), ImplicitToFull)
    {
      implicitFull := implicitFull + 1;
    }

    method RecordAllocFailureToFull()
      requires Valid()
      modifies this`allocFailureFull
      ensures Valid() && Snapshot() == Step(old(Snapshot()), AllocFailureToFull)
    {
      allocFailureFull := allocFailureFull + 1;
    }

    /** Bumps the aggregate degeneration counter and the slot of `point`, which
        must name one of the degeneration points. */
    method RecordAllocFailureToDegenerated(point: nat)
      requires Valid() && point < degenPoints.Length
      modifies this`allocFailureDegenerated, degenPoints
      ensures Valid() && Snapshot() == Step(old(Snapshot()), AllocFailureToDegenerated(point))
      ensures allocFailureDegenerated == old(allocFailureDegenerated) + 1
      ensures degenPoints[point] == old(degenPoints[point]) + 1
      ensures forall p :: 0 <= p < degenPoints.Length && p != point ==>
        degenPoints[p] == old(degenPoints[p])
    {
      ghost var before := Snapshot();
      allocFailureDegenerated := allocFailureDegenerated + 1;
      degenPoints[point] := degenPoints[point] + 1;
      StepKeepsTableMatching(before, AllocFailureToDegenerated(point));
    }

    method RecordDegeneratedUpgradeToFull()
      requires Valid()
      modifies this`allocFailureDegeneratedUpgradeToFull
      ensures Valid() && Snapshot() == Step(old(Snapshot()), DegeneratedUpgradeToFull)
    {
      allocFailureDegeneratedUpgradeToFull := allocFailureDegeneratedUpgradeToFull + 1;
    }

    method RecordSuccessConcurrent()
      requires Valid()
      modifies this`successConcurrentGcs
      ensures Valid() && Snapshot() == Step(old(Snapshot()), SuccessConcurrent)
    {
      successConcurrentGcs := successConcurrentGcs + 1;
    }

    method RecordSuccessDegenerated()
      requires Valid()
      modifies this`successDegeneratedGcs
      ensures Valid() && Snapshot() == Step(old(Snapshot()), SuccessDegenerated)
    {
      successDegeneratedGcs := successDegeneratedGcs + 1;
    }

    method RecordSuccessFull()
      requires Valid()
      modifies this`successFullGcs
      ensures Valid() && Snapshot() == Step(old(Snapshot()), SuccessFull)
    {
      successFullGcs := successFullGcs + 1;
    }

    /** The current cycle stamp: the cycle counter of the statistics. */
    function CycleCounter(): (n: nat)
      reads this, degenPoints
      ensures n == Snapshot().cycleCounter
    {
      cycleCounter
    }

    method RecordCycleStart()
      requires Valid()
      modifies this`cycleCounter
      ensures Valid() && Snapshot() == Step(old(Snapshot()), CycleStart)
      ensures CycleCounter() == old(CycleCounter()) + 1
    {
      cycleCounter := cycleCounter + 1;
    }

    method RecordShutdown()
      requires Valid()
      modifies this`inShutdown
      ensures Valid() && Snapshot() == Step(old(Snapshot()), Shutdown)
      ensures IsAtShutdown()
    {
      inShutdown := true;
    }

    /** Whether a shutdown has been recorded in the statistics. */
    function IsAtShutdown(): (b: bool)
      reads this, degenPoints
      ensures b == Snapshot().inShutdown
    {
      inShutdown
    }

    /** One recording call, whichever it is. */
    method Record(op: Op)
      requires Valid() && Fits(op, degenPoints.Length)
      modifies this`successConcurrentGcs, this`successDegeneratedGcs, this`successFullGcs,
               this`allocFailureDegenerated, this`allocFailureFull,
               this`allocFailureDegeneratedUpgradeToFull,
               this`explicitConcurrent, this`explicitFull,
               this`implicitConcurrent, this`implicitFull,
               this`cycleCounter, this`inShutdown, degenPoints
      ensures degenPoints == old(degenPoints)
      ensures Valid() && Snapshot() == Step(old(Snapshot()), op)
    {
      match op
      case ExplicitToConcurrent => RecordExplicitToConcurrent();
      case ExplicitToFull => RecordExplicitToFull();
      case ImplicitToConcurrent => RecordImplicitToConcurrent();
      case ImplicitToFull => RecordImplicitToFull();
      case AllocFailureToFull => RecordAllocFailureToFull();
      case AllocFailureToDegenerated(p) => RecordAllocFailureToDegenerated(p);
      case DegeneratedUpgradeToFull => RecordDegeneratedUpgradeToFull();
      case SuccessConcurrent => RecordSuccessConcurrent();
      case SuccessDegenerated => RecordSuccessDegenerated();
      case SuccessFull => RecordSuccessFull();
      case CycleStart => RecordCycleStart();
      case Shutdown => RecordShutdown();
    }

    /** The recording calls `ops`, in order. */
    method RecordAll(ops: seq<Op>)
      requires Valid() && AllFit(ops, degenPoints.Length)
      modifies this`successConcurrentGcs, this`successDegeneratedGcs, this`successFullGcs,
               this`allocFailureDegenerated, this`allocFailureFull,
               this`allocFailureDegeneratedUpgradeToFull,
               this`explicitConcurrent, this`explicitFull,
               this`implicitConcurrent, this`implicitFull,
               this`cycleCounter, this`inShutdown, degenPoints
      ensures degenPoints == old(degenPoints)
      ensures Valid() && Snapshot() == Run(old(Snapshot()), ops)
    {
      var i := 0;
      while i < |ops|
        invariant i <= |ops| && degenPoints == old(degenPoints) && Valid()
        invariant AllFit(ops[i..], degenPoints.Length)
        invariant Run(Snapshot(), ops[i..]) == Run(old(Snapshot()), ops)
      {
        assert ops[i..][0] == ops[i] && ops[i..][1..] == ops[i + 1..];
        Record(ops[i]);
        i := i + 1;
      }
      assert ops[i..] == [];
    }

    /** The rows of the statistics report. Changes nothing. */
    method PrintGcStats() returns (lines: seq<Line>)
      ensures lines == Report(Snapshot())
    {
      var degen: seq<Line> := [];
      var c := 0;
      while c < degenPoints.Length
        invariant c <= degenPoints.Length
        invariant degen == DegenLines(degenPoints[..c])
      {
        assert degenPoints[..c + 1][..c] == degenPoints[..c];
        if degenPoints[c] > 0 {
          degen := degen + [AtPoint(c, degenPoints[c])];
        }
        c := c + 1;
      }
      assert degenPoints[..c] == degenPoints[..];
      lines :=
        [ Counter(SuccessfulConcurrent, successConcurrentGcs),
          Counter(ConcurrentInvokedExplicitly, explicitConcurrent),
          Counter(ConcurrentInvokedImplicitly, implicitConcurrent),
          Counter(DegeneratedGcs, successDegeneratedGcs),
          Counter(DegeneratedByAllocFailure, allocFailureDegenerated) ]
        + degen
        + [ Counter(DegeneratedUpgradedToFull, allocFailureDegeneratedUpgradeToFull),
            Counter(FullGcs, successFullGcs + allocFailureDegeneratedUpgradeToFull),
            Counter(FullInvokedExplicitly, explicitFull),
            Counter(FullInvokedImplicitly, implicitFull),
            Counter(FullByAllocFailure, allocFailureFull),
            Counter(FullUpgradedFromDegenerated, allocFailureDegeneratedUpgradeToFull) ];
    }

    /** Tries to satisfy a failed metadata allocation of `size` words: tells
        the heuristics about the metaspace OOM when class unloading is
        possible, then walks the escalation order and stops at the first
        attempt that yields a block. The full collection it requests records
        its own start and outcome on this policy before it returns. */
    method SatisfyFailedMetadataAllocation(size: nat, mdtype: MetadataType, answers: Answers)
      returns (result: Option<MetaWord>, calls: seq<Call>)
      requires Valid() && AllFit(answers.gcRecords, degenPoints.Length)
      modifies this`successConcurrentGcs, this`successDegeneratedGcs, this`successFullGcs,
               this`allocFailureDegenerated, this`allocFailureFull,
               this`allocFailureDegeneratedUpgradeToFull,
               this`explicitConcurrent, this`explicitFull,
               this`implicitConcurrent, this`implicitFull,
               this`cycleCounter, this`inShutdown, degenPoints
      ensures degenPoints == old(degenPoints)
      ensures Valid() && Snapshot() ==
        Run(old(Snapshot()), if answers.firstExpand.None? then answers.gcRecords else [])
      ensures result == FirstSuccess([answers.firstExpand, answers.allocateAfterGc, answers.expandAfterGc])
      ensures result.None? <==>
        answers.firstExpand.None? && answers.allocateAfterGc.None? && answers.expandAfterGc.None?
      ensures calls == (if answers.canUnloadClasses then [RecordMetaspaceOom] else [])
                       + Escalation(size, mdtype)[..StepsRun(answers)]
      ensures Collect(MetadataGcClearSoftRefs) in calls <==> answers.firstExpand.None?
    {
      FirstOfThree(answers.firstExpand, answers.allocateAfterGc, answers.expandAfterGc);
      calls := [];
      if answers.canUnloadClasses {
        calls := calls + [RecordMetaspaceOom];
      }

      calls := calls + [ExpandAndAllocate(size, mdtype)];
      result := answers.firstExpand;
      if result.Some? {
        return;
      }

      calls := calls + [Collect(MetadataGcClearSoftRefs)];
      RecordAll(answers.gcRecords);

      calls := calls + [Allocate(size, mdtype)];
      result := answers.allocateAfterGc;
      if result.Some? {
        return;
      }

      calls := calls + [ExpandAndAllocate(size, mdtype)];
      result := answers.expandAfterGc;
      if result.Some? {
        return;
      }

      result := None;
    }

    /** Sets both the space and the heap alignment to the same value. */
    method InitializeAlignments(regionSizeBytes: nat, useLargePages: bool, largePageSize: nat)
      requires Valid()
      modifies this`spaceAlignment, this`heapAlignment
      ensures Valid() && Snapshot() == old(Snapshot())
      ensures spaceAlignment == heapAlignment == Alignment(regionSizeBytes, useLargePages, largePageSize)
    {
      var align := regionSizeBytes;
      if useLargePages {
        align := if align >= largePageSize then align else largePageSize;
      }
      spaceAlignment := align;
      heapAlignment := align;
    }
  }

  /** A client of the policy: a cycle requested explicitly degenerates at
      `point` under allocation failure and completes degenerated; later the
      degenerated cycle is upgraded to full. The first report shows one
      degenerated cycle caused by allocation failure at `point` only; the
      second counts one full cycle although no full cycle succeeded. */
  method DegeneratedThenUpgraded(degeneratedLimit: nat, point: nat)
    returns (first: seq<Line>, second: seq<Line>)
    requires point < degeneratedLimit
    ensures Lookup(first, SuccessfulConcurrent) == Some(0)
    ensures Lookup(first, ConcurrentInvokedExplicitly) == Some(1)
    ensures Lookup(first, DegeneratedGcs) == Some(1)
    ensures Lookup(first, DegeneratedByAllocFailure) == Some(1)
    ensures Breakdown(first) == [AtPoint(point, 1)]
    ensures Lookup(first, FullGcs) == Some(0)
    ensures Lookup(second, FullGcs) == Some(1)
    ensures Lookup(second, DegeneratedUpgradedToFull) == Some(1)
  {
    var policy := new ShenandoahCollectorPolicy(degeneratedLimit);
    ghost var s0 := policy.Snapshot();
    policy.RecordCycleStart();
    policy.RecordExplicitToConcurrent();
    policy.RecordAllocFailureToDegenerated(point);
    policy.RecordSuccessDegenerated();
    first := policy.PrintGcStats();
    ghost var s1 := policy.Snapshot();
    policy.RecordDegeneratedUpgradeToFull();
    second := policy.PrintGcStats();
    ghost var s2 := policy.Snapshot();
    DegeneratedThenUpgradedStats(s0, s1, s2, point);
  }

  /** The statistics behind the reports of `DegeneratedThenUpgraded`. */
  lemma DegeneratedThenUpgradedStats(s0: Stats, s1: Stats, s2: Stats, point: nat)
    requires s0 == Initial(|s0.degenPoints|) && point < |s0.degenPoints|
    requires s1 == Step(Step(Step(Step(s0, CycleStart), ExplicitToConcurrent),
                              AllocFailureToDegenerated(point)), SuccessDegenerated)
    requires s2 == Step(s1, DegeneratedUpgradeToFull)
    ensures Lookup(Report(s1), SuccessfulConcurrent) == Some(0)
    ensures Lookup(Report(s1), ConcurrentInvokedExplicitly) == Some(1)
    ensures Lookup(Report(s1), DegeneratedGcs) == Some(1)
    ensures Lookup(Report(s1), DegeneratedByAllocFailure) == Some(1)
    ensures Breakdown(Report(s1)) == [AtPoint(point, 1)]
    ensures Lookup(Report(s1), FullGcs) == Some(0)
    ensures Lookup(Report(s2), FullGcs) == Some(1)
    ensures Lookup(Report(s2), DegeneratedUpgradedToFull) == Some(1)
  {
    assert s1.degenPoints == s0.degenPoints[point := 1];
    DegenLinesSingle(s1.degenPoints, point);
    ReportBreakdown(s1);
    ReportReadBack(s1);
    ReportReadBack(s2);
  }
}
