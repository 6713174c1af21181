/** The statistics a Shenandoah collector policy keeps, as a value, and the
    effect of each of its recording operations on that value.

    The class in CollectorPolicy keeps the same data in fields and an array;
    each of its methods is specified by `Step` below, and the lemmas here say
    what any sequence of recording calls does to the statistics. */
module PolicyState {

  /** A snapshot of every counter of the policy. `degenPoints[p]` counts the
      degenerations that happened at degeneration point `p`. */
  datatype Stats = Stats(
    successConcurrentGcs: nat,
    successDegeneratedGcs: nat,
    successFullGcs: nat,
    allocFailureDegenerated: nat,
    allocFailureFull: nat,
    allocFailureDegeneratedUpgradeToFull: nat,
    explicitConcurrent: nat,
    explicitFull: nat,
    implicitConcurrent: nat,
    implicitFull: nat,
    cycleCounter: nat,
    degenPoints: seq<nat>,
    inShutdown: bool)

  /** One call of a recording operation of the policy. */
  datatype Op =
    | ExplicitToConcurrent
    | ExplicitToFull
    | ImplicitToConcurrent
    | ImplicitToFull
    | AllocFailureToFull
    | AllocFailureToDegenerated(point: nat)
    | DegeneratedUpgradeToFull
    | SuccessConcurrent
    | SuccessDegenerated
    | SuccessFull
    | CycleStart
    | Shutdown

  /** The sum of a table of counts. */
  function Sum(t: seq<nat>): nat
  {
    if |t| == 0 then 0 else Sum(t[..|t| - 1]) + t[|t| - 1]
  }

  lemma {:induction false} SumOfZeros(t: seq<nat>)
    requires forall i :: 0 <= i < |t| ==> t[i] == 0
    ensures Sum(t) == 0
  {
    if |t| > 0 {
      SumOfZeros(t[..|t| - 1]);
    }
  }

  /** Bumping one slot of a table bumps its sum by exactly one. */
  lemma {:induction false} SumIncrement(t: seq<nat>, p: nat)
    requires p < |t|
    ensures Sum(t[p := t[p] + 1]) == Sum(t) + 1
  {
    var u := t[p := t[p] + 1];
    var n := |t| - 1;
    if p == n {
      assert u[..n] == t[..n];
    } else {
      assert u[..n] == t[..n][p := t[p] + 1];
      SumIncrement(t[..n], p);
    }
  }

  /** The class invariant: the per-point table sums to the aggregate
      allocation-failure-to-degenerated counter. */
  ghost predicate TableMatches(s: Stats)
  {
    Sum(s.degenPoints) == s.allocFailureDegenerated
  }

  /** The statistics right after construction, for a table of `limit` points. */
  function Initial(limit: nat): (s: Stats)
    ensures |s.degenPoints| == limit
    ensures forall p :: 0 <= p < limit ==> s.degenPoints[p] == 0
    ensures TableMatches(s) && !s.inShutdown
    ensures s.cycleCounter == 0 && s.allocFailureDegenerated == 0
  {
    var zeros := seq(limit, _ => 0);
    SumOfZeros(zeros);
    Stats(0, 0, 0, 0, 0, 0, 0, 0, 0, 0, 0, zeros, false)
  }

  /** An operation the policy accepts on a table of `limit` points: the
      degeneration point must lie within the table. */
  predicate Fits(op: Op, limit: nat)
  {
    op.AllocFailureToDegenerated? ==> op.point < limit
  }

  predicate AllFit(ops: seq<Op>, limit: nat)
  {
    forall i :: 0 <= i < |ops| ==> Fits(ops[i], limit)
  }

  /** Nothing in `b` is smaller than in `a`, the table keeps its size, and a
      shutdown recorded in `a` is still recorded in `b`. */
  ghost predicate NoDecrease(a: Stats, b: Stats)
  {
    a.successConcurrentGcs <= b.successConcurrentGcs &&
    a.successDegeneratedGcs <= b.successDegeneratedGcs &&
    a.successFullGcs <= b.successFullGcs &&
    a.allocFailureDegenerated <= b.allocFailureDegenerated &&
    a.allocFailureFull <= b.allocFailureFull &&
    a.allocFailureDegeneratedUpgradeToFull <= b.allocFailureDegeneratedUpgradeToFull &&
    a.explicitConcurrent <= b.explicitConcurrent &&
    a.explicitFull <= b.explicitFull &&
    a.implicitConcurrent <= b.implicitConcurrent &&
    a.implicitFull <= b.implicitFull &&
    a.cycleCounter <= b.cycleCounter &&
    |a.degenPoints| == |b.degenPoints| &&
    (forall p :: 0 <= p < |a.degenPoints| ==> a.degenPoints[p] <= b.degenPoints[p]) &&
    (a.inShutdown ==> b.inShutdown)
  }

  /** The effect of one recording operation: each bumps its own counter by one,
      the degeneration record bumps the aggregate and its point's slot, and the
      shutdown record sets the flag. */
  function Step(s: Stats, op: Op): (r: Stats)
    requires Fits(op, |s.degenPoints|)
    ensures NoDecrease(s, r)
    ensures r.cycleCounter == s.cycleCounter + (if op == CycleStart then 1 else 0)
    ensures op == Shutdown ==> r.inShutdown
  {
    match op
    case ExplicitToConcurrent => s.(explicitConcurrent := s.explicitConcurrent + 1)
    case ExplicitToFull => s.(explicitFull := s.explicitFull + 1)
    case ImplicitToConcurrent => s.(implicitConcurrent := s.implicitConcurrent + 1)
    case ImplicitToFull => s.(implicitFull := s.implicitFull + 1)
    case AllocFailureToFull => s.(allocFailureFull := s.allocFailureFull + 1)
    case AllocFailureToDegenerated(p) =>
      s.(allocFailureDegenerated := s.allocFailureDegenerated + 1,
         degenPoints := s.degenPoints[p := s.degenPoints[p] + 1])
    case DegeneratedUpgradeToFull =>
      s.(allocFailureDegeneratedUpgradeToFull := s.allocFailureDegeneratedUpgradeToFull + 1)
    case SuccessConcurrent => s.(successConcurrentGcs := s.successConcurrentGcs + 1)
    case SuccessDegenerated => s.(successDegeneratedGcs := s.successDegeneratedGcs + 1)
    case SuccessFull => s.(successFullGcs := s.successFullGcs + 1)
    case CycleStart => s.(cycleCounter := s.cycleCounter + 1)
    case Shutdown => s.(inShutdown := true)
  }

  /** Every recording operation keeps the table summing to the aggregate. */
  lemma StepKeepsTableMatching(s: Stats, op: Op)
    requires Fits(op, |s.degenPoints|) && TableMatches(s)
    ensures TableMatches(Step(s, op))
  {
    if op.AllocFailureToDegenerated? {
      SumIncrement(s.degenPoints, op.point);
    }
  }

  /** The statistics after a sequence of recording calls, in order. */
  function Run(s: Stats, ops: seq<Op>): (r: Stats)
    requires AllFit(ops, |s.degenPoints|)
    ensures |r.degenPoints| == |s.degenPoints|
    decreases |ops|
  {
    if ops == [] then s else Run(Step(s, ops[0]), ops[1..])
  }

  /** How many calls in `ops` recorded a degeneration, at any point. */
  function DegenerationCount(ops: seq<Op>): (n: nat)
    ensures n <= |ops|
  {
    if ops == [] then 0
    else (if ops[0].AllocFailureToDegenerated? then 1 else 0) + DegenerationCount(ops[1..])
  }

  /** The table keeps summing to the aggregate across any call sequence. */
  lemma {:induction false} RunKeepsTableMatching(s: Stats, ops: seq<Op>)
    requires AllFit(ops, |s.degenPoints|) && TableMatches(s)
    ensures TableMatches(Run(s, ops))
    decreases |ops|
  {
    if ops != [] {
      StepKeepsTableMatching(s, ops[0]);
      RunKeepsTableMatching(Step(s, ops[0]), ops[1..]);
    }
  }

  /** No counter ever decreases and the shutdown flag is never cleared. */
  lemma {:induction false} RunNoDecrease(s: Stats, ops: seq<Op>)
    requires AllFit(ops, |s.degenPoints|)
    ensures NoDecrease(s, Run(s, ops))
    decreases |ops|
  {
    if ops != [] {
      RunNoDecrease(Step(s, ops[0]), ops[1..]);
    }
  }

  /** The operations that bump a single counter of their own. */
  predicate Simple(k: Op)
  {
    !k.AllocFailureToDegenerated? && k != Shutdown
  }

  /** The counter a simple operation bumps. */
  function CounterOf(s: Stats, k: Op): nat
    requires Simple(k)
  {
    match k
    case ExplicitToConcurrent => s.explicitConcurrent
    case ExplicitToFull => s.explicitFull
    case ImplicitToConcurrent => s.implicitConcurrent
    case ImplicitToFull => s.implicitFull
    case AllocFailureToFull => s.allocFailureFull
    case DegeneratedUpgradeToFull => s.allocFailureDegeneratedUpgradeToFull
    case SuccessConcurrent => s.successConcurrentGcs
    case SuccessDegenerated => s.successDegeneratedGcs
    case SuccessFull => s.successFullGcs
    case CycleStart => s.cycleCounter
  }

  /** One call bumps the counter of its own operation by one and the counter
      of every other simple operation not at all; the aggregate degeneration
      counter grows by one exactly on a degeneration record, and every other
      call leaves both the aggregate and the table unchanged. */
  lemma StepCounts(s: Stats, op: Op, k: Op)
    requires Fits(op, |s.degenPoints|) && Simple(k)
    ensures CounterOf(Step(s, op), k) == CounterOf(s, k) + (if op == k then 1 else 0)
    ensures Step(s, op).allocFailureDegenerated ==
      s.allocFailureDegenerated + (if op.AllocFailureToDegenerated? then 1 else 0)
    ensures !op.AllocFailureToDegenerated? ==> Step(s, op).degenPoints == s.degenPoints
  {
  }

  /** Each counter grows by exactly the number of calls that record it: a
      simple operation's counter by the calls of that operation, the aggregate
      degeneration counter by the degeneration records at any point. */
  lemma {:induction false} RunCounts(s: Stats, ops: seq<Op>, k: Op)
    requires AllFit(ops, |s.degenPoints|) && Simple(k)
    ensures CounterOf(Run(s, ops), k) == CounterOf(s, k) + multiset(ops)[k]
    ensures Run(s, ops).allocFailureDegenerated == s.allocFailureDegenerated + DegenerationCount(ops)
    decreases |ops|
  {
    if ops != [] {
      assert ops == [ops[0]] + ops[1..];
      assert multiset(ops) == multiset{ops[0]} + multiset(ops[1..]);
      StepCounts(s, ops[0], k);
      RunCounts(Step(s, ops[0]), ops[1..], k);
    }
  }

  /** The aggregate grows by the number of degenerations recorded, and the
      slot of each point by the number recorded at that point. */
  lemma {:induction false} RunCountsDegenerations(s: Stats, ops: seq<Op>)
    requires AllFit(ops, |s.degenPoints|)
    ensures Run(s, ops).allocFailureDegenerated == s.allocFailureDegenerated + DegenerationCount(ops)
    ensures forall p :: 0 <= p < |s.degenPoints| ==>
      Run(s, ops).degenPoints[p] == s.degenPoints[p] + multiset(ops)[AllocFailureToDegenerated(p)]
    decreases |ops|
  {
    if ops != [] {
      assert ops == [ops[0]] + ops[1..];
      assert multiset(ops) == multiset{ops[0]} + multiset(ops[1..]);
      RunCountsDegenerations(Step(s, ops[0]), ops[1..]);
    }
  }

  /** The shutdown flag is set after a sequence of calls exactly when it was
      set before or the sequence records a shutdown. */
  lemma {:induction false} RunShutdown(s: Stats, ops: seq<Op>)
    requires AllFit(ops, |s.degenPoints|)
    ensures Run(s, ops).inShutdown <==> s.inShutdown || Shutdown in ops
    decreases |ops|
  {
    if ops != [] {
      assert ops == [ops[0]] + ops[1..];
      RunShutdown(Step(s, ops[0]), ops[1..]);
    }
  }
}
