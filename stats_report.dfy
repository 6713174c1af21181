/** The content of the policy's statistics report: which rows it prints, in
    which order, and with which values. Text, widths and the output stream are
    not part of this model; a row is a label (or a degeneration point) and a
    count. */
module StatsReport {
  import opened PolicyState
  import opened Wrappers

  /** The labelled rows of the report, one per line the report prints. */
  datatype Label =
    | SuccessfulConcurrent
    | ConcurrentInvokedExplicitly
    | ConcurrentInvokedImplicitly
    | DegeneratedGcs
    | DegeneratedByAllocFailure
    | DegeneratedUpgradedToFull
    | FullGcs
    | FullInvokedExplicitly
    | FullInvokedImplicitly
    | FullByAllocFailure
    | FullUpgradedFromDegenerated

  /** A report row: a labelled counter, or the count of degenerations that
      happened at one degeneration point. */
  datatype Line = Counter(name: Label, value: nat) | AtPoint(point: nat, value: nat)

  /** The derived "Full GCs" total: successful full cycles plus degenerated
      cycles upgraded to full, summed at read time. */
  function FullGcsTotal(s: Stats): (n: nat)
    ensures n >= s.allocFailureDegeneratedUpgradeToFull && n >= s.successFullGcs
    ensures n - s.allocFailureDegeneratedUpgradeToFull == s.successFullGcs
  {
    s.successFullGcs + s.allocFailureDegeneratedUpgradeToFull
  }

  /** The breakdown of degenerations by point for table `t`: one row per point
      with a non-zero count, in increasing point order. */
  function DegenLines(t: seq<nat>): (r: seq<Line>)
    ensures forall i :: 0 <= i < |r| ==>
      r[i].AtPoint? && r[i].point < |t| && r[i].value == t[r[i].point] && r[i].value > 0
    ensures forall i, j :: 0 <= i < j < |r| ==> r[i].point < r[j].point
  {
    if |t| == 0 then []
    else
      var n := |t| - 1;
      DegenLines(t[..n]) + (if t[n] > 0 then [AtPoint(n, t[n])] else [])
  }

  /** Every point with a non-zero count has its row in the breakdown. */
  lemma {:induction false} DegenLinesComplete(t: seq<nat>, p: nat)
    requires p < |t| && t[p] > 0
    ensures AtPoint(p, t[p]) in DegenLines(t)
  {
    var n := |t| - 1;
    if p < n {
      assert t[..n][p] == t[p];
      DegenLinesComplete(t[..n], p);
    }
  }

  /** The sum of the values of a list of rows. */
  function SumValues(lines: seq<Line>): nat
  {
    if |lines| == 0 then 0 else SumValues(lines[..|lines| - 1]) + lines[|lines| - 1].value
  }

  lemma {:induction false} SumValuesAppend(a: seq<Line>, b: seq<Line>)
    ensures SumValues(a + b) == SumValues(a) + SumValues(b)
    decreases |b|
  {
    if |b| > 0 {
      var n := |b| - 1;
      assert (a + b)[..|a + b| - 1] == a + b[..n];
      assert (a + b)[|a + b| - 1] == b[n];
      assert b[..n + 1] == b;
      SumValuesAppend(a, b[..n]);
    } else {
      assert a + b == a;
    }
  }

  /** The rows of the breakdown add up to the whole table. */
  lemma {:induction false} DegenLinesSum(t: seq<nat>)
    ensures SumValues(DegenLines(t)) == Sum(t)
  {
    if |t| > 0 {
      var n := |t| - 1;
      var front := DegenLines(t[..n]);
      var last: seq<Line> := if t[n] > 0 then [AtPoint(n, t[n])] else [];
      assert DegenLines(t) == front + last;
      assert Sum(t) == Sum(t[..n]) + t[n];
      DegenLinesSum(t[..n]);
      SumValuesAppend(front, last);
      assert SumValues(last) == t[n] by {
        if t[n] > 0 {
          assert last[..0] == [];
        }
      }
    }
  }

  /** The rows printed before the per-point breakdown. */
  function Header(s: Stats): seq<Line>
  {
    [ Counter(SuccessfulConcurrent, s.successConcurrentGcs),
      Counter(ConcurrentInvokedExplicitly, s.explicitConcurrent),
      Counter(ConcurrentInvokedImplicitly, s.implicitConcurrent),
      Counter(DegeneratedGcs, s.successDegeneratedGcs),
      Counter(DegeneratedByAllocFailure, s.allocFailureDegenerated) ]
  }

  /** The rows printed after the per-point breakdown. */
  function Trailer(s: Stats): seq<Line>
  {
    [ Counter(DegeneratedUpgradedToFull, s.allocFailureDegeneratedUpgradeToFull),
      Counter(FullGcs, FullGcsTotal(s)),
      Counter(FullInvokedExplicitly, s.explicitFull),
      Counter(FullInvokedImplicitly, s.implicitFull),
      Counter(FullByAllocFailure, s.allocFailureFull),
      Counter(FullUpgradedFromDegenerated, s.allocFailureDegeneratedUpgradeToFull) ]
  }

  /** The report's rows, in the order they are printed. */
  function Report(s: Stats): seq<Line>
  {
    Header(s) + DegenLines(s.degenPoints) + Trailer(s)
  }

  /** The counter the report prints under label `l`. */
  function Value(s: Stats, l: Label): nat
  {
    match l
    case SuccessfulConcurrent => s.successConcurrentGcs
    case ConcurrentInvokedExplicitly => s.explicitConcurrent
    case ConcurrentInvokedImplicitly => s.implicitConcurrent
    case DegeneratedGcs => s.successDegeneratedGcs
    case DegeneratedByAllocFailure => s.allocFailureDegenerated
    case DegeneratedUpgradedToFull => s.allocFailureDegeneratedUpgradeToFull
    case FullGcs => FullGcsTotal(s)
    case FullInvokedExplicitly => s.explicitFull
    case FullInvokedImplicitly => s.implicitFull
    case FullByAllocFailure => s.allocFailureFull
    case FullUpgradedFromDegenerated => s.allocFailureDegeneratedUpgradeToFull
  }

  /** The value of the first row labelled `l`, as a reader of the report
      would find it. */
  function Lookup(lines: seq<Line>, l: Label): Option<nat>
  {
    if lines == [] then None
    else if lines[0].Counter? && lines[0].name == l then Some(lines[0].value)
    else Lookup(lines[1..], l)
  }

  /** Looking a label up in `a + b` finds it in `a` if it is there, else in `b`. */
  lemma {:induction false} LookupAppend(a: seq<Line>, b: seq<Line>, l: Label)
    ensures Lookup(a + b, l) == if Lookup(a, l).Some? then Lookup(a, l) else Lookup(b, l)
  {
    if a != [] {
      assert (a + b)[0] == a[0];
      assert (a + b)[1..] == a[1..] + b;
      LookupAppend(a[1..], b, l);
    } else {
      assert a + b == b;
    }
  }

  lemma {:induction false} LookupTail(r: seq<Line>, l: Label)
    requires forall i :: 0 <= i < |r| ==> r[i].AtPoint?
    ensures Lookup(r, l) == None
  {
    if r != [] {
      LookupTail(r[1..], l);
    }
  }

  /** The rows that give a count per degeneration point, in order. */
  function Breakdown(lines: seq<Line>): seq<Line>
  {
    if lines == [] then []
    else (if lines[0].AtPoint? then [lines[0]] else []) + Breakdown(lines[1..])
  }

  lemma {:induction false} BreakdownAppend(a: seq<Line>, b: seq<Line>)
    ensures Breakdown(a + b) == Breakdown(a) + Breakdown(b)
  {
    if a != [] {
      assert (a + b)[0] == a[0];
      assert (a + b)[1..] == a[1..] + b;
      BreakdownAppend(a[1..], b);
      assert [a[0]] + a[1..] == a;
    } else {
      assert a + b == b;
    }
  }

  lemma {:induction false} BreakdownAllAtPoint(r: seq<Line>)
    requires forall i :: 0 <= i < |r| ==> r[i].AtPoint?
    ensures Breakdown(r) == r
  {
    if r != [] {
      BreakdownAllAtPoint(r[1..]);
    }
  }

  lemma LookupAt(r: seq<Line>, i: nat, l: Label)
    requires i < |r|
    ensures Lookup(r[i..], l) ==
      if r[i].Counter? && r[i].name == l then Some(r[i].value) else Lookup(r[i + 1..], l)
  {
  }

  lemma BreakdownAt(r: seq<Line>, i: nat)
    requires i < |r|
    ensures Breakdown(r[i..]) == (if r[i].AtPoint? then [r[i]] else []) + Breakdown(r[i + 1..])
  {
  }

  lemma LookupHeader(s: Stats, l: Label)
    ensures Lookup(Header(s), l) ==
      if l in {SuccessfulConcurrent, ConcurrentInvokedExplicitly, ConcurrentInvokedImplicitly,
               DegeneratedGcs, DegeneratedByAllocFailure}
      then Some(Value(s, l)) else None
    ensures Breakdown(Header(s)) == []
  {
    var r := Header(s);
    assert r[0..] == r;
    LookupAt(r, 0, l); LookupAt(r, 1, l); LookupAt(r, 2, l); LookupAt(r, 3, l); LookupAt(r, 4, l);
    BreakdownAt(r, 0); BreakdownAt(r, 1); BreakdownAt(r, 2); BreakdownAt(r, 3); BreakdownAt(r, 4);
    assert r[5..] == [];
  }

  lemma LookupTrailer(s: Stats, l: Label)
    ensures Lookup(Trailer(s), l) ==
      if l in {SuccessfulConcurrent, ConcurrentInvokedExplicitly, ConcurrentInvokedImplicitly,
               DegeneratedGcs, DegeneratedByAllocFailure}
      then None else Some(Value(s, l))
    ensures Breakdown(Trailer(s)) == []
  {
    var r := Trailer(s);
    assert r[0..] == r;
    LookupAt(r, 0, l); LookupAt(r, 1, l); LookupAt(r, 2, l);
    LookupAt(r, 3, l); LookupAt(r, 4, l); LookupAt(r, 5, l);
    BreakdownAt(r, 0); BreakdownAt(r, 1); BreakdownAt(r, 2);
    BreakdownAt(r, 3); BreakdownAt(r, 4); BreakdownAt(r, 5);
    assert r[6..] == [];
  }

  /** Reading the report back finds every counter under its own label, and
      under "Full GCs" the derived total, which is at least the number of
      upgrades from degenerated cycles. */
  lemma ReportReadBack(s: Stats)
    ensures forall l :: Lookup(Report(s), l) == Some(Value(s, l))
    ensures Lookup(Report(s), FullGcs) == Some(FullGcsTotal(s))
    ensures Lookup(Report(s), FullGcs).value >= s.allocFailureDegeneratedUpgradeToFull
  {
    var degen := DegenLines(s.degenPoints);
    forall l: Label
      ensures Lookup(Report(s), l) == Some(Value(s, l))
    {
      LookupAppend(Header(s), degen + Trailer(s), l);
      LookupAppend(degen, Trailer(s), l);
      LookupTail(degen, l);
      LookupHeader(s, l);
      LookupTrailer(s, l);
      assert Report(s) == Header(s) + (degen + Trailer(s));
    }
  }

  /** The per-point rows of the report are exactly the breakdown of the table:
      one row per non-zero point, in point order, and together they add up to
      the "caused by allocation failure" row whenever the table matches the
      aggregate. */
  lemma ReportBreakdown(s: Stats)
    ensures Breakdown(Report(s)) == DegenLines(s.degenPoints)
    ensures TableMatches(s) ==>
      Lookup(Report(s), DegeneratedByAllocFailure) == Some(SumValues(Breakdown(Report(s))))
  {
    var degen := DegenLines(s.degenPoints);
    assert Report(s) == Header(s) + (degen + Trailer(s));
    BreakdownAppend(Header(s), degen + Trailer(s));
    BreakdownAppend(degen, Trailer(s));
    BreakdownAllAtPoint(degen);
    LookupHeader(s, DegeneratedByAllocFailure);
    LookupTrailer(s, DegeneratedByAllocFailure);
    DegenLinesSum(s.degenPoints);
    ReportReadBack(s);
  }

  /** A table of zeros breaks down into no rows. */
  lemma {:induction false} DegenLinesZeros(t: seq<nat>)
    requires forall q :: 0 <= q < |t| ==> t[q] == 0
    ensures DegenLines(t) == []
  {
    if |t| > 0 {
      DegenLinesZeros(t[..|t| - 1]);
    }
  }

  /** A table whose only non-zero slot is `p` breaks down into that one row. */
  lemma {:induction false} DegenLinesSingle(t: seq<nat>, p: nat)
    requires p < |t| && t[p] > 0
    requires forall q :: 0 <= q < |t| && q != p ==> t[q] == 0
    ensures DegenLines(t) == [AtPoint(p, t[p])]
  {
    var n := |t| - 1;
    if p == n {
      DegenLinesZeros(t[..n]);
    } else {
      assert t[..n][p] == t[p];
      DegenLinesSingle(t[..n], p);
    }
  }
}
