# Shenandoah collector policy: cycle-outcome bookkeeping

A model of `ShenandoahCollectorPolicy` from the Shenandoah garbage collector
of OpenJDK 8 (`shenandoahCollectorPolicy.cpp`). The policy is one object per
heap. It keeps:

- ten counters of cycle outcomes: successful concurrent, degenerated and full
  cycles; degenerations and fulls caused by allocation failure; degenerated
  cycles upgraded to full; concurrent and full cycles requested explicitly and
  implicitly;
- a table with one count per degeneration point;
- a cycle counter;
- a shutdown flag.

Each `record_*` operation bumps its counter. The statistics report derives the
"Full GCs" total at read time and lists only the degeneration points that
occurred. The policy also runs a fixed retry sequence when a metadata
allocation fails, and it computes the heap and space alignment.

Files:

- `policy_state.dfy` (module `PolicyState`): the statistics as a value
  (`Stats`). `Step` gives the effect of one recording call and `Run` the effect
  of a sequence of calls. The lemmas say what any sequence of calls does: the
  per-point table keeps summing to the aggregate degeneration counter, each
  counter grows by exactly the number of calls that record it, nothing ever
  decreases, and shutdown is never cleared.
- `stats_report.dfy` (module `StatsReport`): the report's content as rows of
  (label, count) and (degeneration point, count). It also holds the lemmas
  that read the report back.
- `metadata_retry.dfy` (module `MetadataRetry`): the collaborators of the
  metadata retry sequence, as an oracle of answers and a trace of calls.
- `collector_policy.dfy` (module `CollectorPolicy`): the class
  `ShenandoahCollectorPolicy`. It has the counters as `nat` fields and the
  per-point table as an `array<nat>`. Every method modelling one `record_*` call has
  a frame that names only what it bumps. `Record` and `RecordAll` replay
  recording calls; their frame is the statistic fields and the table. Its `ensures` ties the new state to `Step` of
  the old one and keeps the invariant `Valid()`: the table sums to the
  aggregate. The class also has the report method, the metadata retry method
  and the alignment setup. The module also has a client that replays a
  degenerated-then-upgraded cycle.
- `wrappers.dfy` (module `Wrappers`): `Option`.

The number of degeneration points (`_DEGENERATED_LIMIT`) is defined in
`shenandoahHeap.hpp`, which is not part of this model. The constructor takes it
as a parameter and requires it to be positive, so every result holds for any
number of points. A degeneration point is a `nat` below that number.

`cycle_counter()` and `is_at_shutdown()` are the functions `CycleCounter` and
`IsAtShutdown`. They only read the object, and each returns the matching field
of `Snapshot()`. So `RunCounts` and `RunShutdown` say what they return after
any sequence of recording calls.

The code checks no order between recording calls. Any sequence is accepted,
including several successes in one cycle or a recording call before
`record_cycle_start`, and the model accepts the same sequences.

## Model

| member | source | states |
|---|---|---|
| `PolicyState.Initial` | hotspot/src/share/vm/gc_implementation/shenandoah/shenandoahCollectorPolicy.cpp:33-46 | after construction every slot of the degeneration table is zero, the cycle counter and the aggregate are zero, the table matches the aggregate, and shutdown is not recorded |
| `CollectorPolicy.ShenandoahCollectorPolicy.constructor` | hotspot/src/share/vm/gc_implementation/shenandoah/shenandoahCollectorPolicy.cpp:33-46 | a new policy has every counter at zero, a fresh zeroed table of `degeneratedLimit` slots and the invariant established |
| `PolicyState.Step` | hotspot/src/share/vm/gc_implementation/shenandoah/shenandoahCollectorPolicy.cpp:119-171 | no recording call decreases any counter or slot or changes the table's size; the cycle counter grows by one exactly on a cycle start; a shutdown call leaves the flag set |
| `PolicyState.StepCounts` | hotspot/src/share/vm/gc_implementation/shenandoah/shenandoahCollectorPolicy.cpp:119-167 | one call bumps its own counter by exactly one and leaves every other single counter unchanged; the aggregate degeneration counter grows by one exactly on a degeneration record, and every other call leaves the aggregate and the table unchanged |
| `PolicyState.SumIncrement` | hotspot/src/share/vm/gc_implementation/shenandoah/shenandoahCollectorPolicy.cpp:142 | bumping one slot of the table bumps the table's sum by exactly one |
| `PolicyState.StepKeepsTableMatching` | hotspot/src/share/vm/gc_implementation/shenandoah/shenandoahCollectorPolicy.cpp:139-143 | every recording call keeps the table summing to the aggregate degeneration counter |
| `PolicyState.RunKeepsTableMatching` | hotspot/src/share/vm/gc_implementation/shenandoah/shenandoahCollectorPolicy.cpp:119-175 | across any sequence of calls the table keeps summing to the aggregate |
| `PolicyState.RunNoDecrease` | hotspot/src/share/vm/gc_implementation/shenandoah/shenandoahCollectorPolicy.cpp:119-175 | across any sequence of calls no counter, slot or cycle counter decreases, and a set shutdown flag stays set |
| `PolicyState.RunCounts` | hotspot/src/share/vm/gc_implementation/shenandoah/shenandoahCollectorPolicy.cpp:119-167 | after any sequence of calls each counter, the cycle counter and the aggregate degeneration counter included, equals its old value plus the number of calls that record it |
| `PolicyState.RunCountsDegenerations` | hotspot/src/share/vm/gc_implementation/shenandoah/shenandoahCollectorPolicy.cpp:139-143 | after any sequence of calls the aggregate has grown by the number of degenerations recorded, and each slot by the number recorded at its point |
| `PolicyState.RunShutdown` | hotspot/src/share/vm/gc_implementation/shenandoah/shenandoahCollectorPolicy.cpp:169-175 | after any sequence of calls the shutdown flag is set exactly when it was set before or the sequence records a shutdown |
| `CollectorPolicy.ShenandoahCollectorPolicy.RecordExplicitToConcurrent` | hotspot/src/share/vm/gc_implementation/shenandoah/shenandoahCollectorPolicy.cpp:119-121 | only the explicit-concurrent counter changes, by one; the invariant is kept |
| `CollectorPolicy.ShenandoahCollectorPolicy.RecordExplicitToFull` | hotspot/src/share/vm/gc_implementation/shenandoah/shenandoahCollectorPolicy.cpp:123-125 | only the explicit-full counter changes, by one; the invariant is kept |
| `CollectorPolicy.ShenandoahCollectorPolicy.RecordImplicitToConcurrent` | hotspot/src/share/vm/gc_implementation/shenandoah/shenandoahCollectorPolicy.cpp:127-129 | only the implicit-concurrent counter changes, by one; the invariant is kept |
| `CollectorPolicy.ShenandoahCollectorPolicy.RecordImplicitToFull` | hotspot/src/share/vm/gc_implementation/shenandoah/shenandoahCollectorPolicy.cpp:131-133 | only the implicit-full counter changes, by one; the invariant is kept |
| `CollectorPolicy.ShenandoahCollectorPolicy.RecordAllocFailureToFull` | hotspot/src/share/vm/gc_implementation/shenandoah/shenandoahCollectorPolicy.cpp:135-137 | only the allocation-failure-to-full counter changes, by one; the invariant is kept |
| `CollectorPolicy.ShenandoahCollectorPolicy.RecordAllocFailureToDegenerated` | hotspot/src/share/vm/gc_implementation/shenandoah/shenandoahCollectorPolicy.cpp:139-143 | for a point below the number of points, the aggregate and that point's slot each grow by one, every other slot is unchanged, and the table still sums to the aggregate |
| `CollectorPolicy.ShenandoahCollectorPolicy.RecordDegeneratedUpgradeToFull` | hotspot/src/share/vm/gc_implementation/shenandoah/shenandoahCollectorPolicy.cpp:145-147 | only the upgraded-to-full counter changes, by one; the invariant is kept |
| `CollectorPolicy.ShenandoahCollectorPolicy.RecordSuccessConcurrent` | hotspot/src/share/vm/gc_implementation/shenandoah/shenandoahCollectorPolicy.cpp:149-151 | only the successful-concurrent counter changes, by one; the invariant is kept |
| `CollectorPolicy.ShenandoahCollectorPolicy.RecordSuccessDegenerated` | hotspot/src/share/vm/gc_implementation/shenandoah/shenandoahCollectorPolicy.cpp:153-155 | only the successful-degenerated counter changes, by one; the invariant is kept |
| `CollectorPolicy.ShenandoahCollectorPolicy.RecordSuccessFull` | hotspot/src/share/vm/gc_implementation/shenandoah/shenandoahCollectorPolicy.cpp:157-159 | only the successful-full counter changes, by one; the invariant is kept |
| `CollectorPolicy.ShenandoahCollectorPolicy.CycleCounter` | hotspot/src/share/vm/gc_implementation/shenandoah/shenandoahCollectorPolicy.cpp:161-163 | `cycle_counter()` reads the object without changing it and returns the cycle counter of the statistics |
| `CollectorPolicy.ShenandoahCollectorPolicy.RecordCycleStart` | hotspot/src/share/vm/gc_implementation/shenandoah/shenandoahCollectorPolicy.cpp:161-167 | only the cycle counter changes, and what `cycle_counter()` returns grows by exactly one |
| `CollectorPolicy.ShenandoahCollectorPolicy.RecordShutdown` | hotspot/src/share/vm/gc_implementation/shenandoah/shenandoahCollectorPolicy.cpp:169-175 | only the shutdown flag changes, and `is_at_shutdown()` then answers true |
| `CollectorPolicy.ShenandoahCollectorPolicy.IsAtShutdown` | hotspot/src/share/vm/gc_implementation/shenandoah/shenandoahCollectorPolicy.cpp:173-175 | `is_at_shutdown()` reads the object without changing it and returns whether a shutdown is recorded in the statistics |
| `CollectorPolicy.ShenandoahCollectorPolicy.PrintGcStats` | hotspot/src/share/vm/gc_implementation/shenandoah/shenandoahCollectorPolicy.cpp:177-205 | the report changes no state and its rows are exactly the report of the current statistics, the breakdown built by a loop over the table |
| `StatsReport.FullGcsTotal` | hotspot/src/share/vm/gc_implementation/shenandoah/shenandoahCollectorPolicy.cpp:200 | the "Full GCs" total is at least the number of upgrades and at least the number of successful fulls, and exceeds the upgrades by exactly the successful fulls |
| `StatsReport.DegenLines` | hotspot/src/share/vm/gc_implementation/shenandoah/shenandoahCollectorPolicy.cpp:191-196 | each breakdown row names a point of the table with its count, which is non-zero, and the rows come in strictly increasing point order |
| `StatsReport.DegenLinesComplete` | hotspot/src/share/vm/gc_implementation/shenandoah/shenandoahCollectorPolicy.cpp:191-196 | every point with a non-zero count has its row in the breakdown |
| `StatsReport.DegenLinesSum` | hotspot/src/share/vm/gc_implementation/shenandoah/shenandoahCollectorPolicy.cpp:191-196 | the counts in the breakdown add up to the sum of the whole table, so omitting zero points loses nothing |
| `StatsReport.DegenLinesSingle` | hotspot/src/share/vm/gc_implementation/shenandoah/shenandoahCollectorPolicy.cpp:191-196 | a table with a single non-zero point breaks down into exactly that one row |
| `StatsReport.ReportReadBack` | hotspot/src/share/vm/gc_implementation/shenandoah/shenandoahCollectorPolicy.cpp:184-204 | reading the report back gives each counter under its own label, and under "Full GCs" successful fulls plus upgrades, which is at least the upgrades |
| `StatsReport.ReportBreakdown` | hotspot/src/share/vm/gc_implementation/shenandoah/shenandoahCollectorPolicy.cpp:189-197 | the per-point rows of the report are exactly the breakdown of the table; when the table matches the aggregate, they add up to the "caused by allocation failure" row |
| `CollectorPolicy.DegeneratedThenUpgraded` | hotspot/src/share/vm/gc_implementation/shenandoah/shenandoahCollectorPolicy.cpp:119-204 | a new policy that records an explicit concurrent start, a degeneration at one point and a degenerated success reports one degenerated cycle with only that point in the breakdown and zero Full GCs; after an upgrade to full it reports one Full GC |
| `CollectorPolicy.DegeneratedThenUpgradedStats` | hotspot/src/share/vm/gc_implementation/shenandoah/shenandoahCollectorPolicy.cpp:139-204 | the same two reports, stated about the statistics after those calls |
| `MetadataRetry.FirstSuccess` | hotspot/src/share/vm/gc_implementation/shenandoah/shenandoahCollectorPolicy.cpp:84-106 | the result is null exactly when every attempt failed; otherwise it is the result of an attempt before which every attempt failed |
| `MetadataRetry.FirstOfThree` | hotspot/src/share/vm/gc_implementation/shenandoah/shenandoahCollectorPolicy.cpp:84-106 | over the three attempts, the first success is the first attempt if it succeeded, else the second if it succeeded, else the third |
| `MetadataRetry.StepsRun` | hotspot/src/share/vm/gc_implementation/shenandoah/shenandoahCollectorPolicy.cpp:84-103 | one step runs exactly when the first expansion succeeds; all four run exactly when both the first expansion and the allocation after the collection fail |
| `CollectorPolicy.ShenandoahCollectorPolicy.Record` | hotspot/src/share/vm/gc_implementation/shenandoah/shenandoahCollectorPolicy.cpp:119-175 | any one recording call, dispatched to its method, changes the statistics as `Step` says and keeps the invariant; its frame is the statistic fields and the table, so the alignments are unchanged |
| `CollectorPolicy.ShenandoahCollectorPolicy.RecordAll` | hotspot/src/share/vm/gc_implementation/shenandoah/shenandoahCollectorPolicy.cpp:119-175 | a sequence of recording calls made in order changes the statistics as `Run` says and keeps the invariant; its frame is the statistic fields and the table, so the alignments are unchanged |
| `CollectorPolicy.ShenandoahCollectorPolicy.SatisfyFailedMetadataAllocation` | hotspot/src/share/vm/gc_implementation/shenandoah/shenandoahCollectorPolicy.cpp:71-107 | the metaspace OOM is reported to the heuristics exactly when they can unload classes; the calls are then a prefix of expand, collect, allocate, expand that stops at the first success; the full collection runs exactly when the first expansion failed; the result is the first non-null attempt, and null exactly when all three fail; the statistics change by exactly the recording calls of the requested collection when it runs, and not at all otherwise; its frame is the statistic fields and the table, so the alignments are unchanged |
| `CollectorPolicy.Alignment` | hotspot/src/share/vm/gc_implementation/shenandoah/shenandoahCollectorPolicy.cpp:109-117 | the alignment is at least the region size; with large pages it is at least the large page size and is one of the two; without large pages it is the region size |
| `CollectorPolicy.ShenandoahCollectorPolicy.InitializeAlignments` | hotspot/src/share/vm/gc_implementation/shenandoah/shenandoahCollectorPolicy.cpp:109-117 | the space and heap alignments are set to the same value, the alignment above; the statistics and the invariant are unchanged, and nothing else changes |

## Left out

- `shenandoahRootProcessor.hpp` (the root scan coordinator) is not modelled. It holds only declarations and the task-id enum (`SHENANDOAH_RP_PS_NumElements` is 7 ids). Its exactly-once claiming lives in `SubTasksDone`, which is not part of this model, and its purpose is parallel scanning by worker threads.
- `mem_allocate_work` and `satisfy_failed_allocation` are not modelled. They are unconditional `guarantee(false)` stubs with no behaviour.
- `barrier_set_name` is not modelled. It returns a constant.
- The constructor's side calls are not modelled: `ShenandoahHeapRegion::setup_sizes` and the tracer allocation. `setup_sizes` fixes the region size, and the constructor then calls `initialize_all` of the base `CollectorPolicy` (not part of this model), which runs `initialize_alignments` with that region size. So in the program both alignments are set when the constructor returns. The model's constructor says nothing about the alignments (it leaves them at zero), and `InitializeAlignments` is a separate method taking the region size as a parameter.
- The shutdown flag `_in_shutdown` is a flag object that the constructor does not initialise explicitly. The model assumes its default state is "not set", which `Initial` records.
- The number of degeneration points and the names from `degen_point_to_string` are not part of this model. They are defined in `shenandoahHeap.hpp`. Points are numbers below a positive constructor parameter.
- The report's literal text, its `SIZE_FORMAT_W(5)` widths, its blank lines and the `outputStream` are not modelled. Only the rows and their values are.
- The metaspace, `ShenandoahHeap::collect` and the heuristics are foreign calls. Their answers are one `Answers` value fixed in advance, and what the policy asks of them is the returned list of calls. The full collection that `collect` runs records its start and outcome on this same policy before it returns; which recording calls it makes is part of `Answers` (`gcRecords`), and `SatisfyFailedMetadataAllocation` applies them to the statistics at the point of the `collect` call. `loader_data` and `metaspace_non_null()` are not modelled.
- Thread safety is not modelled. The counters and the shared shutdown flag have sequential semantics only.
- `size_t` wrap-around of the counters is not modelled. The counters are unbounded `nat`s.
- The debug-only range check in `record_alloc_failure_to_degenerated` is a precondition. A call with an out-of-range point would index outside the table in a product build, so the model has no such call.
