/** The retry sequence the policy runs when a metadata allocation has failed.
    The metaspace, the heap's collector and its heuristics are collaborators
    this model does not contain: what they answer is a parameter, and what the
    policy asks of them is returned as the list of calls it made. */
module MetadataRetry {
  import opened Wrappers
  import opened PolicyState

  /** The address of an allocated block of metadata words. */
  type MetaWord = nat

  /** Which metaspace an allocation is for. */
  datatype MetadataType = ClassType | NonClassType

  /** The cause a collection is requested with. */
  datatype GcCause = MetadataGcClearSoftRefs

  /** A call the policy makes on its collaborators. */
  datatype Call =
    | RecordMetaspaceOom
    | ExpandAndAllocate(size: nat, mdtype: MetadataType)
    | Collect(cause: GcCause)
    | Allocate(size: nat, mdtype: MetadataType)

  /** What the collaborators answer during one retry sequence: whether the
      heuristics permit class unloading, the result of each of the three
      allocation attempts, `None` standing for a null result, and the
      recording calls the requested full collection makes on the policy
      before `collect` returns. */
  datatype Answers = Answers(
    canUnloadClasses: bool,
    firstExpand: Option<MetaWord>,
    allocateAfterGc: Option<MetaWord>,
    expandAfterGc: Option<MetaWord>,
    gcRecords: seq<Op>)

  /** The first successful attempt in order, if there is one. */
  function FirstSuccess<T>(attempts: seq<Option<T>>): (r: Option<T>)
    ensures r.None? <==> forall i :: 0 <= i < |attempts| ==> attempts[i].None?
    ensures r.Some? ==> exists i :: 0 <= i < |attempts| && attempts[i] == r &&
                                    (forall j :: 0 <= j < i ==> attempts[j].None?)
  {
    if attempts == [] then None
    else if attempts[0].Some? then attempts[0]
    else
      var rest := FirstSuccess(attempts[1..]);
      assert rest.Some? ==> exists i :: 1 <= i < |attempts| && attempts[i] == rest &&
                                        (forall j :: 0 <= j < i ==> attempts[j].None?) by {
        if rest.Some? {
          var i :| 0 <= i < |attempts[1..]| && attempts[1..][i] == rest &&
                   (forall j :: 0 <= j < i ==> attempts[1..][j].None?);
          assert attempts[i + 1] == rest;
          assert forall j :: 0 <= j < i + 1 ==> attempts[j].None? by {
            forall j | 0 <= j < i + 1 ensures attempts[j].None? {
              if j > 0 { assert attempts[j] == attempts[1..][j - 1]; }
            }
          }
        }
      }
      rest
  }

  /** The fixed escalation order: expand and allocate, collect, allocate,
      expand and allocate. */
  function Escalation(size: nat, mdtype: MetadataType): seq<Call>
  {
    [ExpandAndAllocate(size, mdtype), Collect(MetadataGcClearSoftRefs),
     Allocate(size, mdtype), ExpandAndAllocate(size, mdtype)]
  }

  /** How many steps of the escalation order run before the first success
      (all four when every attempt fails). */
  function StepsRun(a: Answers): (k: nat)
    ensures 1 <= k <= 4 && k != 2
    ensures k == 1 <==> a.firstExpand.Some?
    ensures k == 4 <==> a.firstExpand.None? && a.allocateAfterGc.None?
  {
    if a.firstExpand.Some? then 1
    else if a.allocateAfterGc.Some? then 3
    else 4
  }

  /** Over three attempts, the first success is the first attempt if it
      succeeded, else the second if it succeeded, else the third. */
  lemma FirstOfThree<T>(a: Option<T>, b: Option<T>, c: Option<T>)
    ensures FirstSuccess([a, b, c]) == if a.Some? then a else if b.Some? then b else c
  {
    assert [c][1..] == [];
    assert FirstSuccess([c]) == c;
    assert [b, c][1..] == [c];
    assert FirstSuccess([b, c]) == if b.Some? then b else c;
    assert [a, b, c][1..] == [b, c];
  }
}
