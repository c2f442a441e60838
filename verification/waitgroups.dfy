/**
 * `sync.WaitGroup` values as pending counts. A heap of wait groups is a
 * sequence of counts; a pointer to one is `Group(id)`, the nil pointer `Nil`.
 */
module WaitGroups {
  import opened Wrappers

  datatype Ref = Nil | Group(id: nat)

  /** Pending count of every allocated wait group, indexed by `Ref.id`. */
  type Heap = seq<int>

  /** A pointer is either nil or refers to an allocated wait group. */
  predicate Addressable(heap: Heap, r: Ref) {
    r.Group? ==> r.id < |heap|
  }

  /** `&sync.WaitGroup{}`: a new group with nothing pending. */
  function Allocate(heap: Heap): (r: (Heap, Ref))
    ensures r.1.Group? && r.1.id == |heap| && r.1.id < |r.0|
    ensures r.0[..|heap|] == heap && r.0[r.1.id] == 0
  {
    (heap + [0], Group(|heap|))
  }

  /**
   * `wg.Add(delta)`: None stands for the panic Go raises on a nil pointer
   * or when the count would drop below zero.
   */
  function Add(heap: Heap, r: Ref, delta: int): (res: Option<Heap>)
    requires Addressable(heap, r)
    ensures res.None? <==> r.Nil? || heap[r.id] + delta < 0
    ensures res.Some? ==> |res.value| == |heap| && res.value[r.id] == heap[r.id] + delta
    ensures res.Some? ==> forall j :: 0 <= j < |heap| && j != r.id ==> res.value[j] == heap[j]
  {
    if r.Nil? || heap[r.id] + delta < 0 then None
    else Some(heap[r.id := heap[r.id] + delta])
  }
}
