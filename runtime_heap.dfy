/**
  The runtime support library's heap: a bump allocator over one 64 MiB region
  obtained from `mmap` on the first allocation, a `free` that does nothing, and
  a byte-by-byte `memcpy`.

  Addresses are naturals. `mmap` itself is outside the model: each call that may
  initialise the heap receives the outcome `mmap` would have had.
 */
module RuntimeHeap {
  import opened Wrappers
  import opened Bytes

  /** The size of the region requested from `mmap`: 64 MiB. */
  const HeapSize: nat := 64 * 1024 * 1024

  /** Every block handed out starts on a multiple of this. */
  const Alignment: nat := 8

  /** The null pointer. */
  const Null: nat := 0

  /** `MAP_FAILED`, that is `(void *) -1` on a 64-bit machine. */
  const MapFailed: nat := 0xFFFF_FFFF_FFFF_FFFF

  /** What `mmap` did: returned a mapping at `addr`, or failed. */
  datatype MmapOutcome = Mapped(addr: nat) | Failed

  /** What a successful `mmap` returns: a page-aligned address, hence a multiple of
      the alignment, and never NULL, since `mmap` with a NULL hint never maps page 0. */
  predicate MappedAligned(m: MmapOutcome)
  {
    m.Mapped? ==> m.addr % Alignment == 0 && m.addr != Null
  }

  /** The four statics `heap_initialized`, `heap_start`, `heap_size`, `heap_current`. */
  datatype HeapState = HeapState(initialized: bool, start: nat, size: nat, current: nat)

  /** The statics as the library is loaded. */
  const InitialState: HeapState := HeapState(false, Null, 0, Null)

  /** The allocator's invariant: once the heap exists, it is the aligned 64 MiB
      region, and the cursor stays inside it, a multiple of 8 bytes past its start. */
  predicate Valid(h: HeapState)
  {
    h.initialized ==>
      && h.start != Null
      && h.start % Alignment == 0
      && h.size == HeapSize
      && h.start <= h.current <= h.start + h.size
      && (h.current - h.start) % Alignment == 0
  }

  /** `(n + 7) & ~7`: the smallest multiple of 8 that is at least `n`. */
  function AlignUp(n: nat): (r: nat)
    ensures r % Alignment == 0
    ensures n <= r < n + Alignment
  {
    (n + 7) - (n + 7) % 8
  }

  /** `initialize_heap()`: the new statics and the return code. */
  function InitializeSpec(h: HeapState, m: MmapOutcome): (r: (HeapState, int))
    ensures h.initialized ==> r == (h, 0)
    ensures r.1 == 0 <==> r.0.initialized
    ensures r.1 == 0 || r.1 == -1
    ensures !h.initialized ==> (r.1 == 0 <==> m.Mapped?)
    ensures !h.initialized && m.Mapped? ==> r.0.current == r.0.start == m.addr
    ensures Valid(h) && MappedAligned(m) ==> Valid(r.0)
  {
    if h.initialized then (h, 0)
    else
      var h := h.(size := HeapSize);
      match m
      case Failed => (h.(start := MapFailed), -1)
      case Mapped(addr) => (h.(start := addr, current := addr, initialized := true), 0)
  }

  /** `runtime_malloc(n)`: the new statics and the block returned, None for NULL. */
  function MallocSpec(h: HeapState, n: nat, m: MmapOutcome): (r: (HeapState, Option<nat>))
    // A heap that cannot be created yields NULL and stays uncreated.
    ensures !h.initialized && m.Failed? ==> r.1.None? && !r.0.initialized
    // An existing heap is never moved or resized.
    ensures h.initialized ==> r.0.initialized && r.0.start == h.start && r.0.size == h.size
    // A request that does not fit changes nothing but the creation of the heap.
    ensures r.1.None? ==> r.0 == InitializeSpec(h, m).0
    // A request succeeds exactly when the heap exists and `n` bytes fit past the cursor.
    ensures var base := InitializeSpec(h, m).0;
      r.1.Some? <==> base.initialized && base.current + n <= base.start + base.size
    // Success returns the old cursor and advances it by `n` rounded up to 8.
    ensures r.1.Some? ==>
      && r.0.initialized
      && r.1.value == InitializeSpec(h, m).0.current
      && r.0.current - r.1.value == AlignUp(n)
      && r.0.start == InitializeSpec(h, m).0.start
      && r.0.size == InitializeSpec(h, m).0.size
    // The invariant is kept, and every block lies aligned inside the heap.
    ensures Valid(h) && MappedAligned(m) ==> Valid(r.0)
    ensures Valid(h) && MappedAligned(m) && r.1.Some? ==>
      && r.1.value != Null
      && r.1.value % Alignment == 0
      && r.0.start <= r.1.value
      && r.1.value + n <= r.0.current <= r.0.start + r.0.size
  {
    var (h1, rc) := if h.initialized then (h, 0) else InitializeSpec(h, m);
    if rc != 0 then (h1, None)
    else if h1.current + n > h1.start + h1.size then (h1, None)
    else (h1.(current := h1.current + AlignUp(n)), Some(h1.current))
  }

  /** One call of `runtime_malloc`: the size asked for and what `mmap` would do. */
  datatype Request = Request(n: nat, mmap: MmapOutcome)

  /** A sequence of `runtime_malloc` calls from state `h`: the final statics and
      each call's result, in order. */
  function MallocRun(h: HeapState, reqs: seq<Request>): (r: (HeapState, seq<Option<nat>>))
    ensures |r.1| == |reqs|
  {
    if reqs == [] then (h, [])
    else
      var (h1, ps) := MallocRun(h, reqs[..|reqs| - 1]);
      var last := reqs[|reqs| - 1];
      var (h2, p) := MallocSpec(h1, last.n, last.mmap);
      (h2, ps + [p])
  }

  /** Successive successful allocations hand out aligned blocks inside the heap,
      each one at or after the end of every earlier one padded to a multiple of 8:
      they never overlap. */
  lemma {:induction false} MallocRunBlocksDisjoint(h: HeapState, reqs: seq<Request>)
    requires Valid(h)
    requires forall k :: 0 <= k < |reqs| ==> MappedAligned(reqs[k].mmap)
    ensures var (h', ps) := MallocRun(h, reqs);
      && Valid(h')
      && (forall i :: 0 <= i < |reqs| && ps[i].Some? ==>
            && h'.initialized
            && ps[i].value != Null
            && ps[i].value % Alignment == 0
            && h'.start <= ps[i].value
            && ps[i].value + AlignUp(reqs[i].n) <= h'.current)
      && (forall i, j :: 0 <= i < j < |reqs| && ps[i].Some? && ps[j].Some? ==>
            ps[i].value + AlignUp(reqs[i].n) <= ps[j].value)
  {
    if reqs != [] {
      var prefix := reqs[..|reqs| - 1];
      MallocRunBlocksDisjoint(h, prefix);
      var (h1, ps) := MallocRun(h, prefix);
      var last := reqs[|reqs| - 1];
      var (h2, p) := MallocSpec(h1, last.n, last.mmap);
      assert MappedAligned(last.mmap);
      assert forall k :: 0 <= k < |prefix| ==> prefix[k] == reqs[k];
      assert MallocRun(h, reqs) == (h2, ps + [p]);
      if p.Some? {
        // Earlier blocks exist only once the heap does, so the new block starts at
        // the cursor those blocks end before.
        assert forall i :: 0 <= i < |prefix| && ps[i].Some? ==> h1.initialized && p.value == h1.current;
      }
    }
  }

  /** The allocator as the library holds it: four mutable statics. */
  class Heap {
    var initialized: bool
    var start: nat
    var size: nat
    var current: nat

    /** The statics as a value. */
    function State(): (s: HeapState)
      reads this
    {
      HeapState(initialized, start, size, current)
    }

    /** The statics as the library is loaded. */
    constructor ()
      ensures State() == InitialState
    {
      initialized, start, size, current := false, Null, 0, Null;
    }

    /** `initialize_heap()`, with `m` standing for the `mmap` call. */
    method InitializeHeap(m: MmapOutcome) returns (rc: int)
      modifies this
      ensures (State(), rc) == InitializeSpec(old(State()), m)
      ensures Valid(old(State())) && MappedAligned(m) ==> Valid(State())
    {
      if initialized {
        return 0;
      }
      size := HeapSize;
      match m
      case Failed =>
        start := MapFailed;
        return -1;
      case Mapped(addr) =>
        start := addr;
        current := start;
        initialized := true;
        return 0;
    }

    /** `runtime_malloc(n)`, with `m` standing for the `mmap` call a first
        allocation makes. */
    method Malloc(n: nat, m: MmapOutcome) returns (r: Option<nat>)
      modifies this
      ensures (State(), r) == MallocSpec(old(State()), n, m)
      ensures Valid(old(State())) && MappedAligned(m) ==> Valid(State())
    {
      if !initialized {
        var rc := InitializeHeap(m);
        if rc != 0 {
          return None;
        }
      }
      if current + n > start + size {
        return None;
      }
      r := Some(current);
      current := current + AlignUp(n);
    }

    /** `runtime_free(ptr)`: the allocator never reclaims memory. */
    method Free(ptr: Option<nat>)
      ensures State() == old(State())
    {
    }
  }

  /** `runtime_memcpy(dest, src, n)`: the first `n` bytes of `src` are copied into
      `dest` one at a time, the rest of `dest` is left alone, and `dest` is returned.
      `dest` and `src` may be the same buffer. */
  method Memcpy(dest: array<byte>, src: array<byte>, n: nat) returns (r: array<byte>)
    requires n <= dest.Length && n <= src.Length
    modifies dest
    ensures r == dest
    ensures dest[..n] == old(src[..n])
    ensures dest[n..] == old(dest[n..])
  {
    var i := 0;
    while i < n
      invariant 0 <= i <= n
      invariant forall k :: 0 <= k < i ==> dest[k] == old(src[k])
      invariant forall k :: i <= k < dest.Length ==> dest[k] == old(dest[k])
      invariant src != dest ==> src[..] == old(src[..])
    {
      dest[i] := src[i];
      i := i + 1;
    }
    return dest;
  }
}
