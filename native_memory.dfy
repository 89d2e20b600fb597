/** A value that may be absent. */
module Optional {
  datatype Option<T> = None | Some(value: T)
}

/**
 * The host's native heap, as far as a global container uses it: blocks
 * obtained with `allocateMemory`, released with `free`, and 64-bit words
 * written with `putI64`.  The allocator is the host's; it is modelled here as
 * a bump allocator over the 64-bit address space, and the container relies
 * only on the contract of `AllocateBlock` (a fresh, non-zero, live block of
 * the requested size, or failure with nothing changed).
 */
module NativeMemory {
  import opened Optional

  const MinI64: int := -0x8000_0000_0000_0000
  const MaxI64: int := 0x7fff_ffff_ffff_ffff

  /** A Java `long`. */
  type I64 = x: int | MinI64 <= x <= MaxI64

  /**
   * The native heap: live blocks (start address to size in bytes), the
   * 64-bit words stored at block starts, and the allocator's next free address.
   */
  datatype Heap = Heap(blocks: map<int, nat>, words: map<int, I64>, top: int)

  /** Live blocks are non-empty, disjoint, below `top`, at non-zero long addresses. */
  ghost predicate HeapValid(h: Heap) {
    && 0 < h.top <= MaxI64 + 1
    && (forall a :: a in h.blocks ==> 0 < a && 0 < h.blocks[a] && a + h.blocks[a] <= h.top)
    && (forall a, b :: a in h.blocks && b in h.blocks && a < b ==> a + h.blocks[a] <= b)
    && h.words.Keys <= h.blocks.Keys
  }

  /** A heap with nothing allocated. */
  function EmptyHeap(): (h: Heap)
    ensures HeapValid(h) && h.blocks == map[] && h.words == map[]
  {
    Heap(map[], map[], 1)
  }

  /** `allocateMemory(size)`: a fresh non-zero block, or failure with the heap unchanged. */
  function AllocateBlock(h: Heap, size: nat): (r: (Option<I64>, Heap))
    requires HeapValid(h) && size > 0
    ensures HeapValid(r.1)
    ensures r.0.None? ==> r.1 == h
    ensures r.0.Some? ==>
      && r.0.value > 0
      && r.0.value !in h.blocks
      && (forall b :: b in h.blocks ==> b + h.blocks[b] <= r.0.value || r.0.value + size <= b)
      && r.1.blocks == h.blocks[r.0.value := size]
      && r.1.words == h.words
  {
    if h.top > MaxI64 + 1 - size then (None, h)
    else (Some(h.top), Heap(h.blocks[h.top := size], h.words, h.top + size))
  }

  /** `free(address)`: the block and whatever was stored in it are gone. */
  function FreeBlock(h: Heap, a: int): (r: Heap)
    requires HeapValid(h) && a in h.blocks
    ensures HeapValid(r)
    ensures a !in r.blocks && a !in r.words
    ensures r.blocks == h.blocks - {a} && r.words == h.words - {a}
  {
    h.(blocks := h.blocks - {a}, words := h.words - {a})
  }

  /** `putI64(address, value)`: one word of a live block now holds `value`. */
  function StoreWord(h: Heap, a: int, v: I64): (r: Heap)
    requires HeapValid(h) && a in h.blocks
    ensures HeapValid(r)
    ensures r.blocks == h.blocks
    ensures a in r.words && r.words[a] == v
    ensures forall b :: b != a ==> (b in r.words <==> b in h.words)
    ensures forall b :: b != a && b in h.words ==> r.words[b] == h.words[b]
  {
    h.(words := h.words[a := v])
  }

  /** The host's memory capability; its contents are specification-only. */
  class LLVMMemory {
    ghost var blocks: map<int, nat>
    ghost var words: map<int, I64>
    var top: int

    ghost function State(): Heap
      reads this
    {
      Heap(blocks, words, top)
    }

    ghost predicate Valid()
      reads this
    {
      HeapValid(State())
    }

    constructor ()
      ensures Valid() && State() == EmptyHeap()
    {
      blocks, words, top := map[], map[], 1;
    }

    method AllocateMemory(size: nat) returns (p: Option<I64>)
      requires Valid() && size > 0
      modifies this
      ensures Valid()
      ensures (p, State()) == AllocateBlock(old(State()), size)
    {
      if top > MaxI64 + 1 - size {
        p := None;
      } else {
        p := Some(top);
        blocks := blocks[top := size];
        top := top + size;
      }
    }

    method Free(a: int)
      requires Valid() && a in blocks
      modifies this
      ensures Valid()
      ensures State() == FreeBlock(old(State()), a)
    {
      blocks := blocks - {a};
      words := words - {a};
    }

    method PutI64(a: int, v: I64)
      requires Valid() && a in blocks
      modifies this
      ensures Valid()
      ensures State() == StoreWord(old(State()), a, v)
    {
      words := words[a := v];
    }
  }
}
