/**
 * What a global container does, stated on values: the cell (its native
 * address and its managed contents) together with the native heap it
 * allocates from, and the transitions `set`, `transformToNative` and
 * `dispose` make on that pair.  The class in module GlobalContainer is proved
 * to perform exactly these transitions in place.
 */
module ContainerSpec {
  import opened Optional
  import opened NativeMemory

  /**
   * A managed value.  `Num` is any integral `java.lang.Number` box (Byte,
   * Short, Integer, Long, BigInteger); `Obj` is any other managed object,
   * told apart by its identity.
   */
  datatype Value = Num(n: int) | Obj(id: nat)

  /**
   * The host's value-to-native conversion (`LLVMToNativeNode` followed by
   * `asNative`); `None` stands for a conversion that throws.
   */
  type Converter = Value -> Option<I64>

  /** How a materialization ended: normally, or by one of the two exceptions. */
  datatype Status = Done | AllocationFailed | ConversionFailed

  const TwoTo64: int := 0x1_0000_0000_0000_0000

  /** `Number.longValue()` of an integral box: the low 64 bits, read as a signed long. */
  function LongValue(n: int): (r: I64)
    ensures (r - n) % TwoTo64 == 0
    ensures MinI64 <= n <= MaxI64 ==> r == n
  {
    var m := n % TwoTo64;
    if m <= MaxI64 then m else m - TwoTo64
  }

  /** The 64-bit value a materialization stores for `v`, if it can be computed. */
  function NativeValue(v: Value, conv: Converter): Option<I64> {
    match v
    case Num(n) => Some(LongValue(n))
    case Obj(_) => conv(v)
  }

  /** The container's two fields. */
  datatype Cell = Cell(address: I64, contents: Value)

  /** A container together with the native heap it allocates from. */
  datatype World = World(cell: Cell, heap: Heap)

  /**
   * The ownership invariant: the heap is well formed, and a non-zero address
   * is the start of a live 8-byte block.
   */
  ghost predicate Valid(w: World) {
    && HeapValid(w.heap)
    && (w.cell.address != 0 ==>
          w.cell.address in w.heap.blocks && w.heap.blocks[w.cell.address] == 8)
  }

  /** A newly constructed container: contents `0L`, not in native memory. */
  function Fresh(): Cell {
    Cell(0, Num(0))
  }

  /** `set(value)`: only the managed contents change; the native slot is not updated. */
  function Set(w: World, v: Value): (r: World)
    requires Valid(w)
    ensures Valid(r)
    ensures r.cell.contents == v
    ensures r.cell.address == w.cell.address && r.heap == w.heap
  {
    w.(cell := w.cell.(contents := v))
  }

  /**
   * `transformToNative(toNative)`.  Nothing happens when the cell is already
   * in native memory.  Otherwise one 8-byte block is allocated and its address
   * recorded before the value is computed, so a failing conversion leaves the
   * cell marked native with its slot unwritten.
   */
  function TransformToNative(w: World, conv: Converter): (r: (World, Status))
    requires Valid(w)
    ensures Valid(r.0)
    ensures r.0.cell.contents == w.cell.contents
    ensures w.cell.address != 0 ==> r == (w, Done)
    ensures r.1 == AllocationFailed ==> r.0 == w
    ensures w.cell.address == 0 && r.1 != AllocationFailed ==>
      && r.0.cell.address != 0
      && r.0.cell.address !in w.heap.blocks
      && r.0.heap.blocks == w.heap.blocks[r.0.cell.address := 8]
    ensures w.cell.address == 0 && r.1 != AllocationFailed ==>
      match w.cell.contents
      case Num(n) =>
        r.1 == Done && r.0.heap.words == w.heap.words[r.0.cell.address := LongValue(n)]
      case Obj(_) =>
        match conv(w.cell.contents)
        case Some(x) => r.1 == Done && r.0.heap.words == w.heap.words[r.0.cell.address := x]
        case None => r.1 == ConversionFailed && r.0.heap.words == w.heap.words
  {
    if w.cell.address != 0 then (w, Done)
    else
      var (p, h) := AllocateBlock(w.heap, 8);
      match p
      case None => (w, AllocationFailed)
      case Some(a) =>
        var cell := w.cell.(address := a);
        match NativeValue(w.cell.contents, conv)
        case None => (World(cell, h), ConversionFailed)
        case Some(x) => (World(cell, StoreWord(h, a, x)), Done)
  }

  /** `dispose()`: release the cell's block, if it has one, and forget its address. */
  function Dispose(w: World): (r: World)
    requires Valid(w)
    ensures Valid(r)
    ensures r.cell.address == 0 && r.cell.contents == w.cell.contents
    ensures w.cell.address == 0 ==> r == w
    ensures w.cell.address != 0 ==>
      && r.heap.blocks == w.heap.blocks - {w.cell.address}
      && r.heap.words == w.heap.words - {w.cell.address}
  {
    if w.cell.address != 0 then
      World(w.cell.(address := 0), FreeBlock(w.heap, w.cell.address))
    else w
  }

  // ---------------------------------------------------------------------
  // Properties of single calls and of pairs of calls
  // ---------------------------------------------------------------------

  /** A fresh container on any well-formed heap satisfies the ownership invariant. */
  lemma FreshIsValid(h: Heap)
    requires HeapValid(h)
    ensures Valid(World(Fresh(), h))
    ensures Fresh().address == 0 && Fresh().contents == Num(0)
  {
  }

  /** A second materialization allocates nothing and changes nothing. */
  lemma TransformIdempotent(w: World, first: Converter, second: Converter)
    requires Valid(w)
    ensures var (w1, s1) := TransformToNative(w, first);
      s1 != AllocationFailed ==> TransformToNative(w1, second) == (w1, Done)
  {
  }

  /**
   * After a failed conversion the cell stays marked native, its slot is never
   * written, and a later materialization does not retry.
   */
  lemma ConversionFailureIsSticky(w: World, first: Converter, second: Converter)
    requires Valid(w)
    requires TransformToNative(w, first).1 == ConversionFailed
    ensures var w1 := TransformToNative(w, first).0;
      && w1.cell.address != 0
      && w1.cell.address !in w1.heap.words
      && TransformToNative(w1, second) == (w1, Done)
  {
  }

  /** Materializing and then disposing frees exactly the block that was allocated. */
  lemma DisposeUndoesTransform(w: World, conv: Converter)
    requires Valid(w) && w.cell.address == 0
    ensures var w1 := Dispose(TransformToNative(w, conv).0);
      && w1.cell == w.cell
      && w1.heap.blocks == w.heap.blocks
      && w1.heap.words == w.heap.words
  {
  }

  /**
   * The lifecycle scenario: create, `set(42)`, materialize, dispose.  Unless
   * allocation fails, the slot holds 42 while the cell is native, and after
   * disposal the heap's blocks are what they were before.
   */
  lemma Lifecycle(h: Heap, conv: Converter)
    requires HeapValid(h)
    ensures var w1 := Set(World(Fresh(), h), Num(42));
      var (w2, s) := TransformToNative(w1, conv);
      var w3 := Dispose(w2);
      && (s != AllocationFailed ==>
            s == Done && w2.cell.address != 0 && w2.heap.words[w2.cell.address] == 42)
      && w3.cell == Cell(0, Num(42))
      && w3.heap.blocks == h.blocks
  {
  }

  // ---------------------------------------------------------------------
  // Properties of arbitrary sequences of calls
  // ---------------------------------------------------------------------

  /** The calls that change a container. */
  datatype Op = SetOp(v: Value) | TransformOp(conv: Converter) | DisposeOp

  function Apply(w: World, op: Op): (r: World)
    requires Valid(w)
    ensures Valid(r)
  {
    match op
    case SetOp(v) => Set(w, v)
    case TransformOp(conv) => TransformToNative(w, conv).0
    case DisposeOp => Dispose(w)
  }

  /** The state after performing `ops` in order. */
  function Run(w: World, ops: seq<Op>): (r: World)
    requires Valid(w)
    ensures Valid(r)
    decreases |ops|
  {
    if ops == [] then w else Run(Apply(w, ops[0]), ops[1..])
  }

  predicate NoDispose(ops: seq<Op>) {
    forall i :: 0 <= i < |ops| ==> !ops[i].DisposeOp?
  }

  /** The blocks and words of the heap that do not belong to the cell. */
  function Others(w: World): (map<int, nat>, map<int, I64>) {
    (w.heap.blocks - {w.cell.address}, w.heap.words - {w.cell.address})
  }

  lemma ApplyKeepsOthers(w: World, op: Op)
    requires Valid(w)
    ensures Others(Apply(w, op)) == Others(w)
  {
    match op
    case SetOp(v) =>
    case DisposeOp =>
      var w1 := Apply(w, op);
      if w.cell.address != 0 {
        assert 0 !in w1.heap.blocks && 0 !in w1.heap.words;
        assert w1.heap.blocks - {0} == w1.heap.blocks;
        assert w1.heap.words - {0} == w1.heap.words;
      }
    case TransformOp(conv) =>
      var w1 := Apply(w, op);
      if w.cell.address == 0 && w1 != w {
        var p := w1.cell.address;
        assert 0 !in w.heap.blocks && 0 !in w.heap.words;
        assert p !in w.heap.words;
        assert w1.heap.blocks - {p} == w.heap.blocks - {0};
        assert w1.heap.words - {p} == w.heap.words - {0};
      }
  }

  /**
   * Whatever calls are made, the cell touches no block and no word other
   * than its own: ownership of its allocation is never shared.
   */
  lemma {:induction false} RunKeepsOthers(w: World, ops: seq<Op>)
    requires Valid(w)
    ensures Others(Run(w, ops)) == Others(w)
    decreases |ops|
  {
    if ops != [] {
      ApplyKeepsOthers(w, ops[0]);
      RunKeepsOthers(Apply(w, ops[0]), ops[1..]);
    }
  }

  /**
   * Once the cell is in native memory its address never changes and its
   * slot keeps the value written at materialization, whatever `set` and
   * `transformToNative` calls follow, until `dispose`.
   */
  lemma {:induction false} NativeAddressIsStable(w: World, ops: seq<Op>)
    requires Valid(w) && w.cell.address != 0 && NoDispose(ops)
    ensures Run(w, ops).cell.address == w.cell.address
    ensures Run(w, ops).heap == w.heap
    decreases |ops|
  {
    if ops != [] {
      assert !ops[0].DisposeOp?;
      assert NoDispose(ops[1..]) by {
        forall i | 0 <= i < |ops[1..]| ensures !ops[1..][i].DisposeOp? {
          assert ops[1..][i] == ops[i + 1];
        }
      }
      NativeAddressIsStable(Apply(w, ops[0]), ops[1..]);
    }
  }

  /**
   * A final `dispose` releases every block the cell ever allocated: after
   * any history, the live blocks are exactly those that were live beside the
   * cell at the start.
   */
  lemma DisposeReleasesOwnedBlock(w: World, ops: seq<Op>)
    requires Valid(w)
    ensures Dispose(Run(w, ops)).heap.blocks == w.heap.blocks - {w.cell.address}
    ensures Dispose(Run(w, ops)).cell.address == 0
  {
    var w1 := Run(w, ops);
    RunKeepsOthers(w, ops);
    assert 0 !in w1.heap.blocks;
  }
}
