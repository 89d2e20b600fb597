/**
 * The storage cell the LLVM interpreter uses for a global variable.  It holds
 * a managed value and, once something needs the global's native address, an
 * 8-byte native slot mirroring that value.  The memory capability, which the
 * source looks up from the language at call time, is a parameter here.
 */
module GlobalContainer {
  import opened NativeMemory
  import opened ContainerSpec

  class LLVMGlobalContainer {
    var address: I64
    var contents: Value

    ghost function State(mem: LLVMMemory): World
      reads this, mem
    {
      World(Cell(address, contents), mem.State())
    }

    /** The container owns its slot in `mem` (see ContainerSpec.Valid). */
    ghost predicate Valid(mem: LLVMMemory)
      reads this, mem
    {
      ContainerSpec.Valid(State(mem))
    }

    constructor ()
      ensures Cell(address, contents) == Fresh()
      ensures address == 0 && contents == Num(0)
    {
      address := 0;
      contents := Num(0);
    }

    method Get() returns (v: Value)
      ensures v == contents
    {
      v := contents;
    }

    method Set(v: Value)
      modifies this
      ensures contents == v && address == old(address)
    {
      contents := v;
    }

    method IsInNative() returns (b: bool)
      ensures b <==> address != 0
    {
      b := address != 0;
    }

    method GetAddress() returns (a: I64)
      ensures a == address
    {
      a := address;
    }

    method GetSize() returns (n: int)
      ensures n == 1
    {
      n := 1;
    }

    /**
     * Moves the global into native memory unless it is there already; the
     * whole new state is the one ContainerSpec.TransformToNative describes.
     */
    method TransformToNative(mem: LLVMMemory, conv: Converter) returns (status: Status)
      requires Valid(mem)
      modifies this, mem
      ensures Valid(mem)
      ensures (State(mem), status) == ContainerSpec.TransformToNative(old(State(mem)), conv)
    {
      status := Done;
      if address == 0 {
        var pointer := mem.AllocateMemory(8);
        if pointer.None? {
          return AllocationFailed;
        }
        address := pointer.value;
        var value: I64;
        if contents.Num? {
          value := LongValue(contents.n);
        } else {
          var converted := conv(contents);
          if converted.None? {
            return ConversionFailed;
          }
          value := converted.value;
        }
        mem.PutI64(pointer.value, value);
      }
    }

    /** Frees the native slot, if there is one, and marks the cell managed again. */
    method Dispose(mem: LLVMMemory)
      requires Valid(mem)
      modifies this, mem
      ensures Valid(mem)
      ensures State(mem) == ContainerSpec.Dispose(old(State(mem)))
    {
      if address != 0 {
        mem.Free(address);
        address := 0;
      }
    }
  }
}

/** The interop messages the host resolves on a global container. */
module ContainerForeignAccess {
  import opened NativeMemory
  import opened ContainerSpec
  import opened GlobalContainer

  method HasSize(receiver: LLVMGlobalContainer) returns (r: bool)
    ensures r
  {
    r := true;
  }

  method GetSize(receiver: LLVMGlobalContainer) returns (r: int)
    ensures r == 1
  {
    r := receiver.GetSize();
  }

  /** READ: only index 0 exists. */
  method Read(receiver: LLVMGlobalContainer, index: int) returns (r: Value)
    requires index == 0
    ensures r == receiver.contents
  {
    r := receiver.Get();
  }

  method IsPointer(receiver: LLVMGlobalContainer) returns (r: bool)
    ensures r <==> receiver.address != 0
  {
    var a := receiver.GetAddress();
    r := a != 0;
  }

  method AsPointer(receiver: LLVMGlobalContainer) returns (r: I64)
    ensures r == receiver.address
  {
    r := receiver.GetAddress();
  }

  /** TO_NATIVE: materialize if needed and answer with the receiver itself. */
  method ToNative(receiver: LLVMGlobalContainer, mem: LLVMMemory, conv: Converter)
    returns (r: LLVMGlobalContainer, status: Status)
    requires receiver.Valid(mem)
    modifies receiver, mem
    ensures r == receiver && receiver.Valid(mem)
    ensures (receiver.State(mem), status) ==
            ContainerSpec.TransformToNative(old(receiver.State(mem)), conv)
    ensures status != AllocationFailed ==> receiver.address != 0
  {
    status := Done;
    var a := receiver.GetAddress();
    if a == 0 {
      status := receiver.TransformToNative(mem, conv);
    }
    r := receiver;
  }

  /** WRITE: only index 0 exists; the written value is the answer. */
  method Write(receiver: LLVMGlobalContainer, index: int, value: Value) returns (r: Value)
    requires index == 0
    modifies receiver
    ensures r == value
    ensures receiver.contents == value && receiver.address == old(receiver.address)
  {
    receiver.Set(value);
    r := value;
  }
}

/** The native-library view of a global container. */
module GlobalContainerNativeLibrary {
  import opened NativeMemory
  import opened ContainerSpec
  import opened GlobalContainer

  method IsPointer(obj: LLVMGlobalContainer) returns (r: bool)
    ensures r <==> obj.address != 0
  {
    r := obj.address != 0;
  }

  /** A global container is never the null pointer. */
  method IsNull(obj: LLVMGlobalContainer) returns (r: bool)
    ensures !r
  {
    r := false;
  }

  method AsPointer(obj: LLVMGlobalContainer) returns (r: I64)
    ensures r == obj.address
  {
    r := obj.address;
  }

  method ToNative(obj: LLVMGlobalContainer, mem: LLVMMemory, conv: Converter)
    returns (r: LLVMGlobalContainer, status: Status)
    requires obj.Valid(mem)
    modifies obj, mem
    ensures r == obj && obj.Valid(mem)
    ensures (obj.State(mem), status) == ContainerSpec.TransformToNative(old(obj.State(mem)), conv)
    ensures status != AllocationFailed ==> obj.address != 0
  {
    status := Done;
    if obj.address == 0 {
      status := obj.TransformToNative(mem, conv);
    }
    r := obj;
  }
}
