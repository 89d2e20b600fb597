# LLVMGlobalContainer, modelled in Dafny

Sulong, the LLVM bitcode interpreter on Truffle, keeps each global variable in an
`LLVMGlobalContainer`. The cell holds a managed value (`contents`, initially `0L`) and a
native address (`address`, 0 while the global lives only in managed memory). When native
code needs the global's address, `transformToNative` allocates an 8-byte native slot once,
records its address, and stores a 64-bit image of the contents there. `dispose` frees the
slot. The interop messages (HAS_SIZE, GET_SIZE, READ, WRITE, IS_POINTER, AS_POINTER,
TO_NATIVE) and the native-library adapter (`isPointer`, `isNull`, `asPointer`, `toNative`)
are thin views over these operations.

The project has three Dafny files:

- `native_memory.dfy`, module `NativeMemory`: the host's native heap as a value (`Heap`:
  live, pairwise disjoint blocks, stored 64-bit words, next free address). Pure transitions `AllocateBlock`,
  `FreeBlock` and `StoreWord` give `allocateMemory`, `free` and `putI64`. Class
  `LLVMMemory` performs them in place. Module `Optional` holds `Option`.
- `container_spec.dfy`, module `ContainerSpec`: the cell and its heap as a value (`World`),
  the ownership invariant `Valid`, and `Set`, `TransformToNative` and `Dispose` as
  functions whose contracts say what each call does. Lemmas cover pairs of calls
  (idempotence, dispose after materialize, the create/set(42)/materialize/dispose
  lifecycle) and arbitrary call sequences `Run` (the cell touches only its own block; the
  native address and slot are stable until `dispose`; a final `dispose` releases
  everything the cell allocated).
- `global_container.dfy`: class `GlobalContainer.LLVMGlobalContainer` with the fields
  `address` and `contents`. Its methods are proved to perform exactly the transitions of
  `ContainerSpec`. Modules `ContainerForeignAccess` and `GlobalContainerNativeLibrary`
  hold the message handlers and the native-library adapter.

Modelling choices:

- A managed value is `Num(n)` for an integral `java.lang.Number` box, or `Obj(id)` for
  any other object. `LongValue` is `Number.longValue()`: the low 64 bits read as a signed
  long. This is the identity on `Byte`, `Short`, `Integer` and `Long`, and wraps like
  `BigInteger.longValue()`.
- The conversion `LLVMToNativeNode.executeWithTarget(..).asNative()` is a parameter
  `conv: Value -> Option<I64>`. `None` stands for a conversion that throws.
- The exceptions of `allocateMemory` and of the conversion become the `Status` values
  `AllocationFailed` and `ConversionFailed`.
- The memory capability is a method parameter. The source looks it up from the language
  at call time.
- The address is recorded before the conversion runs, as in the code. A conversion that
  throws therefore leaves the cell marked native, with an 8-byte block whose word was never
  written. Later materialization requests then do nothing
  (`ContainerSpec.ConversionFailureIsSticky`). An all-or-nothing materialization would be
  the more natural design, but the model follows the code.
- `set` after materialization does not update the native slot. `NativeAddressIsStable`
  states that the slot keeps its materialization-time value until `dispose`.
- READ and WRITE `assert index == 0`. The model makes this a precondition on callers.

## Model

| member | source | states |
|---|---|---|
| NativeMemory.AllocateBlock | sulong/projects/com.oracle.truffle.llvm.runtime/src/com/oracle/truffle/llvm/runtime/global/LLVMGlobalContainer.java:82-84 | allocation yields a non-zero long address whose new block overlaps no live block, adds exactly that one block of the requested size and leaves stored words alone; a failed allocation changes nothing; the heap stays well formed |
| NativeMemory.FreeBlock | sulong/projects/com.oracle.truffle.llvm.runtime/src/com/oracle/truffle/llvm/runtime/global/LLVMGlobalContainer.java:112-113 | freeing removes exactly that block and its stored word, keeping the heap well formed |
| NativeMemory.StoreWord | sulong/projects/com.oracle.truffle.llvm.runtime/src/com/oracle/truffle/llvm/runtime/global/LLVMGlobalContainer.java:91 | after `putI64` the slot holds the value, every other word is as before, and no block changes |
| NativeMemory.LLVMMemory.AllocateMemory | sulong/projects/com.oracle.truffle.llvm.runtime/src/com/oracle/truffle/llvm/runtime/global/LLVMGlobalContainer.java:83 | the in-place allocator returns and performs exactly `AllocateBlock` |
| NativeMemory.LLVMMemory.Free | sulong/projects/com.oracle.truffle.llvm.runtime/src/com/oracle/truffle/llvm/runtime/global/LLVMGlobalContainer.java:113 | the in-place free performs exactly `FreeBlock` |
| NativeMemory.LLVMMemory.PutI64 | sulong/projects/com.oracle.truffle.llvm.runtime/src/com/oracle/truffle/llvm/runtime/global/LLVMGlobalContainer.java:91 | the in-place store performs exactly `StoreWord` |
| ContainerSpec.LongValue | sulong/projects/com.oracle.truffle.llvm.runtime/src/com/oracle/truffle/llvm/runtime/global/LLVMGlobalContainer.java:86-87 | `longValue()` is a long congruent to the number modulo 2^64, and equal to it whenever the number fits in a long |
| ContainerSpec.Set | sulong/projects/com.oracle.truffle.llvm.runtime/src/com/oracle/truffle/llvm/runtime/global/LLVMGlobalContainer.java:62-64 | `set(v)` makes the contents `v` (so a following `get` returns `v`) and changes neither the address nor native memory, in native or not |
| ContainerSpec.TransformToNative | sulong/projects/com.oracle.truffle.llvm.runtime/src/com/oracle/truffle/llvm/runtime/global/LLVMGlobalContainer.java:80-93 | contents never change; with a non-zero address nothing changes; otherwise exactly one fresh 8-byte block is allocated and its address recorded, and the slot holds `longValue` of a number, or the converter's result, or stays unwritten if the converter fails; allocation failure leaves everything as it was; ownership is kept |
| ContainerSpec.Dispose | sulong/projects/com.oracle.truffle.llvm.runtime/src/com/oracle/truffle/llvm/runtime/global/LLVMGlobalContainer.java:110-116 | afterwards the address is 0 and contents unchanged; with a non-zero address exactly that block and its word are freed; with address 0 nothing changes |
| ContainerSpec.FreshIsValid | sulong/projects/com.oracle.truffle.llvm.runtime/src/com/oracle/truffle/llvm/runtime/global/LLVMGlobalContainer.java:51-56 | a new cell has contents 0 and address 0, and satisfies the ownership invariant on any heap |
| ContainerSpec.TransformIdempotent | sulong/projects/com.oracle.truffle.llvm.runtime/src/com/oracle/truffle/llvm/runtime/global/LLVMGlobalContainer.java:80-81 | once a materialization got past allocation, another one, with any converter, changes nothing |
| ContainerSpec.ConversionFailureIsSticky | sulong/projects/com.oracle.truffle.llvm.runtime/src/com/oracle/truffle/llvm/runtime/global/LLVMGlobalContainer.java:81-90 | a failed conversion leaves the cell marked native with an unwritten slot, and a later materialization does not retry |
| ContainerSpec.DisposeUndoesTransform | sulong/projects/com.oracle.truffle.llvm.runtime/src/com/oracle/truffle/llvm/runtime/global/LLVMGlobalContainer.java:80-116 | materializing a managed cell and then disposing it restores the cell, the live blocks and the stored words exactly |
| ContainerSpec.Lifecycle | sulong/projects/com.oracle.truffle.llvm.runtime/src/com/oracle/truffle/llvm/runtime/global/LLVMGlobalContainer.java:54-116 | create, `set(42)`, materialize: unless allocation fails the address is non-zero and the slot holds 42; dispose: address 0, contents 42, blocks as before |
| ContainerSpec.Run | sulong/projects/com.oracle.truffle.llvm.runtime/src/com/oracle/truffle/llvm/runtime/global/LLVMGlobalContainer.java:58-116 | any sequence of `set`, `transformToNative` and `dispose` keeps the ownership invariant (a non-zero address is a live 8-byte block) |
| ContainerSpec.ApplyKeepsOthers | sulong/projects/com.oracle.truffle.llvm.runtime/src/com/oracle/truffle/llvm/runtime/global/LLVMGlobalContainer.java:80-116 | one call leaves every block and word not owned by the cell as it was |
| ContainerSpec.RunKeepsOthers | sulong/projects/com.oracle.truffle.llvm.runtime/src/com/oracle/truffle/llvm/runtime/global/LLVMGlobalContainer.java:80-116 | over any sequence of calls the cell touches no block or word but its own |
| ContainerSpec.NativeAddressIsStable | sulong/projects/com.oracle.truffle.llvm.runtime/src/com/oracle/truffle/llvm/runtime/global/LLVMGlobalContainer.java:58-93 | once native, the address and the whole native heap (the slot included) stay the same over any sequence of `set` and `transformToNative` calls |
| ContainerSpec.DisposeReleasesOwnedBlock | sulong/projects/com.oracle.truffle.llvm.runtime/src/com/oracle/truffle/llvm/runtime/global/LLVMGlobalContainer.java:110-116 | after any history, a final `dispose` leaves address 0 and exactly the blocks that were live beside the cell at the start |
| GlobalContainer.LLVMGlobalContainer.constructor | sulong/projects/com.oracle.truffle.llvm.runtime/src/com/oracle/truffle/llvm/runtime/global/LLVMGlobalContainer.java:51-56 | a new container has contents `0L` and address 0, so it is not in native |
| GlobalContainer.LLVMGlobalContainer.Get | sulong/projects/com.oracle.truffle.llvm.runtime/src/com/oracle/truffle/llvm/runtime/global/LLVMGlobalContainer.java:58-60 | returns the current contents |
| GlobalContainer.LLVMGlobalContainer.Set | sulong/projects/com.oracle.truffle.llvm.runtime/src/com/oracle/truffle/llvm/runtime/global/LLVMGlobalContainer.java:62-64 | replaces the contents, keeps the address, and modifies nothing but the container (native memory is untouched) |
| GlobalContainer.LLVMGlobalContainer.IsInNative | sulong/projects/com.oracle.truffle.llvm.runtime/src/com/oracle/truffle/llvm/runtime/global/LLVMGlobalContainer.java:66-68 | true exactly when the address is non-zero |
| GlobalContainer.LLVMGlobalContainer.GetAddress | sulong/projects/com.oracle.truffle.llvm.runtime/src/com/oracle/truffle/llvm/runtime/global/LLVMGlobalContainer.java:70-72 | returns the address, 0 when not in native |
| GlobalContainer.LLVMGlobalContainer.GetSize | sulong/projects/com.oracle.truffle.llvm.runtime/src/com/oracle/truffle/llvm/runtime/global/LLVMGlobalContainer.java:74-77 | the container always has one element |
| GlobalContainer.LLVMGlobalContainer.TransformToNative | sulong/projects/com.oracle.truffle.llvm.runtime/src/com/oracle/truffle/llvm/runtime/global/LLVMGlobalContainer.java:79-93 | the in-place check, allocate, record-address, convert, `putI64` sequence produces exactly the state and status of `ContainerSpec.TransformToNative` and keeps ownership |
| GlobalContainer.LLVMGlobalContainer.Dispose | sulong/projects/com.oracle.truffle.llvm.runtime/src/com/oracle/truffle/llvm/runtime/global/LLVMGlobalContainer.java:110-116 | the in-place free-then-reset produces exactly the state of `ContainerSpec.Dispose` |
| ContainerForeignAccess.HasSize | sulong/projects/com.oracle.truffle.llvm.runtime/src/com/oracle/truffle/llvm/runtime/global/LLVMGlobalContainer.java:138-144 | HAS_SIZE is always true |
| ContainerForeignAccess.GetSize | sulong/projects/com.oracle.truffle.llvm.runtime/src/com/oracle/truffle/llvm/runtime/global/LLVMGlobalContainer.java:146-152 | GET_SIZE is always 1 |
| ContainerForeignAccess.Read | sulong/projects/com.oracle.truffle.llvm.runtime/src/com/oracle/truffle/llvm/runtime/global/LLVMGlobalContainer.java:154-161 | READ at index 0 returns the contents |
| ContainerForeignAccess.IsPointer | sulong/projects/com.oracle.truffle.llvm.runtime/src/com/oracle/truffle/llvm/runtime/global/LLVMGlobalContainer.java:163-169 | IS_POINTER is true exactly when the address is non-zero |
| ContainerForeignAccess.AsPointer | sulong/projects/com.oracle.truffle.llvm.runtime/src/com/oracle/truffle/llvm/runtime/global/LLVMGlobalContainer.java:171-177 | AS_POINTER returns the address |
| ContainerForeignAccess.ToNative | sulong/projects/com.oracle.truffle.llvm.runtime/src/com/oracle/truffle/llvm/runtime/global/LLVMGlobalContainer.java:179-194 | TO_NATIVE returns the receiver itself, performs exactly the transition of `ContainerSpec.TransformToNative`, and unless allocation failed leaves the address non-zero |
| ContainerForeignAccess.Write | sulong/projects/com.oracle.truffle.llvm.runtime/src/com/oracle/truffle/llvm/runtime/global/LLVMGlobalContainer.java:196-204 | WRITE at index 0 sets the contents to the value, keeps the address, and returns the value |
| GlobalContainerNativeLibrary.IsPointer | sulong/projects/com.oracle.truffle.llvm.runtime/src/com/oracle/truffle/llvm/runtime/global/LLVMGlobalContainer.java:216-219 | `isPointer` is true exactly when the address is non-zero |
| GlobalContainerNativeLibrary.IsNull | sulong/projects/com.oracle.truffle.llvm.runtime/src/com/oracle/truffle/llvm/runtime/global/LLVMGlobalContainer.java:221-224 | `isNull` is always false |
| GlobalContainerNativeLibrary.AsPointer | sulong/projects/com.oracle.truffle.llvm.runtime/src/com/oracle/truffle/llvm/runtime/global/LLVMGlobalContainer.java:226-229 | `asPointer` returns the address |
| GlobalContainerNativeLibrary.ToNative | sulong/projects/com.oracle.truffle.llvm.runtime/src/com/oracle/truffle/llvm/runtime/global/LLVMGlobalContainer.java:231-242 | `toNative` returns the receiver itself, performs exactly the transition of `ContainerSpec.TransformToNative`, and unless allocation failed leaves the address non-zero |

## Left out

- substratevm/src/com.oracle.svm.core.windows/src/com/oracle/svm/core/windows/WindowsJavaNetSubstitutions.java is not part of this model. It holds JNI reflection registration for the image builder, native method declarations and a native-library initialisation. None of it is behaviour of the container, and all of it is foreign or I/O.
- The real `LLVMMemory` is the host's allocator. It is modelled as a bump allocator over the long address space: it fails only when that space is exhausted and never reuses a freed address. The container's contracts rely only on `AllocateBlock`'s contract: a fresh, non-zero block, or failure with nothing changed.
- The converter is a pure function of the contents. Any side effects of `LLVMToNativeNode`, or dependence on context, are not modelled.
- `Number.longValue()` on `Float` and `Double` boxes (floating-point truncation) is not modelled: `Num` carries only integers.
- The memory capability is a parameter. The lookup `LLVMLanguage.getLanguage().getCapability(..)` is not modelled.
- Truffle plumbing has no behaviour to model and is left out: `getForeignAccess`, `createReadNode`, `createWriteNode`, `getNodeFactory`, `createLLVMObjectNativeLibrary`, the `@CanResolve` check and `guard` instanceof tests, and the lazily inserted `@Child` conversion node with its `transferToInterpreterAndInvalidate`.
- `toString` is cosmetic and is left out.
- Concurrent calls are not modelled. The check-then-allocate in `transformToNative` assumes serialized access.
- Exceptions are modelled as a returned `Status`, not as non-local control flow.
- Read-only calls (`get`, the size and pointer queries) are not part of the call sequences `ContainerSpec.Op`, because they change nothing.
