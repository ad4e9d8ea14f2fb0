/// `Frame.CreateFromMemory` and the table of pinned memory contexts behind
/// it. A native frame over a `Memory<T>` cannot carry a managed object as
/// its callback context. So the owner and the pin handle are stored in a
/// static table under an integer key, and the key travels as the context.
module PinnedMemory {
  import opened Base
  import opened Int32
  import opened ObTypes
  import opened Native
  import opened ObException
  import opened Registry
  import opened Frames

  /// A `PinnedMemoryContext`: the memory owner and the pin handle of its
  /// memory, both named by object identities.
  datatype PinnedContext = PinnedContext(owner: nat, memoryHandle: nat)

  /// A `Dispose` call made by `Destroy`.
  datatype Disposal = HandleDisposed(memoryHandle: nat) | OwnerDisposed(owner: nat)

  /// The static `contexts` dictionary, with what its operations do besides
  /// changing it: the `Dispose` calls, and the keys of trace warnings.
  class ContextTable {
    var contexts: map<int32, PinnedContext>
    ghost var disposals: seq<Disposal>
    ghost var warnings: seq<int>

    constructor ()
      ensures contexts == map[] && disposals == [] && warnings == []
    {
      contexts := map[];
      disposals := [];
      warnings := [];
    }

    /// `PinnedMemoryContext.Create`: stores `ctx` under the first free key
    /// from the owner's identity hash upwards, wrapping from int.MaxValue to
    /// int.MinValue, and returns that key.
    method Create(ctx: PinnedContext, hash: int32) returns (key: int32)
      requires |contexts| < MODULUS
      modifies this
      ensures FirstFree(old(contexts).Keys, hash, 0).Some?
      ensures key == Probe(hash, FirstFree(old(contexts).Keys, hash, 0).value)
      ensures key !in old(contexts) && contexts == old(contexts)[key := ctx]
      ensures disposals == old(disposals) && warnings == old(warnings)
    {
      var first := FirstFree(contexts.Keys, hash, 0);
      if first.None? {
        NoFreeSlotNeedsFullMap(contexts.Keys, hash);
        assert false;
      }
      key := hash;
      ghost var k: nat := 0;
      while key in contexts
        invariant contexts == old(contexts) && disposals == old(disposals) && warnings == old(warnings)
        invariant k <= first.value && key == Probe(hash, k)
        decreases first.value - k
      {
        ProbeStep(hash, k);
        key := if key < MAX then key + 1 else MIN;
        k := k + 1;
      }
      contexts := contexts[key := ctx];
    }

    /// `PinnedMemoryContext.Destroy`, the body of the frames' destroy
    /// callback.
    /// - `IntPtr.ToInt32` throws `OverflowException` for a value outside the
    ///   32-bit range.
    /// - An unknown key only logs a warning.
    /// - Otherwise the context is removed, and its pin handle and then its
    ///   owner are disposed.
    method Destroy(ptr: Address) returns (r: Result<()>)
      modifies this
      ensures !(MIN <= ptr <= MAX) ==> r == Throw(Overflow)
      ensures MIN <= ptr <= MAX ==> r == Ok(())
      ensures ptr !in old(contexts) ==> contexts == old(contexts) && disposals == old(disposals)
      ensures warnings == old(warnings) + (if MIN <= ptr <= MAX && ptr !in old(contexts) then [ptr] else [])
      ensures ptr in old(contexts) ==>
        && contexts == old(contexts) - {ptr}
        && disposals == old(disposals) + [HandleDisposed(old(contexts)[ptr].memoryHandle), OwnerDisposed(old(contexts)[ptr].owner)]
    {
      if !(MIN <= ptr <= MAX) {
        return Throw(Overflow);
      }
      var key := ptr;
      if key !in contexts {
        warnings := warnings + [key];
        return Ok(());
      }
      var context := contexts[key];
      contexts := contexts - {key};
      disposals := disposals + [HandleDisposed(context.memoryHandle), OwnerDisposed(context.owner)];
      return Ok(());
    }
  }

  /// A context stored by `Create` is found again by the destroy callback
  /// under the returned key: the two together leave the table as it was and
  /// dispose exactly that context's pin handle and owner.
  method CreateThenDestroy(table: ContextTable, ctx: PinnedContext, hash: int32) returns (key: int32)
    requires |table.contexts| < MODULUS
    modifies table
    ensures table.contexts == old(table.contexts) && table.warnings == old(table.warnings)
    ensures table.disposals == old(table.disposals) + [HandleDisposed(ctx.memoryHandle), OwnerDisposed(ctx.owner)]
  {
    key := table.Create(ctx, hash);
    var _ := table.Destroy(key);
    assert table.contexts == old(table.contexts);
  }

  /// `Frame.CreateFromMemory<T>(memoryOwner, format, width, height)`.
  /// - A null owner throws `ArgumentNullException`.
  /// - Otherwise the memory is pinned, its context is stored, and the SDK
  ///   is asked for a frame over the buffer with the context key as the
  ///   callback context.
  /// - The byte size is `memory.Length * sizeof(T)` in unchecked 32-bit
  ///   arithmetic, passed as `uint`.
  /// - When the SDK reports an error, the exception is thrown and the
  ///   context stays in the table.
  method CreateFromMemory(lib: NativeSdk, table: ContextTable, owner: Option<nat>, memoryHandle: nat, ownerHash: int32,
                          memoryLength: nat, elementSize: nat, format: int, width: int32, height: int32,
                          a: Address, nativeType: int, createErr: ErrorPtr, typeErr: ErrorPtr)
    returns (r: Result<Frame>, key: int32)
    requires lib.Valid() && |table.contexts| < MODULUS
    modifies lib, table
    ensures lib.Valid()
    ensures owner.None? ==> r == Throw(ArgumentNull("memoryOwner")) && lib.state == old(lib.state) && lib.calls == old(lib.calls)
    ensures owner.None? ==> table.contexts == old(table.contexts)
    ensures owner.Some? ==>
      && key !in old(table.contexts) && table.contexts == old(table.contexts)[key := PinnedContext(owner.value, memoryHandle)]
      && |lib.calls| > |old(lib.calls)|
      && lib.calls[|old(lib.calls)|] == NativeCall(Fn.CreateFrameFromBuffer, 0,
           [format, WrapUnsigned(width), WrapUnsigned(height), WrapUnsigned(Wrap(memoryLength * elementSize)), key])
    ensures owner.Some? && Thrown(createErr).Some? ==> r == Throw(Thrown(createErr).value) && lib.state == old(lib.state)
    ensures r.Ok? ==> owner.Some? && Thrown(createErr).None? && a != 0
    ensures r.Ok? ==> fresh(r.value) && r.value.Valid() && !r.value.IsDisposed() && r.value.ptr.handle == Handle(HandleKind.Frame, a)
    ensures owner.Some? && createErr.Zero? && a != 0 && a !in old(lib.state.refs) ==>
      (r.Ok? <==> Thrown(typeErr).None? && ClassFor(nativeType).Some?)
    ensures table.disposals == old(table.disposals) && table.warnings == old(table.warnings)
  {
    if owner.None? {
      return Throw(ArgumentNull("memoryOwner")), 0;
    }
    var sizeBytes := Wrap(memoryLength * elementSize);
    key := table.Create(PinnedContext(owner.value, memoryHandle), ownerHash);
    lib.CreateFrame(Fn.CreateFrameFromBuffer, a, nativeType, None,
      [format, WrapUnsigned(width), WrapUnsigned(height), WrapUnsigned(sizeBytes), key], createErr);
    var c := Check(lib, createErr);
    if c.Throw? {
      return Throw(c.exc), key;
    }
    r := Frame.FromHandle(lib, Handle(HandleKind.Frame, a), typeErr);
  }
}
