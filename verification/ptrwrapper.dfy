/// `PtrWrapper<T>`: owns one reference to a native object. It releases that
/// reference at most once, from `Dispose` or from the finalizer. It raises
/// `Disposed` only after a successful explicit release.
module PtrWrappers {
  import opened Base
  import opened Int32
  import opened ObTypes
  import opened Native
  import opened HandleOps

  class PtrWrapper {
    /// The wrapped typed pointer (`Value`).
    const handle: Handle
    /// How many times a release was requested. The source keeps it in a
    /// 32-bit `int`. Here it is unbounded (see `CounterAfterAsWritten`).
    var releaseCounter: nat
    /// `GC.SuppressFinalize` has been called.
    var finalizerSuppressed: bool
    /// Native releases issued by this wrapper.
    ghost var releaseCalls: nat
    /// Times the `Disposed` event was raised.
    ghost var disposedRaised: nat

    ghost predicate Valid()
      reads this
    {
      && handle.address != 0
      && releaseCalls == (if releaseCounter > 0 then 1 else 0)
      && disposedRaised <= releaseCalls
      && (finalizerSuppressed <==> disposedRaised == 1)
    }

    constructor (h: Handle)
      requires h.address != 0
      ensures Valid() && handle == h && !IsDisposed() && !finalizerSuppressed && disposedRaised == 0
    {
      handle := h;
      releaseCounter := 0;
      finalizerSuppressed := false;
      releaseCalls := 0;
      disposedRaised := 0;
    }

    /// `new PtrWrapper<T>(ptr)`, also the implicit conversion from a pointer.
    /// A zero pointer is refused with an `ArgumentException`.
    static method Create(h: Handle) returns (r: Result<PtrWrapper>)
      ensures r.Ok? <==> h.address != 0
      ensures r.Throw? ==> r.exc == ArgumentInvalid("ptr")
      ensures r.Ok? ==> fresh(r.value) && r.value.Valid() && r.value.handle == h
      ensures r.Ok? ==> !r.value.IsDisposed() && r.value.disposedRaised == 0
    {
      if h.address == 0 {
        return Throw(ArgumentInvalid("ptr"));
      }
      var w := new PtrWrapper(h);
      return Ok(w);
    }

    predicate IsDisposed()
      reads this
    {
      releaseCounter > 0
    }

    /// `CheckNotDisposed`: throws `ObjectDisposedException` naming the
    /// pointer once a release has been requested.
    method CheckNotDisposed() returns (r: Result<()>)
      ensures r.Throw? <==> IsDisposed()
      ensures r.Throw? ==> r.exc == ObjectDisposed(Describe(handle))
    {
      if releaseCounter > 0 {
        return Throw(ObjectDisposed(Describe(handle)));
      }
      return Ok(());
    }

    /// `ValueNotDisposed`: the wrapped pointer itself while the wrapper is
    /// not disposed. After that, the same exception as `CheckNotDisposed`.
    method ValueNotDisposed() returns (r: Result<Handle>)
      ensures !IsDisposed() ==> r == Ok(handle)
      ensures IsDisposed() ==> r == Throw(ObjectDisposed(Describe(handle)))
    {
      var c := CheckNotDisposed();
      if c.Throw? {
        return Throw(c.exc);
      }
      return Ok(handle);
    }

    /// `ReleasePtr(disposing)`. The first request releases the native
    /// reference. A failed release throws `InvalidOperationException` when
    /// it comes from `Dispose` and is ignored when it comes from the
    /// finalizer. Every later request does nothing and returns false.
    method ReleasePtr(lib: NativeSdk, disposing: bool, err: ErrorPtr) returns (r: Result<bool>)
      requires Valid() && lib.Valid()
      modifies this, lib
      ensures Valid() && lib.Valid()
      ensures releaseCounter == old(releaseCounter) + 1
      ensures finalizerSuppressed == old(finalizerSuppressed) && disposedRaised == old(disposedRaised)
      ensures old(releaseCounter) == 0 ==>
        && lib.state == ReleaseEffect(old(lib.state), handle.address, err)
        && lib.calls == old(lib.calls) + ReleaseCalls(handle, err)
        && r == (if err.Error? && disposing then Throw(InvalidOperation) else Ok(true))
      ensures old(releaseCounter) > 0 ==>
        lib.state == old(lib.state) && lib.calls == old(lib.calls) && r == Ok(false)
    {
      releaseCounter := releaseCounter + 1;
      if releaseCounter == 1 {
        releaseCalls := releaseCalls + 1;
        var ok := Release(lib, handle, err);
        if !ok && disposing {
          return Throw(InvalidOperation);
        }
        return Ok(true);
      }
      return Ok(false);
    }

    /// `Dispose`. The first call releases the native reference. If the
    /// release succeeds, it suppresses finalization and raises `Disposed`;
    /// `raised` tells the owner that its handler runs now. Later calls do
    /// nothing. Valid() keeps the count of `Disposed` events at most one.
    method Dispose(lib: NativeSdk, err: ErrorPtr) returns (r: Result<()>, raised: bool)
      requires Valid() && lib.Valid()
      modifies this, lib
      ensures Valid() && lib.Valid() && IsDisposed()
      ensures raised <==> !old(IsDisposed()) && err.Zero?
      ensures r == if !old(IsDisposed()) && err.Error? then Throw(InvalidOperation) else Ok(())
      ensures disposedRaised == old(disposedRaised) + (if raised then 1 else 0)
      ensures old(IsDisposed()) ==> lib.state == old(lib.state) && lib.calls == old(lib.calls)
      ensures !old(IsDisposed()) ==>
        lib.state == ReleaseEffect(old(lib.state), handle.address, err) &&
        lib.calls == old(lib.calls) + ReleaseCalls(handle, err)
    {
      var released := ReleasePtr(lib, true, err);
      raised := false;
      if released.Throw? {
        return Throw(released.exc), false;
      }
      if released.value {
        finalizerSuppressed := true;
        disposedRaised := disposedRaised + 1;
        raised := true;
      }
      r := Ok(());
    }

    /// The finalizer: `ReleasePtr(disposing: false)`. It never throws and
    /// never raises `Disposed`. The runtime runs it only while finalization
    /// is not suppressed.
    method Finalize(lib: NativeSdk, err: ErrorPtr)
      requires Valid() && lib.Valid() && !finalizerSuppressed
      modifies this, lib
      ensures Valid() && lib.Valid() && IsDisposed() && disposedRaised == old(disposedRaised)
      ensures old(IsDisposed()) ==> lib.state == old(lib.state) && lib.calls == old(lib.calls)
      ensures !old(IsDisposed()) ==>
        lib.state == ReleaseEffect(old(lib.state), handle.address, err) &&
        lib.calls == old(lib.calls) + ReleaseCalls(handle, err)
    {
      var _ := ReleasePtr(lib, false, err);
    }

    /// `GetHashCode`: the low 32 bits of the address.
    function GetHashCode(): (h: int32)
      ensures (h - handle.address) % MODULUS == 0
    {
      Wrap(handle.address)
    }

    /// `Equals(PtrWrapper<T>?)`: same pointer type and same address.
    predicate Equals(other: PtrWrapper?)
    {
      other != null && other.handle.kind == handle.kind && other.handle.address == handle.address
    }

    /// `operator ==`: both null, or the left one equals the right one.
    static predicate OpEquals(left: PtrWrapper?, right: PtrWrapper?)
    {
      (left == null && right == null) || (left != null && left.Equals(right))
    }

    /// `operator !=`.
    static predicate OpNotEquals(left: PtrWrapper?, right: PtrWrapper?)
    {
      !OpEquals(left, right)
    }
  }

  /// `==` on wrappers is an equivalence, and equal wrappers hash alike.
  lemma EqualityIsEquivalence(a: PtrWrapper?, b: PtrWrapper?, c: PtrWrapper?)
    ensures PtrWrapper.OpEquals(a, a)
    ensures PtrWrapper.OpEquals(a, b) == PtrWrapper.OpEquals(b, a)
    ensures PtrWrapper.OpEquals(a, b) && PtrWrapper.OpEquals(b, c) ==> PtrWrapper.OpEquals(a, c)
    ensures PtrWrapper.OpEquals(a, b) && a != null ==> a.GetHashCode() == b.GetHashCode()
    ensures PtrWrapper.OpNotEquals(a, b) <==> !PtrWrapper.OpEquals(a, b)
  {
  }

  /// The release counter as the source keeps it: a 32-bit `int` that
  /// `Interlocked.Increment` wraps from int.MaxValue to int.MinValue. This is
  /// its value after `n` release requests.
  function CounterAfterAsWritten(n: nat): int32
  {
    if n == 0 then 0 else Next(CounterAfterAsWritten(n - 1))
  }

  /// After `n` requests, the 32-bit counter holds `n` wrapped to 32 bits.
  lemma {:induction false} CounterAfterAsWrittenIsWrap(n: nat)
    ensures CounterAfterAsWritten(n) == Wrap(n)
  {
    if n > 0 {
      CounterAfterAsWrittenIsWrap(n - 1);
      WrapThenIncrement(n - 1);
    }
  }

  /// One wrapping increment of `Wrap(m)` is `Wrap(m + 1)`.
  lemma WrapThenIncrement(m: nat)
    ensures Next(Wrap(m)) == Wrap(m + 1)
  {
    var w := Wrap(m);
    assert (w + 1 - (m + 1)) % MODULUS == 0;
    var a, b := Wrap(w + 1), Wrap(m + 1);
    assert (a - b) % MODULUS == 0 by {
      assert a - b == (a - (w + 1)) + (w + 1 - (m + 1)) + ((m + 1) - b);
    }
  }

  /// With the 32-bit counter, the wrapper stops reporting itself disposed
  /// after 2^31 release requests (`IsDisposed` is `releaseCounter > 0`).
  lemma ReleaseCounterWrapsNegative(n: nat)
    requires n == 0x8000_0000
    ensures !(CounterAfterAsWritten(n) > 0)
  {
    assert Wrap(n) == MIN by {
    }
    CounterAfterAsWrittenIsWrap(n);
  }

  /// With the 32-bit counter, the request after 2^32 others sees the
  /// incremented value 1 again. It releases the native object a second time.
  lemma ReleaseCounterWrapsToOne(n: nat)
    requires n == 0x1_0000_0001
    ensures CounterAfterAsWritten(n) == 1
  {
    assert Wrap(n) == 1 by {
    }
    CounterAfterAsWrittenIsWrap(n);
  }
}
