/// The shared shape of the five native list wrappers (`DeviceList`,
/// `SensorList`, `StreamProfileList`, `CameraParamList`,
/// `DepthWorkModeList`). Each of them:
/// - owns one native list through a `PtrWrapper`;
/// - reads `Count` once, through a thread-safe `Lazy<int>` whose factory
///   casts the native unsigned count to `int`;
/// - checks indexes against `Count`;
/// - forwards its wrapper's `Disposed` event once, detaching its handler.
/// The five source classes repeat this code member for member. It is
/// modelled once here; the item-specific members are in one module per
/// list.
module NativeLists {
  import opened Base
  import opened Int32
  import opened ObTypes
  import opened Native
  import opened HandleOps
  import opened ObException
  import opened PtrWrappers
  import opened Helpers

  predicate IsListKind(kind: HandleKind)
  {
    kind in {HandleKind.DeviceList, HandleKind.SensorList, HandleKind.StreamProfileList,
             HandleKind.CameraParamList, HandleKind.DepthWorkModeList}
  }

  /// The native count getter of each list.
  function CountGetter(kind: HandleKind): string
  {
    match kind
    case DeviceList => "ob_device_list_device_count"
    case SensorList => "ob_sensor_list_get_sensor_count"
    case StreamProfileList => "ob_stream_profile_list_count"
    case CameraParamList => "ob_camera_param_list_count"
    case DepthWorkModeList => "ob_depth_work_mode_list_count"
    case _ => ""
  }

  /// What the `Count` factory leaves in the `Lazy`: the native count cast
  /// to `int`, or the exception the getter threw, which the `Lazy` caches.
  function CountOutcome(disposed: bool, h: Handle, nativeCount: uint32, err: ErrorPtr): (l: Lazy<int32>)
    ensures !l.NotCreated?
    ensures l.Created? <==> !disposed && Thrown(err).None?
    ensures l.Created? ==> l.value == Wrap(nativeCount) && (l.value < 0 <==> nativeCount > MAX)
    ensures l.Faulted? ==> Throw(l.exc) == GetValueResult(disposed, h, nativeCount, err)
  {
    match GetValueResult(disposed, h, nativeCount, err)
    case Ok(v) => Created(Wrap(v))
    case Throw(e) => Faulted(e)
  }

  /// The native calls the first read of `Count` makes: none when the
  /// `Lazy` is already initialised or the wrapper is disposed, otherwise
  /// the count getter and its error check.
  function CountCalls(notCreated: bool, disposed: bool, h: Handle, err: ErrorPtr): (calls: seq<NativeCall>)
    ensures |calls| > 0 <==> notCreated && !disposed
  {
    if notCreated && !disposed then [NativeCall(Getter(CountGetter(h.kind)), h.address, [])] + CheckErrorCalls(err, true)
    else []
  }

  /// `Lazy.Value` of an initialised `Lazy`.
  function Forced<T>(l: Lazy<T>): (r: Result<T>)
    requires !l.NotCreated?
    ensures r.Ok? <==> l.Created?
  {
    if l.Created? then Ok(l.value) else Throw(l.exc)
  }

  /// `index < 0 || index >= Count`, as the indexers write it: a negative
  /// index throws `IndexOutOfRangeException` without reading `Count`.
  function BoundsCheck(index: int, count: Result<int32>): (r: Result<()>)
    ensures r.Ok? <==> count.Ok? && 0 <= index < count.value
    ensures index < 0 ==> r == Throw(IndexOutOfRange)
  {
    if index < 0 then Throw(IndexOutOfRange)
    else if count.Throw? then Throw(count.exc)
    else if index >= count.value then Throw(IndexOutOfRange)
    else Ok(())
  }

  /// `index < 0 | index >= Count`, as `DeviceList.GetDevice` writes it:
  /// the non-short-circuit `|` reads `Count` even for a negative index.
  function BoundsCheckEager(index: int, count: Result<int32>): (r: Result<()>)
    ensures r.Ok? <==> count.Ok? && 0 <= index < count.value
    ensures count.Throw? ==> r == Throw(count.exc)
  {
    if count.Throw? then Throw(count.exc)
    else if index < 0 || index >= count.value then Throw(IndexOutOfRange)
    else Ok(())
  }

  /// The two checks agree except on a negative index when reading `Count`
  /// throws: then `GetDevice` reports the `Count` exception and the
  /// indexer reports `IndexOutOfRangeException`.
  lemma BoundsChecksDiffer(index: int, count: Result<int32>)
    ensures BoundsCheck(index, count) != BoundsCheckEager(index, count)
      <==> index < 0 && count.Throw? && count.exc != IndexOutOfRange
  {
  }

  class NativeList {
    const ptr: PtrWrapper
    /// The number of items the native list reports.
    const nativeCount: uint32
    /// `lazyCount`
    var lazyCount: Lazy<int32>
    /// Whether the handler forwarding the wrapper's `Disposed` event is
    /// still attached.
    var forwarding: bool
    /// Times this list's own `Disposed` event was raised.
    ghost var disposedRaised: nat

    /// The list raises its own `Disposed` exactly when its wrapper does,
    /// and a created count is the native count cast to `int`.
    ghost predicate Valid()
      reads this, ptr
    {
      && ptr.Valid() && IsListKind(ptr.handle.kind)
      && disposedRaised == ptr.disposedRaised
      && (forwarding <==> disposedRaised == 0)
      && (lazyCount.Created? ==> lazyCount.value == Wrap(nativeCount))
    }

    /// The list constructors: store the wrapper, attach the forwarding
    /// handler, and leave `Count` unread.
    constructor (p: PtrWrapper, n: uint32)
      requires p.Valid() && IsListKind(p.handle.kind) && p.disposedRaised == 0
      ensures Valid() && ptr == p && nativeCount == n
      ensures lazyCount == NotCreated && forwarding && disposedRaised == 0
    {
      ptr := p;
      nativeCount := n;
      lazyCount := NotCreated;
      forwarding := true;
      disposedRaised := 0;
    }

    predicate IsDisposed()
      reads ptr
    {
      ptr.IsDisposed()
    }

    /// `Count`: the first read runs the factory and caches its value or
    /// its exception. Every later read returns the cache and makes no
    /// native call.
    method Count(lib: NativeSdk, err: ErrorPtr) returns (r: Result<int32>)
      requires Valid() && lib.Valid()
      modifies this, lib
      ensures Valid() && lib.Valid() && lib.state == old(lib.state)
      ensures forwarding == old(forwarding) && disposedRaised == old(disposedRaised)
      ensures old(lazyCount).NotCreated? ==> lazyCount == CountOutcome(ptr.IsDisposed(), ptr.handle, nativeCount, err)
      ensures !old(lazyCount).NotCreated? ==> lazyCount == old(lazyCount)
      ensures lib.calls == old(lib.calls) + CountCalls(old(lazyCount).NotCreated?, ptr.IsDisposed(), ptr.handle, err)
      ensures !lazyCount.NotCreated? && r == Forced(lazyCount)
    {
      if lazyCount.NotCreated? {
        var v := GetValue(lib, ptr, CountGetter(ptr.handle.kind), nativeCount, err);
        lazyCount := if v.Ok? then Created(Wrap(v.value)) else Faulted(v.exc);
      }
      r := Forced(lazyCount);
    }

    /// The indexers' bounds check, `index < 0 || index >= Count`.
    method CheckIndex(lib: NativeSdk, index: int, err: ErrorPtr) returns (r: Result<()>)
      requires Valid() && lib.Valid()
      modifies this, lib
      ensures Valid() && lib.Valid() && lib.state == old(lib.state)
      ensures forwarding == old(forwarding) && disposedRaised == old(disposedRaised)
      ensures index < 0 ==> r == Throw(IndexOutOfRange) && lazyCount == old(lazyCount) && lib.calls == old(lib.calls)
      ensures index >= 0 ==>
        && lazyCount == (if old(lazyCount).NotCreated? then CountOutcome(ptr.IsDisposed(), ptr.handle, nativeCount, err) else old(lazyCount))
        && lib.calls == old(lib.calls) + CountCalls(old(lazyCount).NotCreated?, ptr.IsDisposed(), ptr.handle, err)
      ensures index >= 0 ==> !lazyCount.NotCreated? && r == BoundsCheck(index, Forced(lazyCount))
    {
      if index < 0 {
        return Throw(IndexOutOfRange);
      }
      var c := Count(lib, err);
      r := BoundsCheck(index, c);
    }

    /// `GetDevice`'s bounds check, `index < 0 | index >= Count`: it reads
    /// `Count` whatever the index.
    method CheckIndexEager(lib: NativeSdk, index: int, err: ErrorPtr) returns (r: Result<()>)
      requires Valid() && lib.Valid()
      modifies this, lib
      ensures Valid() && lib.Valid() && lib.state == old(lib.state)
      ensures forwarding == old(forwarding) && disposedRaised == old(disposedRaised)
      ensures lazyCount == (if old(lazyCount).NotCreated? then CountOutcome(ptr.IsDisposed(), ptr.handle, nativeCount, err) else old(lazyCount))
      ensures lib.calls == old(lib.calls) + CountCalls(old(lazyCount).NotCreated?, ptr.IsDisposed(), ptr.handle, err)
      ensures !lazyCount.NotCreated? && r == BoundsCheckEager(index, Forced(lazyCount))
    {
      var c := Count(lib, err);
      r := BoundsCheckEager(index, c);
    }

    /// `Dispose`: disposes the wrapper. Its first successful release runs
    /// the forwarding handler, which detaches itself and raises the list's
    /// `Disposed` event.
    method Dispose(lib: NativeSdk, err: ErrorPtr) returns (r: Result<()>)
      requires Valid() && lib.Valid()
      modifies this, ptr, lib
      ensures Valid() && lib.Valid() && IsDisposed() && lazyCount == old(lazyCount)
      ensures r == if !old(IsDisposed()) && err.Error? then Throw(InvalidOperation) else Ok(())
      ensures disposedRaised == old(disposedRaised) + (if !old(IsDisposed()) && err.Zero? then 1 else 0)
      ensures disposedRaised <= 1
      ensures old(IsDisposed()) ==> lib.state == old(lib.state) && lib.calls == old(lib.calls)
      ensures !old(IsDisposed()) ==>
        lib.state == ReleaseEffect(old(lib.state), ptr.handle.address, err) &&
        lib.calls == old(lib.calls) + ReleaseCalls(ptr.handle, err)
    {
      var raised;
      r, raised := ptr.Dispose(lib, err);
      if raised && forwarding {
        forwarding := false;
        disposedRaised := disposedRaised + 1;
      }
    }

    /// `GetHashCode`: the wrapper's hash.
    function GetHashCode(): int32
    {
      ptr.GetHashCode()
    }
  }

  /// `DeviceListItem` and `SensorListItem`: a view of one position of its
  /// owner list. It holds no native resource of its own, and its
  /// properties read through the owner's pointer.
  datatype ListItem = ListItem(owner: NativeList, index: int)

  /// The indexers of `DeviceList` and `SensorList`: check the index, then
  /// return a view of that position. No native call is made for the item.
  method GetItem(lib: NativeSdk, list: NativeList, index: int, err: ErrorPtr) returns (r: Result<ListItem>)
    requires list.Valid() && lib.Valid()
    modifies list, lib
    ensures list.Valid() && lib.Valid() && lib.state == old(lib.state)
    ensures list.forwarding == old(list.forwarding) && list.disposedRaised == old(list.disposedRaised)
    ensures index < 0 ==> r == Throw(IndexOutOfRange) && list.lazyCount == old(list.lazyCount) && lib.calls == old(lib.calls)
    ensures index >= 0 ==>
      && list.lazyCount == (if old(list.lazyCount).NotCreated? then CountOutcome(list.ptr.IsDisposed(), list.ptr.handle, list.nativeCount, err) else old(list.lazyCount))
      && lib.calls == old(lib.calls) + CountCalls(old(list.lazyCount).NotCreated?, list.ptr.IsDisposed(), list.ptr.handle, err)
      && r == (match BoundsCheck(index, Forced(list.lazyCount))
               case Ok(_) => Ok(ListItem(list, index))
               case Throw(e) => Throw(e))
    ensures r.Ok? <==> list.lazyCount.Created? && 0 <= index < list.lazyCount.value
  {
    var c := list.CheckIndex(lib, index, err);
    if c.Throw? {
      return Throw(c.exc);
    }
    return Ok(ListItem(list, index));
  }

  /// `GetEnumerator` of `DeviceList` and `SensorList`: reads `Count`, then
  /// yields `this[0]` … `this[Count-1]`.
  /// Once `Count` is known, no item can fail its bounds check, so the
  /// items are exactly the positions below `Count`, in order.
  method EnumerateItems(lib: NativeSdk, list: NativeList, err: ErrorPtr) returns (r: Result<seq<ListItem>>)
    requires list.Valid() && lib.Valid()
    modifies list, lib
    ensures list.Valid() && lib.Valid() && lib.state == old(lib.state)
    ensures list.forwarding == old(list.forwarding) && list.disposedRaised == old(list.disposedRaised)
    ensures list.lazyCount == (if old(list.lazyCount).NotCreated? then CountOutcome(list.ptr.IsDisposed(), list.ptr.handle, list.nativeCount, err) else old(list.lazyCount))
    ensures lib.calls == old(lib.calls) + CountCalls(old(list.lazyCount).NotCreated?, list.ptr.IsDisposed(), list.ptr.handle, err)
    ensures list.lazyCount.Faulted? ==> r == Throw(list.lazyCount.exc)
    ensures list.lazyCount.Created? ==>
      && r.Ok? && |r.value| == Span(list.lazyCount.value)
      && forall i :: 0 <= i < |r.value| ==> r.value[i] == ListItem(list, i)
  {
    var count := list.Count(lib, err);
    if count.Throw? {
      return Throw(count.exc);
    }
    ghost var calls := lib.calls;
    var items: seq<ListItem> := [];
    var i := 0;
    while i < count.value
      invariant 0 <= i <= Span(count.value)
      invariant list.Valid() && lib.Valid() && lib.state == old(lib.state) && lib.calls == calls
      invariant list.lazyCount == Created(count.value)
      invariant list.forwarding == old(list.forwarding) && list.disposedRaised == old(list.disposedRaised)
      invariant |items| == i && forall k :: 0 <= k < i ==> items[k] == ListItem(list, k)
    {
      var item := GetItem(lib, list, i, err);
      items := items + [item.value];
      i := i + 1;
    }
    return Ok(items);
  }

  /// The count every enumerator walks: a negative `Count` yields nothing.
  function Span(count: int32): nat
  {
    if count < 0 then 0 else count as nat
  }
}
