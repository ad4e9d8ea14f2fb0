# OrbbDotNet wrapper layer in Dafny

This project models the managed wrapper layer of OrbbDotNet, the .NET binding
of the Orbbec camera SDK. It covers:

- **Native ownership.** `PtrWrapper` owns one native reference. It releases
  it at most once, from `Dispose` or from the finalizer, and raises
  `Disposed` only after a successful explicit release. The typed pointer
  structs call the native delete or add-reference functions.
- **Error translation.** `ObException.CheckError` turns a native error
  object into the managed exception it stands for, and deletes the error
  object on every path.
- **Callback bridge.** `IntPtrToObjectMap` hands out integer tokens. It
  probes from the object's hash with 32-bit wrap-around, and resolves
  tokens through weak references. `Context`, `Device` and `Sensor` use those
  tokens to route native callbacks back to their handlers.
- **Frames and pinned memory.** `Frame` and its duplicates keep the native
  reference count right. A frame over a managed array or `Memory<T>` keeps
  the memory pinned until the native side drops the frame.
- **Lists and properties.** There are five native list classes, each with a
  lazily read `Count`. `DevicePropertyList` caches its slots.
  `DeviceProperty` has typed accessors, and `StreamProfile` is split into
  subclasses by stream type.
- **Smaller pieces.** `NativeBool`, the sync-mode bitmap decoder of
  `MultipleDevices`, and the trace-level routing of `LogImpl`.

The native SDK is a stand-in class, `Native.NativeSdk`. It keeps a reference
count per native object, the fields of each frame, the set of pinned
buffers, and a ghost log of every native call the wrapper makes. What a
native call reports (its error object, returned pointer, count or value) is
a parameter of the wrapper member that makes the call. So every contract
holds for every possible native answer. Thrown exceptions are the `Throw`
case of `Base.Result`.

The modules follow the source files: `ptrwrapper.dfy` is
`Native/PtrWrapper.cs`, `context.dfy` is `Context.cs`, and so on. The five
list classes repeat the same code member for member. That shared part is
modelled once, in `nativelists.dfy`. `devicelist.dfy`, `sensorlist.dfy`,
`streamprofilelist.dfy` and `valuelists.dfy` add what each list does on its
own.

## Model

| member | source | states |
|---|---|---|
| Int64.AsLong | OrbbDotNet/Frame.cs:164 | `(long)` of a `ulong` keeps the 64 bits: congruent modulo 2^64, and negative exactly above long.MaxValue |
| Int64.AsLongIsBijective | OrbbDotNet/Frame.cs:164-170 | `(long)` and `(ulong)` are inverse casts, so nothing is lost either way |
| Int32.Probe | OrbbDotNet/IntPtrToObjectMap.cs:14-22 | the k-th slot a wrapping probe visits is the start plus k, wrapped to 32 bits |
| Int32.ProbeStep | OrbbDotNet/IntPtrToObjectMap.cs:20 | one `unchecked(id++)` moves the probe exactly one slot on |
| Int32.ProbeReturnsToStart | OrbbDotNet/IntPtrToObjectMap.cs:22 | the loop condition `id != hash` fails only after 0 or exactly 2^32 increments |
| Int32.ProbeInjective | OrbbDotNet/IntPtrToObjectMap.cs:14-22 | within one lap no token is tried twice |
| Int32.ProbeReaches | OrbbDotNet/IntPtrToObjectMap.cs:14-22 | within one lap every 32-bit token is tried |
| Int32.VisitedCount | OrbbDotNet/IntPtrToObjectMap.cs:14-22 | the first n probes visit n distinct tokens |
| Int32.FreeValueExists | OrbbDotNet/IntPtrToObjectMap.cs:23 | a map with fewer than 2^32 tokens always leaves a token free |
| Registry.FirstFree | OrbbDotNet/IntPtrToObjectMap.cs:14-22 | the first probe that is not taken, with every earlier probe taken; none only if the whole lap is taken |
| Registry.NoFreeSlotIffAllTaken | OrbbDotNet/IntPtrToObjectMap.cs:23 | "Map is full" is thrown exactly when every 32-bit token is in use |
| Registry.NoFreeSlotNeedsFullMap | OrbbDotNet/IntPtrToObjectMap.cs:23 | a full lap needs at least 2^32 registered tokens |
| Registry.IdentityMap.Register | OrbbDotNet/IntPtrToObjectMap.cs:11-24 | the object is added under the first free probe from its hash, or the map is unchanged and the call throws |
| Registry.IdentityMap.Unregister | OrbbDotNet/IntPtrToObjectMap.cs:26-27 | the token is gone afterwards; the result says whether it was there |
| Registry.IdentityMap.TryGet | OrbbDotNet/IntPtrToObjectMap.cs:29-35 | resolves exactly when the token is registered and its object was not collected |
| HandleOps.DisposeErrorCalls | OrbbDotNet/Native/ObTypes.cs:17-21 | one delete for a non-zero error object, none for zero |
| HandleOps.DisposeError | OrbbDotNet/Native/ObTypes.cs:17-21 | `ObErrorPtr.Dispose` makes exactly those calls and changes no native state |
| HandleOps.ReleaseCalls | OrbbDotNet/Native/ObTypes.cs:30-34 | the type-specific delete comes first, then the error object's deletion |
| HandleOps.Release | OrbbDotNet/Native/ObTypes.cs:30-34 | `Release` succeeds iff no error came back, drops one reference, and deletes the error object either way |
| Native.ReleaseEffect | OrbbDotNet/Native/ObTypes.cs:134-138 | a release touches only its own object: it drops one reference on success and frees the object at the last one |
| Native.AddRefEffect | OrbbDotNet/Native/ObTypes.cs:139-143 | an add-reference raises only that object's count, and only on success |
| Native.SetTimestampEffect | OrbbDotNet/Frame.cs:157 | a timestamp setter changes exactly one field of one frame, and only on success |
| Native.AddRefThenRelease | OrbbDotNet/Native/ObTypes.cs:134-143 | taking a reference and dropping it leaves the native state as it was |
| Native.ReleasePinnedArray | OrbbDotNet/Frame.cs:258-259 | the destroy callback unpins the buffer |
| Native.PinnedWhileReferenced | OrbbDotNet/Frame.cs:258-259 | a frame's buffer stays pinned until the release of its last reference, which unpins it |
| ObException.ClassOf | OrbbDotNet/ObException.cs:28-39 | each of the eight named exception types maps to its class (InvalidValue to InvalidParameter, WrongApiCallSequence to VersionMismatch); every other code, Unknown included, gets the base class |
| ObException.ClassOfInjective | OrbbDotNet/ObException.cs:28-39 | distinct named types give distinct classes |
| ObException.Thrown | OrbbDotNet/ObException.cs:12-49 | an exception is thrown iff there is an error object whose status is not Ok; it carries the object's message, function name and arguments |
| ObException.CheckErrorCalls | OrbbDotNet/ObException.cs:12-49 | no call for zero; otherwise the status query first and, when asked, the deletion last |
| ObException.CheckError | OrbbDotNet/ObException.cs:12-49 | throws exactly `Thrown(error)`, deletes the error object on every path when asked and clears the reference |
| ObException.Check | OrbbDotNet/ObException.cs:12-49 | `CheckError` with deletion on, as every caller uses it |
| PtrWrappers.PtrWrapper.Create | OrbbDotNet/Native/PtrWrapper.cs:21-26 | a wrapper exists iff the pointer is non-zero; a zero pointer throws `ArgumentException` |
| PtrWrappers.PtrWrapper.constructor | OrbbDotNet/Native/PtrWrapper.cs:21-26 | a new wrapper is live and has raised nothing |
| PtrWrappers.PtrWrapper.CheckNotDisposed | OrbbDotNet/Native/PtrWrapper.cs:88-92 | throws iff a release was requested, naming the pointer |
| PtrWrappers.PtrWrapper.ValueNotDisposed | OrbbDotNet/Native/PtrWrapper.cs:34-41 | the pointer while live, the disposal exception after |
| PtrWrappers.PtrWrapper.ReleasePtr | OrbbDotNet/Native/PtrWrapper.cs:64-76 | only the first request releases; a failed release throws only when disposing; later requests do nothing and return false |
| PtrWrappers.PtrWrapper.Dispose | OrbbDotNet/Native/PtrWrapper.cs:52-59 | releases once; `Disposed` is raised iff the first release succeeds, so at most once |
| PtrWrappers.PtrWrapper.Finalize | OrbbDotNet/Native/PtrWrapper.cs:44-45 | the finalizer releases a live wrapper, never throws and never raises `Disposed` |
| PtrWrappers.PtrWrapper.GetHashCode | OrbbDotNet/Native/PtrWrapper.cs:108-109 | the hash is the address modulo 2^32 |
| PtrWrappers.EqualityIsEquivalence | OrbbDotNet/Native/PtrWrapper.cs:114-137 | `==` is an equivalence, agrees with the hash, and `!=` is its negation |
| PtrWrappers.CounterAfterAsWrittenIsWrap | OrbbDotNet/Native/PtrWrapper.cs:67 | the source's `int` counter after n increments is n wrapped to 32 bits |
| PtrWrappers.ReleaseCounterWrapsNegative | OrbbDotNet/Native/PtrWrapper.cs:80 | after 2^31 requests the source's counter is negative, so the wrapper reports itself live again |
| PtrWrappers.ReleaseCounterWrapsToOne | OrbbDotNet/Native/PtrWrapper.cs:67 | request 2^32+1 sees 1 again, so the source would release the native object a second time |
| Helpers.GetValueResult | OrbbDotNet/Helpers.cs:12-18 | disposed throws `ObjectDisposedException`; otherwise ok iff the getter reported no error, with the getter's value |
| Helpers.GetValueIgnoresGetterWhenDisposed | OrbbDotNet/Helpers.cs:12-18 | a disposed wrapper's result does not depend on the getter |
| Helpers.GetValue | OrbbDotNet/Helpers.cs:12-18 | no native call when disposed; otherwise exactly one getter call and the error check |
| Helpers.GetStringValue | OrbbDotNet/Helpers.cs:20-25 | as `GetValue`, with a null string read as none |
| Events.LastIndexOf | OrbbDotNet/Context.cs:134-137 | the last occurrence of a handler, or -1 exactly when it is absent |
| Events.RemoveLastMultiset | OrbbDotNet/Context.cs:134-137 | `-=` removes exactly one subscription of the handler, if there is one |
| Events.RemoveAbsent | OrbbDotNet/Context.cs:134-137 | `-=` with a handler that is not subscribed changes nothing |
| Events.RemoveLastCutsLastOccurrence | OrbbDotNet/Context.cs:134-137 | `-=` cuts out the last occurrence and keeps the order of the rest |
| Events.AddThenRemove | OrbbDotNet/Context.cs:113-137 | `+=` then `-=` of one handler restores the invocation list |
| NativeBools.FromBool | OrbbDotNet/Native/NativeBool.cs:18-19 | the byte is 1 or 0 and reads back as the given value |
| NativeBools.Not | OrbbDotNet/Native/NativeBool.cs:50-51 | a canonical value of the opposite logical value |
| NativeBools.GetHashCode | OrbbDotNet/Native/NativeBool.cs:32-33 | 1 for true and 0 for false, whatever the byte |
| NativeBools.ToString | OrbbDotNet/Native/NativeBool.cs:35-36 | "True" iff true, "False" iff false |
| NativeBools.BoolRoundTrip | OrbbDotNet/Native/NativeBool.cs:53-57 | bool to `NativeBool` and back is the identity |
| NativeBools.NativeRoundTrip | OrbbDotNet/Native/NativeBool.cs:53-57 | `NativeBool` to bool and back is equal, and byte-identical iff the byte was 0 or 1 |
| NativeBools.EqualityLaws | OrbbDotNet/Native/NativeBool.cs:23-48 | equality is an equivalence that agrees with the hash, and the boxed overload agrees with the typed ones |
| NativeBools.EqualityIgnoresRawByte | OrbbDotNet/Native/NativeBool.cs:23-30 | bytes 1 and 2 are different but compare equal |
| LogImpl.ToLogSeverity | OrbbDotNet/LogImpl.cs:77-86 | each trace level maps to its severity; any other value throws `ArgumentOutOfRangeException` |
| LogImpl.ToLogSeverityInjective | OrbbDotNet/LogImpl.cs:77-86 | distinct levels give distinct severities, and Fatal is never chosen |
| LogImpl.Route | OrbbDotNet/LogImpl.cs:49-67 | Fatal and Error go to `TraceError`, Warn to `TraceWarning`, Info to `TraceInformation`, everything else to `WriteLine` |
| LogImpl.ConsoleSeverity | OrbbDotNet/LogImpl.cs:95-106 | Off unless console logging is asked for |
| LogImpl.FileSeverity | OrbbDotNet/LogImpl.cs:95-106 | Off for a null, empty or blank directory |
| LogImpl.DirectoryArgument | OrbbDotNet/LogImpl.cs:95-106 | a null directory is passed as the empty string |
| LogImpl.Logger.constructor | OrbbDotNet/LogImpl.cs:11-13 | the level starts Off with the exit handlers not yet attached |
| LogImpl.Logger.SetTraceLevel | OrbbDotNet/LogImpl.cs:23-42 | same value: nothing; otherwise one native call, the level is stored only on success, and the first success attaches the exit handlers |
| LogImpl.Logger.OnExit | OrbbDotNet/LogImpl.cs:69-74 | turns the native log callback off and leaves the stored level alone |
| LogImpl.ConfigureLogging | OrbbDotNet/LogImpl.cs:95-106 | console first, then file; each severity is computed just before its call, so a bad level throws only when a logger needs it, and then no file call is made |
| MultipleDevices.Rank | OrbbDotNet/MultiDeviceSyncMode.cs:12-94 | every mode sits at one of bits 0 to 6 |
| MultipleDevices.BitIsShiftedOne | OrbbDotNet/MultiDeviceSyncMode.cs:12-94 | each mode's value is `1 << rank` |
| MultipleDevices.Filter | OrbbDotNet/MultipleDevices.cs:28-32 | keeps exactly the modes whose bit is set, in ascending order |
| MultipleDevices.ModesOf | OrbbDotNet/MultipleDevices.cs:28-32 | a mode is yielded iff its bit is set, in ascending order of value |
| MultipleDevices.ModesAreDistinct | OrbbDotNet/MultipleDevices.cs:28-32 | no mode is yielded twice |
| MultipleDevices.HighBitsIgnored | OrbbDotNet/MultipleDevices.cs:28-32 | bits 7 to 15 name no mode and are ignored |
| MultipleDevices.EmptyBitmap | OrbbDotNet/MultipleDevices.cs:28-32 | a zero bitmap yields nothing |
| MultipleDevices.PrimaryAndSecondary | OrbbDotNet/MultipleDevices.cs:28-32 | bitmap 0x0C yields exactly Primary then Secondary |
| MultipleDevices.AscendingSameElements | OrbbDotNet/MultipleDevices.cs:28-32 | two ascending mode sequences with the same elements are equal, so the output is fixed by its set |
| MultipleDevices.GetSupportedMultiDeviceSyncModes | OrbbDotNet/MultipleDevices.cs:23-33 | the bitmap getter's error is thrown before any mode; otherwise the result is the decoded modes |
| Frames.ClassFor | OrbbDotNet/Frame.cs:29-44 | every named frame type except Unknown has a subclass; the three infrared types share `IR` |
| Frames.ClassForSingleSource | OrbbDotNet/Frame.cs:29-44 | apart from `IR`, each subclass comes from exactly one frame type |
| Frames.AddRef | OrbbDotNet/Native/ObTypes.cs:139-143 | the add-reference call, then its error as the exception |
| Frames.Frame.constructor | OrbbDotNet/Frame.cs:16-21 | a new frame over its wrapper with its subclass and type, having raised nothing |
| Frames.Frame.FromNativePtrOfType | OrbbDotNet/Frame.cs:29-44 | an object of the subclass for the type, or `NotSupportedException` iff the type has none |
| Frames.Frame.FromNativePtr | OrbbDotNet/Frame.cs:26-27 | reads the type, then dispatches; the exception is the disposal, the getter's error, or not-supported, in that order |
| Frames.Frame.FromHandle | OrbbDotNet/Frame.cs:26-27 | a zero pointer is refused; a new frame is live and its subclass fits its type |
| Frames.Frame.FromNativePtrNullable | OrbbDotNet/Frame.cs:46-47 | none for zero, otherwise `FromNativePtr` |
| Frames.Frame.Dispose | OrbbDotNet/Frame.cs:53-54 | releases once and raises the frame's `Disposed` iff the first release succeeds |
| Frames.Frame.DuplicateReference | OrbbDotNet/Frame.cs:74-88 | a live duplicate holding a reference of its own; if building it fails, the reference is given back and the exception rethrown |
| Frames.Frame.ReinterpretAs | OrbbDotNet/Frame.cs:90-113 | a duplicate of the requested subclass that keeps this frame's type and equals it; `Frame` itself gives the reference back and throws |
| Frames.Frame.NativePtr | OrbbDotNet/Frame.cs:133 | the pointer while live, the disposal exception after |
| TimeSpans.RoundMilliseconds | OrbbDotNet/Context.cs:168-170 | the nearest whole millisecond, a tie going to the even neighbour |
| TimeSpans.RoundMillisecondsIsNearest | OrbbDotNet/Context.cs:168-170 | no whole millisecond is nearer to the span |
| TimeSpans.FromMilliseconds | OrbbDotNet/Frame.cs:149 | the span of a whole number of milliseconds, exact, or `OverflowException` iff its ticks exceed long.MaxValue |
| TimeSpans.RoundThenFromMilliseconds | OrbbDotNet/Frame.cs:147-159 | a span rounded to milliseconds and converted back is within half a millisecond of it and no whole millisecond is nearer, up to half a millisecond below `TimeSpan.MaxValue` |
| TimeSpans.MaxSpanDoesNotReadBack | OrbbDotNet/Frame.cs:147-159 | `TimeSpan.MaxValue` rounds up to a millisecond count whose span overflows on the way back |
| Frames.TimestampValue | OrbbDotNet/Frame.cs:147-177 | the microsecond getter reinterprets the native `ulong` as a `long`, negative above long.MaxValue; the millisecond getters give the span of that many milliseconds, or `OverflowException` when it does not fit in a `TimeSpan` |
| Frames.SentValue | OrbbDotNet/Frame.cs:150-187 | the microsecond setter sends the value itself; the millisecond setters send the span rounded to the nearest whole millisecond |
| Frames.SetThenGetTimestamp | OrbbDotNet/Frame.cs:147-188 | reading back a set timestamp gives the microseconds unchanged, and for a span the nearest whole millisecond, as long as it fits |
| Frames.Frame.GetTimestamp | OrbbDotNet/Frame.cs:147-188 | each getter calls its own native getter on the live pointer, reads its own field of the native frame through `GetValue`, and converts it as `TimestampValue` says |
| Frames.TimestampGetterInjective | OrbbDotNet/Native/FrameApi.Frame.cs:49-70 | each timestamp field has its own native getter |
| Frames.Frame.SetTimestamp | OrbbDotNet/Frame.cs:150-187 | a negative value or span throws first, even when disposed; otherwise exactly that field of the native frame is set to `SentValue` |
| Frames.Frame.Create | OrbbDotNet/Frame.cs:204-209 | the native frame is created with the given shape and type and holds one reference; the wrapper's subclass fits the type |
| Frames.Frame.CreateFromArray | OrbbDotNet/Frame.cs:211-224 | the buffer is pinned and the new frame's destroy callback owns the pin; the size is wrapped to 32 bits; on a native error the pin is not freed |
| Frames.DuplicateOutlivesOriginal | OrbbDotNet/Frame.cs:74-88 | after duplicating and disposing the original, the native frame is still alive and the native state is as before |
| PinnedMemory.ContextTable.constructor | OrbbDotNet/Frame.cs:277-284 | the table starts empty |
| PinnedMemory.ContextTable.Create | OrbbDotNet/Frame.cs:277-284 | the context is stored under the first free key probed from the owner's hash with wrap-around |
| PinnedMemory.ContextTable.Destroy | OrbbDotNet/Frame.cs:286-296 | a key outside 32 bits throws; an unknown key only warns; a known key is removed and its pin, then its owner, are disposed |
| PinnedMemory.CreateThenDestroy | OrbbDotNet/Frame.cs:277-296 | create then destroy leaves the table as it was and disposes exactly that context |
| PinnedMemory.CreateFromMemory | OrbbDotNet/Frame.cs:228-248 | a null owner throws before anything; otherwise the context key is the callback context, and on a native error the context stays in the table |
| StreamProfiles.ClassFor | OrbbDotNet/StreamProfile.cs:32-42 | the first of Video, Accel, Gyro that accepts the type; none iff no subclass accepts it |
| StreamProfiles.CompatibleSetsPartitionStreamTypes | OrbbDotNet/StreamProfile.Video.cs:9-12 | the three compatible sets are disjoint and cover exactly the named types other than Unknown, so the asking order does not matter |
| StreamProfiles.StreamProfile.Make | OrbbDotNet/StreamProfile.cs:12-19 | a new profile over its wrapper with the given subclass and type |
| StreamProfiles.StreamProfile.Create | OrbbDotNet/StreamProfile.cs:12-19 | a subclass constructor succeeds iff the type is compatible; otherwise `ArgumentException` |
| StreamProfiles.StreamProfile.CreateFromNative | OrbbDotNet/StreamProfile.cs:21-23 | the type is read from the native profile first; the exception is the disposal, the getter's error, or the incompatibility |
| StreamProfiles.StreamProfile.FromNativePtr | OrbbDotNet/StreamProfile.cs:32-42 | the profile's subclass is the one for its native type; a type no subclass supports throws `NotSupportedException` |
| StreamProfiles.StreamProfile.Dispose | OrbbDotNet/StreamProfile.cs:50-51 | releases once and raises `Disposed` at most once |
| StreamProfiles.StreamProfile.NativePtr | OrbbDotNet/StreamProfile.cs:74 | the pointer while live, the disposal exception after |
| NativeLists.CountOutcome | OrbbDotNet/DeviceList.cs:17-22 | the cached count is the native count cast to `int` (negative iff above int.MaxValue), or the cached exception |
| NativeLists.CountCalls | OrbbDotNet/DeviceList.cs:25-26 | the count getter is called only on the first read of a live list |
| NativeLists.Forced | OrbbDotNet/DeviceList.cs:68 | reading `Lazy.Value` gives the cached value or rethrows the cached exception |
| NativeLists.BoundsCheck | OrbbDotNet/DeviceList.cs:57-65 | passes iff the index is within `Count`; a negative index throws without reading `Count` |
| NativeLists.BoundsCheckEager | OrbbDotNet/DeviceList.cs:103 | passes iff the index is within `Count`; the `Count` exception comes first |
| NativeLists.BoundsChecksDiffer | OrbbDotNet/DeviceList.cs:103 | the two checks differ exactly for a negative index when reading `Count` throws |
| NativeLists.NativeList.constructor | OrbbDotNet/DeviceList.cs:17-22 | a new list has its forwarding handler attached and `Count` unread |
| NativeLists.NativeList.Count | OrbbDotNet/DeviceList.cs:68 | the first read runs the factory and caches the value or the exception; later reads make no native call |
| NativeLists.NativeList.CheckIndex | OrbbDotNet/DeviceList.cs:59-60 | the indexers' `||` check against the cached `Count` |
| NativeLists.NativeList.CheckIndexEager | OrbbDotNet/DeviceList.cs:103 | `GetDevice`'s `|` check reads `Count` whatever the index |
| NativeLists.NativeList.Dispose | OrbbDotNet/DeviceList.cs:32-33 | releases once and raises the list's `Disposed` at most once |
| NativeLists.GetItem | OrbbDotNet/DeviceList.cs:57-65 | an item view exists iff the count is known and the index is below it; no native call for the item |
| NativeLists.EnumerateItems | OrbbDotNet/DeviceList.cs:72-77 | exactly the positions below `Count`, in order, or the `Count` exception |
| ValueLists.ValueItemGetter | OrbbDotNet/CameraParamList.cs:56-66 | each list's item getter differs from its count getter |
| ValueLists.ItemOutcome | OrbbDotNet/CameraParamList.cs:56-66 | an item is returned iff the bounds check passed, the list is live and the getter reported no error |
| ValueLists.ItemCalls | OrbbDotNet/CameraParamList.cs:56-66 | the getter is called iff the bounds check passed on a live list |
| ValueLists.Get | OrbbDotNet/CameraParamList.cs:56-66 | bounds check, then the getter with the index cast to `uint`, then the error check |
| ValueLists.NextValue | OrbbDotNet/CameraParamList.cs:56-66 | one step of the enumeration at an index below the cached count: the getter's value, or the disposal or getter error, and no other state changes |
| ValueLists.YieldValues | OrbbDotNet/CameraParamList.cs:73-78 | items are yielded in index order up to the count, and the first failure ends the enumeration with that error |
| ValueLists.Enumerate | OrbbDotNet/CameraParamList.cs:73-78 | the yielded items are the getter's values in order, up to `Count` or the first failure, which is what the enumeration throws |
| DeviceLists.ItemGetter | OrbbDotNet/DeviceList.cs:166-172 | the native getter of each item property |
| DeviceLists.ItemGetterInjective | OrbbDotNet/DeviceList.cs:166-172 | distinct properties read through distinct getters |
| DeviceLists.ItemValue | OrbbDotNet/DeviceList.cs:156-161 | the property's getter on the owner's live pointer with the index as `uint`, then the error check |
| DeviceLists.AcquireDevice | OrbbDotNet/DeviceList.cs:101-108 | the getter and its error check, then a new device; a zero pointer is refused |
| DeviceLists.GetDevice | OrbbDotNet/DeviceList.cs:101-108 | the eager bounds check reads `Count` first; no native call for an index out of range |
| DeviceLists.GetDeviceBySerialNumber | OrbbDotNet/DeviceList.cs:115-122 | a null or blank serial number throws `ArgumentNullException` before any native call |
| DeviceLists.GetDeviceByUid | OrbbDotNet/DeviceList.cs:136-143 | a null or blank UID throws `ArgumentNullException` before any native call |
| SensorLists.ItemSensorType | OrbbDotNet/SensorList.cs:118-126 | the type getter on the owner's live pointer with the index as `uint`, then the error check |
| SensorLists.ItemSensor | OrbbDotNet/SensorList.cs:128-136 | a new live sensor over the returned pointer; a zero pointer is refused |
| SensorLists.GetByType | OrbbDotNet/SensorList.cs:95-105 | no bounds check; a zero pointer answers null, any other a new live sensor |
| StreamProfileLists.ProfileOutcome | OrbbDotNet/StreamProfileList.cs:64-74 | the subclass of the built profile, or the first failure in the order disposal, getter error, zero pointer, type error, incompatibility |
| StreamProfileLists.AcquireProfile | OrbbDotNet/StreamProfileList.cs:64-74 | the getter, its error check, the zero check, then the profile whose outcome is `ProfileOutcome` |
| StreamProfileLists.Get | OrbbDotNet/StreamProfileList.cs:64-74 | the bounds check, then the profile at the index through `FromNativePtr` |
| StreamProfileLists.NextProfile | OrbbDotNet/StreamProfileList.cs:64-74 | one step of the enumeration at an index below the cached count: a fresh profile of the class its native type selects, or the `ProfileOutcome` failure |
| StreamProfileLists.YieldProfiles | OrbbDotNet/StreamProfileList.cs:81-86 | profiles are yielded in index order up to the count, each fresh and of its stream type's class, and the first failure ends the enumeration |
| StreamProfileLists.Enumerate | OrbbDotNet/StreamProfileList.cs:81-86 | the yielded profiles come in index order, up to `Count` or the first failure, which is what the enumeration throws |
| StreamProfileLists.GetVideoStreamProfile | OrbbDotNet/StreamProfileList.cs:105-115 | the query passes its arguments, "any" by default, and the profile is built by the `Video` constructor |
| StreamProfileLists.GetAccelStreamProfile | OrbbDotNet/StreamProfileList.cs:117-125 | the same for `Accel` |
| StreamProfileLists.GetGyroStreamProfile | OrbbDotNet/StreamProfileList.cs:127-135 | the same for `Gyro` |
| DeviceProperties.PropertyClassOf | OrbbDotNet/DeviceProperty.cs:8-16 | each property type code has its subclass; any other throws `NotSupportedException` |
| DeviceProperties.Narrow | OrbbDotNet/DeviceProperty.Int.cs:55-69 | an unchecked cast keeps the value modulo the range and lands in the target type |
| DeviceProperties.NarrowKeepsInRange | OrbbDotNet/DeviceProperty.Int.cs:55-69 | a cast to a type that already holds the value does not change it |
| DeviceProperties.NarrowRoundTrip | OrbbDotNet/DeviceProperty.Int.cs:55-69 | casting to the other signedness of a width and back gives the original |
| DeviceProperties.BoolCastValue | OrbbDotNet/DeviceProperty.Bool.cs:55-70 | true and false as 1 and 0 of every numeric type, the value for `bool`, otherwise not supported |
| DeviceProperties.IntCastValue | OrbbDotNet/DeviceProperty.Int.cs:55-69 | `int` and `long` keep the value; narrower and unsigned types take it modulo their range; `bool` and others are not supported |
| DeviceProperties.UInt64CastOfInt | OrbbDotNet/DeviceProperty.Int.cs:55-69 | the cast to `ulong` adds 2^64 to a negative value and keeps a non-negative one |
| DeviceProperties.BoolAndIntCastsAgree | OrbbDotNet/DeviceProperty.Bool.cs:55-70 | on the integer types the two casts agree on 0/false and 1/true |
| DeviceProperties.RangeOf | OrbbDotNet/DeviceProperty.Int.cs:20-34 | each native range field goes to the field of the same meaning, despite the native order Cur, Max, Min |
| DeviceProperties.BoolRangeAs | OrbbDotNet/DeviceProperty.Bool.cs:42-53 | each of the five fields is cast on its own |
| DeviceProperties.IntRangeAs | OrbbDotNet/DeviceProperty.Int.cs:42-53 | each of the five fields is cast on its own |
| DeviceProperties.TruncDiv | OrbbDotNet/DeviceProperty.Struct.cs:23-32 | C# division truncates toward zero |
| DeviceProperties.DeviceProperty.Make | OrbbDotNet/DeviceProperty.cs:21-25 | a property of the device with its item and subclass |
| DeviceProperties.DeviceProperty.Create | OrbbDotNet/DeviceProperty.cs:8-16 | the subclass chosen by the item's type, or `NotSupportedException` |
| DeviceProperties.DeviceProperty.CmdVersion | OrbbDotNet/DeviceProperty.cs:35 | the command-version getter with the property id, then the error check: the native `ushort`, the disposal exception, or the native error |
| DeviceProperties.DeviceProperty.GetProperty | OrbbDotNet/DeviceProperty.cs:55-60 | the getter on the device pointer and the property id, then the error check |
| DeviceProperties.DeviceProperty.SetProperty | OrbbDotNet/DeviceProperty.cs:49-53 | the setter on the device pointer, the id and the value, then the error check |
| DeviceProperties.DeviceProperty.GetBool | OrbbDotNet/DeviceProperty.Bool.cs:14-18 | the native byte read as a boolean; a disposed device throws `ObjectDisposedException` with no call, otherwise the getter is called with the property id and a native error is rethrown |
| DeviceProperties.DeviceProperty.SetBool | OrbbDotNet/DeviceProperty.Bool.cs:14-18 | the value goes out as byte 1 or 0 with the property id; a disposed device throws with no call, and a native error is rethrown |
| DeviceProperties.DeviceProperty.GetBoolAs | OrbbDotNet/DeviceProperty.Bool.cs:39-40 | the value cast by `Bool.CastValue`; a disposed device throws `ObjectDisposedException` with no call, otherwise the getter is called with the property id and a native error is rethrown |
| DeviceProperties.DeviceProperty.GetBoolRange | OrbbDotNet/DeviceProperty.Bool.cs:20-34 | the native range field by field, then cast; a disposed device throws `ObjectDisposedException` with no call, otherwise the getter is called with the property id and a native error is rethrown |
| DeviceProperties.DeviceProperty.GetInt | OrbbDotNet/DeviceProperty.Int.cs:14-17 | the native `int` of the property; a disposed device throws with no call, otherwise the getter is called with the property id and a native error is rethrown |
| DeviceProperties.DeviceProperty.SetInt | OrbbDotNet/DeviceProperty.Int.cs:14-17 | the value goes out unchanged with the property id, then the error check; it fails iff the device is disposed or the setter reports an error |
| DeviceProperties.DeviceProperty.GetIntAs | OrbbDotNet/DeviceProperty.Int.cs:39-40 | the value cast by `Int.CastValue`; a disposed device throws `ObjectDisposedException` with no call, otherwise the getter is called with the property id and a native error is rethrown |
| DeviceProperties.DeviceProperty.GetIntRange | OrbbDotNet/DeviceProperty.Int.cs:20-34 | the native range field by field, then cast; a disposed device throws `ObjectDisposedException` with no call, otherwise the getter is called with the property id and a native error is rethrown |
| DeviceProperties.DeviceProperty.GetStructured | OrbbDotNet/DeviceProperty.Struct.cs:15-21 | the size goes out as `uint`; the reported size replaces it only when no exception is thrown; a native error is rethrown |
| DeviceProperties.DeviceProperty.GetStructuredArray | OrbbDotNet/DeviceProperty.Struct.cs:23-32 | the capacity is the wrapped byte size; the element count is the reported bytes divided by the element size, rounded down; a disposed device or a native error throws |
| DeviceProperties.DeviceProperty.GetStructuredValue | OrbbDotNet/DeviceProperty.Struct.cs:92-108 | a reported size other than `sizeof(T)` throws `InvalidOperationException`; a disposed device or a native error throws first |
| DeviceProperties.DeviceProperty.SetStructured | OrbbDotNet/DeviceProperty.Struct.cs:49-53 | the size goes out as `uint` |
| DeviceProperties.DeviceProperty.SetStructuredArray | OrbbDotNet/DeviceProperty.Struct.cs:55-62 | exactly length times element size bytes, wrapped to 32 bits |
| DeviceProperties.DeviceProperty.GetStructuredRange | OrbbDotNet/DeviceProperty.Struct.cs:110-111 | structured properties have no range |
| DevicePropertyLists.FirstWithId | OrbbDotNet/DevicePropertyList.cs:59-72 | the first item with the id, with none before it; none iff no item has it |
| DevicePropertyLists.DevicePropertyList.Make | OrbbDotNet/DevicePropertyList.cs:14-21 | every slot starts empty |
| DevicePropertyLists.DevicePropertyList.Create | OrbbDotNet/DevicePropertyList.cs:14-21 | `Count` is the native count as `int`; a count of 2^31 or more throws `OverflowException` |
| DevicePropertyLists.DevicePropertyList.Dispose | OrbbDotNet/DevicePropertyList.cs:23 | only the slot lock is disposed |
| DevicePropertyLists.DevicePropertyList.Get | OrbbDotNet/DevicePropertyList.cs:27-57 | out of range throws; a filled slot is returned with no native call; an empty slot is filled only if the write lock was taken; no other slot changes |
| DevicePropertyLists.DevicePropertyList.IsPropertySupported | OrbbDotNet/DevicePropertyList.cs:86-91 | the native answer after the error check |
| DevicePropertyLists.DevicePropertyList.Enumerate | OrbbDotNet/DevicePropertyList.cs:74-78 | one property per catalog item, in index order |
| DevicePropertyLists.DevicePropertyList.Find | OrbbDotNet/DevicePropertyList.cs:59-72 | null if unsupported with any permission; otherwise the first property with that id, or null |
| Devices.StringArg | OrbbDotNet/Device.cs:131-136 | a string argument carries its length and its characters |
| Devices.ProgressArgs | OrbbDotNet/Device.cs:200-213 | every transfer ends its arguments with `async: false` and the token |
| Devices.Device.Make | OrbbDotNet/Device.cs:22-27 | a new live device with no token and no handlers |
| Devices.Device.Create | OrbbDotNet/Device.cs:22-27 | a zero pointer is refused |
| Devices.Device.NativePtr | OrbbDotNet/Device.cs:78 | the pointer while live, the disposal exception after |
| Devices.Device.Dispose | OrbbDotNet/Device.cs:33-38 | a created property list is disposed first; the first successful release unregisters the token and raises `Disposed` once |
| Devices.Device.OnPtrDisposed | OrbbDotNet/Device.cs:48-61 | unregisters and clears the token, detaches itself, raises `Disposed` |
| Devices.Device.SupportedProperties | OrbbDotNet/Device.cs:195 | the first read builds the list and caches it or its exception; later reads make no native call |
| Devices.Device.AddStateChanged | OrbbDotNet/Device.cs:150-169 | only the first subscription takes a token and registers natively; the token is kept even if that fails; each success appends the handler |
| Devices.Device.RegisterToken | OrbbDotNet/Device.cs:150-169 | the device is stored under the first free probe from its hash, and the token kept |
| Devices.Device.Subscribe | OrbbDotNet/Device.cs:150-169 | the stored token goes to the native registration, then the error check |
| Devices.Device.RemoveStateChanged | OrbbDotNet/Device.cs:171-174 | removes the handler's last subscription; the token stays |
| Devices.Device.SwitchDepthWorkMode | OrbbDotNet/Device.cs:121-126 | true iff the native status is Ok, after the error check |
| Devices.Device.SwitchDepthWorkModeByName | OrbbDotNet/Device.cs:131-136 | the same, by name |
| Devices.Device.TransferWithProgress | OrbbDotNet/Device.cs:200-213 | the callback goes into the map of its delegate type, resolves there during the native call and is unregistered on every path, so that map ends as it began and the other three are untouched |
| Devices.Device.Transfer | OrbbDotNet/Device.cs:203-208 | the native transfer on the live pointer with the token as user data, then the error check |
| Devices.CallbackMaps.constructor | OrbbDotNet/Device.cs:200-378 | one empty map per delegate type, each a separate object |
| Devices.CallbackMaps.ForIsInjective | OrbbDotNet/Device.cs:200-378 | distinct delegate types have distinct maps |
| Devices.OnDeviceStateChanged | OrbbDotNet/Device.cs:177-186 | handlers run iff the token resolves to a live device whose current token it is |
| Devices.OnProgress | OrbbDotNet/Device.cs:215-219 | the callback runs iff its token still resolves in the map of the trampoline's delegate type |
| DeviceListChangedEvents.DisposeResult | OrbbDotNet/DeviceListChangedEventArgs.cs:27-34 | a list's dispose throws iff its first release fails |
| DeviceListChangedEvents.DisposeEffect | OrbbDotNet/DeviceListChangedEventArgs.cs:27-34 | a disposed list's dispose leaves the native state alone |
| DeviceListChangedEvents.DeviceListChangedEventArgs.constructor | OrbbDotNet/DeviceListChangedEventArgs.cs:11-15 | the two lists as given, automatic disposal on |
| DeviceListChangedEvents.DeviceListChangedEventArgs.Dispose | OrbbDotNet/DeviceListChangedEventArgs.cs:27-34 | with the flag set, removed then added are disposed, and a failure on the first leaves the second live; with it cleared nothing happens |
| FrameReadyEvents.FrameReadyEventArgs.constructor | OrbbDotNet/FrameReadyEventArgs.cs:7-8 | the frame as given, automatic disposal on |
| FrameReadyEvents.FrameReadyEventArgs.Dispose | OrbbDotNet/FrameReadyEventArgs.cs:14-18 | disposes the frame iff `AutoFrameDisposing` is set |
| Sensors.Sensor.Make | OrbbDotNet/Sensor.cs:16-20 | a new live sensor with no token and no handlers |
| Sensors.Sensor.Create | OrbbDotNet/Sensor.cs:16-20 | a zero pointer is refused |
| Sensors.Sensor.Dispose | OrbbDotNet/Sensor.cs:26-27 | the first successful release unregisters and clears the token and raises `Disposed` once; a failure keeps the token |
| Sensors.Sensor.OnPtrDisposed | OrbbDotNet/Sensor.cs:37-50 | unregisters and clears the token, detaches itself, raises `Disposed` |
| Sensors.Sensor.SensorType | OrbbDotNet/Sensor.cs:60-61 | read through `GetValue` |
| Sensors.Sensor.StreamProfileList | OrbbDotNet/Sensor.cs:63-64 | a new list over the returned pointer with `Count` unread; a zero pointer is refused |
| Sensors.Sensor.Start | OrbbDotNet/Sensor.cs:66-78 | the first call takes a token, later calls reuse it; the token is taken before the disposal check |
| Sensors.Sensor.RegisterToken | OrbbDotNet/Sensor.cs:66-78 | the sensor is stored under the first free probe from its hash, and the token kept |
| Sensors.Sensor.StartNative | OrbbDotNet/Sensor.cs:66-78 | sensor pointer, then profile pointer, then the native start with the token and the error check |
| Sensors.Sensor.Stop | OrbbDotNet/Sensor.cs:80-84 | the native stop and its error check; the token stays |
| Sensors.Sensor.SwitchProfile | OrbbDotNet/Sensor.cs:86-90 | sensor pointer, then profile pointer, then the native switch and the error check |
| Sensors.Sensor.AddFrameReady | OrbbDotNet/Sensor.cs:92 | appends the handler |
| Sensors.Sensor.RemoveFrameReady | OrbbDotNet/Sensor.cs:92 | removes the handler's last subscription |
| Sensors.StartOutcome | OrbbDotNet/Sensor.cs:66-78 | a disposed sensor, then a disposed profile, then the native error |
| Sensors.StartCalls | OrbbDotNet/Sensor.cs:66-78 | no native call when either object is disposed; otherwise the start with the token first |
| Sensors.OnFrameReady | OrbbDotNet/Sensor.cs:94-101 | the frame is always wrapped; handlers run iff the token resolves to a live sensor whose token it is; the frame is disposed unless a handler opted out |
| Contexts.Context.Make | OrbbDotNet/Context.cs:26-30 | a new live context with no token and no handlers |
| Contexts.Context.Create | OrbbDotNet/Context.cs:36-53 | the native creation's error is thrown first, then a zero pointer is refused; a new context holds one reference |
| Contexts.Context.Dispose | OrbbDotNet/Context.cs:59-60 | the first successful release unregisters the token and raises `Disposed` once; a failure keeps the token |
| Contexts.Context.OnPtrDisposed | OrbbDotNet/Context.cs:70-83 | unregisters and clears the token, detaches itself, raises `Disposed` |
| Contexts.Context.QueryDeviceList | OrbbDotNet/Context.cs:107-108 | a new device list over the returned pointer, after its error check, with `Count` unread |
| Contexts.Context.AddDeviceListChanged | OrbbDotNet/Context.cs:113-132 | only the first subscription takes a token and registers natively; the token is kept even if that fails; each success appends the handler |
| Contexts.Context.RegisterToken | OrbbDotNet/Context.cs:113-132 | the context is stored under the first free probe from its hash, and the token kept |
| Contexts.Context.Subscribe | OrbbDotNet/Context.cs:113-132 | the stored token goes to the native registration, then the error check |
| Contexts.Context.RemoveDeviceListChanged | OrbbDotNet/Context.cs:134-137 | removes the handler's last subscription; the token stays |
| Contexts.Context.EnableNetDeviceEnumeration | OrbbDotNet/Context.cs:157-161 | the flag goes out as byte 1 or 0 |
| Contexts.Context.EnableDeviceClockSync | OrbbDotNet/Context.cs:166-173 | a negative interval throws first, even when disposed; otherwise it goes out rounded to whole milliseconds |
| Contexts.Context.FreeIdleMemory | OrbbDotNet/Context.cs:176-180 | the native call on the live pointer, then the error check |
| Contexts.OnDeviceChanged | OrbbDotNet/Context.cs:141-153 | both lists are wrapped; handlers run iff the token resolves to a live context whose token it is; the lists are released unless a handler opted out |

## Left out

- Floating point. `DeviceProperty.Float.cs` is not part of this model. `IntCastValue` leaves out the cast to `float` (`Single`). `BoolCastValue` gives the exact reals 0 and 1.
- TimeSpans.RoundMilliseconds: takes the span as whole `TimeSpan` ticks and rounds exactly. `TotalMilliseconds` is a `double`, and for spans above 2^53 ticks the source's rounding can differ. `EnableDeviceClockSync` and the two millisecond timestamp setters share it.
- TimeSpans.FromMilliseconds: follows the .NET Core rule for `TimeSpan.FromMilliseconds(double)`: ticks = milliseconds × 10000, `OverflowException` above long.MaxValue. It is computed exactly. The double conversion of millisecond counts above 2^53 and of tick counts near the limit can round differently. .NET Framework rounds to whole milliseconds and uses a slightly different overflow bound; the target runtime is not part of this model.
- Frames.Frame.GetTimestamp: the millisecond getters inherit the exact arithmetic of `FromMilliseconds`; the `double` rounding of large values is not modelled.
- Frames.Frame.SetTimestamp: the millisecond setters take the `TimeSpan` as its tick count; the `double` guard `TotalMilliseconds < 0` is modelled as a negative tick count, which agrees with it, and `Math.Round` is the exact `RoundMilliseconds`.
- Marshalling and library code are parameters. That covers `Convert.ToBoolean` in `Bool.SetValue<T>` and `Convert.ToInt32` in `Int.SetValue<T>` (the converted value is the argument of `SetBool` and `SetInt`), the `AllocHGlobal`/`StructureToPtr` copy in `Struct.SetValue<T>` (only its byte size reaches `SetStructured`), `Marshal.PtrToStringAnsi`, the bytes of decoded structures, and the `ToString` texts apart from `PtrWrapper`'s.
- The runtime is not modelled: garbage collection, finalizer scheduling and threads. `PtrWrapper.Finalize` is an explicit call, and `IdentityMap.Collect` stands for the collector reclaiming an object. Locks, `Interlocked` operations and `ConcurrentDictionary` calls are single atomic steps.
- DevicePropertyLists.DevicePropertyList.Get: whether the write lock is obtained within its timeout is the parameter `stored`.
- PinnedMemory.ContextTable.Create: requires fewer than 2^32 stored contexts. When every key is taken, the source loops forever.
- The native side of `CreateFromMemory` does not call the destroy callback here. The callback's body is `ContextTable.Destroy`, and `CreateThenDestroy` joins the two.
- Device members that only forward to one native getter are not modelled: `DeviceInfo`, `ProtocolVersion`, `SensorList`, `GetSensor`, `CalibrationCameraParamList`, `CurrentDepthWorkMode`, `DepthWorkModeList`, `State`, the AHB and I2C accessors, `ReadCustomerData`, `WriteCustomerData`, `ActivateAuthorization`, `WriteAuthorizationCode` and `Reboot`. Their shape is `Helpers.GetValue` or `Device.SwitchDepthWorkMode`.
- C# iterators run lazily; the enumerators here run eagerly to the end or to the first exception. This includes the one in `MultipleDevices`.
- Handlers are handler identities. Nothing they do is modelled except clearing `AutoFrameDisposing` or `AutoListsDisposing` (the `optOut` parameter). Exceptions thrown by handlers are left out.
- ValueLists.Enumerate: states the items and the outcome, not the native call log.
- StreamProfileLists.GetVideoStreamProfile, StreamProfileLists.GetAccelStreamProfile and StreamProfileLists.GetGyroStreamProfile state only that the call log starts with the query; the calls after it are stated by `AcquireProfile`.
- `ob_create_net_device` is not part of this model. The two `Context` constructors are one `Create` with an optional configuration path.
- DeviceListChangedEvents.DeviceListChangedEventArgs.Dispose: requires the two lists to be distinct objects, as the native callback always gives them.
- Contexts.OnDeviceChanged: when the added pointer is zero but the removed one is not, the source has already wrapped the removed list. That wrapper is then left to the finalizer. The model leaves the native state unchanged on that path.
- The `Disposed` events of the owners are counted (`disposedRaised`), not delivered to handlers. The static delegates the source keeps alive for the native side are not modelled.
- DevicePropertyLists.DevicePropertyList.Enumerate: states its result only when no native call fails and every property type is known.
- DevicePropertyLists.DevicePropertyList.Find: states its result only when no native call fails and every property type is known.
- A native `StateChanged` or `DeviceListChanged` registration that fails is never retried, because the token is stored before the call. The model does what the source does.

## Findings

| source | as written | input that shows it | evidently intended | confidence | as-written member | corrected member |
|---|---|---|---|---|---|---|
| OrbbDotNet/Native/PtrWrapper.cs:67 | the release counter is a 32-bit `int` raised by `Interlocked.Increment`, and `IsDisposed` is `releaseCounter > 0` | 2^31 calls of `Dispose`: the counter wraps to int.MinValue and `IsDisposed` is false again; call 2^32+1 increments it to 1 again and releases the native object a second time | a counter that cannot wrap, so the release happens exactly once | not executed | PtrWrappers.ReleaseCounterWrapsToOne | PtrWrappers.PtrWrapper.ReleasePtr |
