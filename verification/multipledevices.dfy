/// `MultipleDevices.GetSupportedMultiDeviceSyncModes`: decodes the native
/// sync-mode bitmap into the `MultiDeviceSyncMode` values whose bit is set.
module MultipleDevices {
  import opened Base
  import opened ObTypes
  import opened Native
  import opened ObException
  import opened Helpers
  import opened Devices

  /// `MultiDeviceSyncMode`
  datatype SyncMode =
    | FreeRun
    | Standalone
    | Primary
    | Secondary
    | SecondarySynced
    | SoftwareTriggering
    | HardwareTriggering

  /// The bit position of each mode: `FreeRun = 1 << 0` up to
  /// `HardwareTriggering = 1 << 6`.
  function Rank(m: SyncMode): (k: nat)
    ensures k < 7
  {
    match m
    case FreeRun => 0
    case Standalone => 1
    case Primary => 2
    case Secondary => 3
    case SecondarySynced => 4
    case SoftwareTriggering => 5
    case HardwareTriggering => 6
  }

  /// The value of a mode, `1 << Rank(m)`.
  function Bit(m: SyncMode): (b: bv16)
  {
    match m
    case FreeRun => 0x01
    case Standalone => 0x02
    case Primary => 0x04
    case Secondary => 0x08
    case SecondarySynced => 0x10
    case SoftwareTriggering => 0x20
    case HardwareTriggering => 0x40
  }

  /// Each value is the bit at the mode's position.
  lemma BitIsShiftedOne(m: SyncMode)
    ensures Bit(m) == (1 as bv16) << Rank(m)
  {
  }

  /// `(modes & (int)mode) != 0`
  predicate Has(bitmap: bv16, m: SyncMode)
  {
    bitmap & Bit(m) != 0
  }

  /// `Enum.GetValues(typeof(MultiDeviceSyncMode))`: every value, in
  /// ascending order of value.
  const ALL_MODES: seq<SyncMode> :=
    [FreeRun, Standalone, Primary, Secondary, SecondarySynced, SoftwareTriggering, HardwareTriggering]

  predicate StrictlyAscending(modes: seq<SyncMode>)
  {
    forall i, j :: 0 <= i < j < |modes| ==> Rank(modes[i]) < Rank(modes[j])
  }

  /// The tail of an ascending sequence is ascending, and its elements
  /// come after the head.
  lemma TailAscending(modes: seq<SyncMode>)
    requires StrictlyAscending(modes) && |modes| > 0
    ensures StrictlyAscending(modes[1..])
    ensures forall m :: m in modes[1..] ==> Rank(modes[0]) < Rank(m)
  {
    forall m | m in modes[1..] ensures Rank(modes[0]) < Rank(m) {
      var j :| 0 <= j < |modes[1..]| && modes[1..][j] == m;
      assert modes[j + 1] == m;
    }
  }

  /// The `foreach … if … yield return` filter over `modes`.
  function Filter(bitmap: bv16, modes: seq<SyncMode>): (r: seq<SyncMode>)
    requires StrictlyAscending(modes)
    ensures forall m :: m in r <==> m in modes && Has(bitmap, m)
    ensures StrictlyAscending(r)
  {
    if |modes| == 0 then []
    else
      TailAscending(modes);
      var rest := Filter(bitmap, modes[1..]);
      if Has(bitmap, modes[0]) then [modes[0]] + rest else rest
  }

  /// The modes a bitmap announces, in ascending order of value.
  function ModesOf(bitmap: bv16): (r: seq<SyncMode>)
    ensures forall m :: m in r <==> Has(bitmap, m)
    ensures StrictlyAscending(r)
  {
    assert forall m: SyncMode :: m in ALL_MODES by {
      forall m: SyncMode ensures m in ALL_MODES {
        assert ALL_MODES[Rank(m)] == m;
      }
    }
    Filter(bitmap, ALL_MODES)
  }

  /// Each mode comes out at most once.
  lemma ModesAreDistinct(bitmap: bv16)
    ensures forall i, j :: 0 <= i < j < |ModesOf(bitmap)| ==> ModesOf(bitmap)[i] != ModesOf(bitmap)[j]
  {
  }

  /// Bits 7 to 15 name no mode and are ignored.
  lemma HighBitsIgnored(bitmap: bv16)
    ensures ModesOf(bitmap) == ModesOf(bitmap & 0x7F)
  {
    forall m: SyncMode ensures Has(bitmap, m) == Has(bitmap & 0x7F, m) {
      assert Bit(m) & 0x7F == Bit(m);
    }
    AscendingSameElements(ModesOf(bitmap), ModesOf(bitmap & 0x7F));
  }

  /// An empty bitmap yields nothing.
  lemma EmptyBitmap()
    ensures ModesOf(0) == []
  {
  }

  /// Bitmap 0b00001100 announces `Primary` and `Secondary`.
  lemma PrimaryAndSecondary()
    ensures ModesOf(0x0C) == [Primary, Secondary]
  {
    var r := ModesOf(0x0C);
    var expected := [Primary, Secondary];
    assert StrictlyAscending(expected);
    forall m ensures m in r <==> m in expected {
      HasPrimaryAndSecondary(m);
    }
    AscendingSameElements(r, expected);
  }

  lemma HasPrimaryAndSecondary(m: SyncMode)
    ensures Has(0x0C, m) <==> m == Primary || m == Secondary
  {
    match m
    case FreeRun =>
    case Standalone =>
    case Primary =>
    case Secondary =>
    case SecondarySynced =>
    case SoftwareTriggering =>
    case HardwareTriggering =>
  }

  /// Two strictly ascending sequences with the same elements are equal.
  lemma {:induction false} AscendingSameElements(a: seq<SyncMode>, b: seq<SyncMode>)
    requires StrictlyAscending(a) && StrictlyAscending(b)
    requires forall m :: m in a <==> m in b
    ensures a == b
  {
    if |a| == 0 || |b| == 0 {
      EmptyIffNoElements(a);
      EmptyIffNoElements(b);
      return;
    }
    assert a[0] == b[0] by {
      assert a[0] in b && b[0] in a;
      var i :| 0 <= i < |b| && b[i] == a[0];
      var j :| 0 <= j < |a| && a[j] == b[0];
      assert Rank(b[0]) <= Rank(a[0]) && Rank(a[0]) <= Rank(b[0]);
    }
    forall m ensures m in a[1..] <==> m in b[1..] {
      if m in a[1..] {
        var i :| 1 <= i < |a| && a[i] == m;
        assert m in b && m != b[0];
      }
      if m in b[1..] {
        var i :| 1 <= i < |b| && b[i] == m;
        assert m in a && m != a[0];
      }
    }
    AscendingSameElements(a[1..], b[1..]);
    assert a == [a[0]] + a[1..] && b == [b[0]] + b[1..];
  }

  lemma EmptyIffNoElements(s: seq<SyncMode>)
    ensures |s| == 0 <==> forall m :: m !in s
  {
    if |s| > 0 {
      assert s[0] in s;
    }
  }

  /// `device.GetSupportedMultiDeviceSyncModes()`: reads the bitmap through
  /// the device's native pointer, checks the error, then yields the modes.
  /// A native error is thrown before any mode is produced.
  method GetSupportedMultiDeviceSyncModes(lib: NativeSdk, device: Device, bitmap: bv16, err: ErrorPtr)
    returns (r: Result<seq<SyncMode>>)
    requires device.Valid() && lib.Valid()
    modifies lib
    ensures lib.Valid() && lib.state == old(lib.state)
    ensures device.IsDisposed() ==> r == Throw(ObjectDisposed(Describe(device.ptr.handle))) && lib.calls == old(lib.calls)
    ensures !device.IsDisposed() ==>
      lib.calls == old(lib.calls)
        + [NativeCall(Getter("ob_device_get_supported_multi_device_sync_mode_bitmap"), device.ptr.handle.address, [])]
        + CheckErrorCalls(err, true)
    ensures !device.IsDisposed() && Thrown(err).Some? ==> r == Throw(Thrown(err).value)
    ensures !device.IsDisposed() && Thrown(err).None? ==> r == Ok(ModesOf(bitmap))
  {
    var modes := GetValue(lib, device.ptr, "ob_device_get_supported_multi_device_sync_mode_bitmap", bitmap, err);
    if modes.Throw? {
      return Throw(modes.exc);
    }
    return Ok(ModesOf(modes.value));
  }
}
