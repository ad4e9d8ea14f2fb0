/// `IntPtrToObjectMap<T>`: hands out integer tokens ("user data") that
/// native callbacks carry back, and resolves them to managed objects
/// through weak references. Each type argument `T` has its own map. Here
/// that is one `IdentityMap` object per registered type.
module Registry {
  import opened Base
  import opened Int32

  /// The index of the first probe at or after `k` that finds a slot
  /// outside `taken`, if any probe of the lap does.
  function FirstFree(taken: set<int>, start: int32, k: nat): (r: Option<nat>)
    requires k <= MODULUS
    decreases MODULUS - k
    ensures r.Some? ==> k <= r.value < MODULUS && Probe(start, r.value) !in taken
    ensures r.Some? ==> forall i :: k <= i < r.value ==> Probe(start, i) in taken
    ensures r.None? ==> forall i :: k <= i < MODULUS ==> Probe(start, i) in taken
  {
    if k == MODULUS then None
    else if Probe(start, k) !in taken then Some(k)
    else FirstFree(taken, start, k + 1)
  }

  /// A probe lap finds no free slot exactly when every 32-bit value is taken.
  lemma NoFreeSlotIffAllTaken(taken: set<int>, start: int32)
    ensures FirstFree(taken, start, 0).None? <==> forall v: int32 :: v in taken
  {
    if FirstFree(taken, start, 0).None? {
      forall v: int32 ensures v in taken {
        var k := ProbeReaches(start, v);
      }
    }
  }

  /// So a full lap needs at least 2^32 registered tokens.
  lemma NoFreeSlotNeedsFullMap(taken: set<int>, start: int32)
    requires FirstFree(taken, start, 0).None?
    ensures |taken| >= MODULUS
  {
    if |taken| < MODULUS {
      var v := FreeValueExists(taken);
      NoFreeSlotIffAllTaken(taken, start);
    }
  }

  class IdentityMap<T(==)> {
    /// The concurrent dictionary: token -> weakly referenced object.
    var entries: map<int, T>
    /// Objects the garbage collector has reclaimed. Weak references to
    /// them no longer resolve.
    var collected: set<T>

    constructor ()
      ensures entries == map[] && collected == {}
    {
      entries := map[];
      collected := {};
    }

    /// `Register(obj)`. It probes the tokens `hash`, `hash + 1`, … with
    /// 32-bit wrap-around and adds `obj` under the first free one. After a
    /// whole lap back to `hash` it throws "Map is full".
    method Register(obj: T, hash: int32) returns (r: Result<int32>)
      modifies this
      ensures collected == old(collected)
      ensures match FirstFree(old(entries).Keys, hash, 0)
        case Some(k) => r == Ok(Probe(hash, k)) && entries == old(entries)[Probe(hash, k) := obj]
        case None => r == Throw(InvalidOperation) && entries == old(entries)
    {
      var id := hash;
      var first := true;
      ghost var k: nat := 0;
      while first || id != hash
        invariant k <= MODULUS && id == Probe(hash, k)
        invariant first <==> k == 0
        invariant entries == old(entries) && collected == old(collected)
        invariant FirstFree(entries.Keys, hash, 0) == FirstFree(entries.Keys, hash, k)
        decreases MODULUS - k
      {
        ProbeReturnsToStart(hash, k);
        first := false;
        if id !in entries {
          entries := entries[id := obj];
          return Ok(id);
        }
        ProbeStep(hash, k);
        id := Next(id);
        k := k + 1;
      }
      ProbeReturnsToStart(hash, k);
      return Throw(InvalidOperation);
    }

    /// `Unregister(id)`: removes the token. It reports whether the token
    /// was there.
    method Unregister(id: int) returns (removed: bool)
      modifies this
      ensures removed <==> id in old(entries)
      ensures entries == old(entries) - {id} && collected == old(collected)
    {
      removed := id in entries;
      entries := entries - {id};
    }

    /// `TryGet(id)`: the object registered under `id`, while it has not
    /// been collected.
    method TryGet(id: int) returns (r: Option<T>)
      ensures r.Some? <==> id in entries && entries[id] !in collected
      ensures r.Some? ==> r.value == entries[id]
    {
      if id in entries && entries[id] !in collected {
        return Some(entries[id]);
      }
      return None;
    }

    /// The garbage collector reclaims `obj`. This is not code of the map.
    method Collect(obj: T)
      modifies this
      ensures entries == old(entries) && collected == old(collected) + {obj}
    {
      collected := collected + {obj};
    }
  }
}
