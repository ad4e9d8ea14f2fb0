/// `NativeBool`: the one-byte boolean of the native interface. Any nonzero
/// byte reads as true. Equality compares the logical values, not the bytes.
module NativeBools {
  const RAW_TRUE: bv8 := 1
  const RAW_FALSE: bv8 := 0

  datatype NativeBool = NativeBool(rawValue: bv8)
  {
    /// `Value`
    predicate Value()
    {
      rawValue != RAW_FALSE
    }
  }

  /// `new NativeBool(value)` and the implicit conversion from `bool`.
  function FromBool(value: bool): (nb: NativeBool)
    ensures nb.Value() == value
    ensures nb.rawValue == RAW_TRUE || nb.rawValue == RAW_FALSE
  {
    NativeBool(if value then RAW_TRUE else RAW_FALSE)
  }

  const False: NativeBool := FromBool(false)
  const True: NativeBool := FromBool(true)

  /// `Equals(NativeBool)` and `operator ==`.
  predicate Equals(a: NativeBool, b: NativeBool)
  {
    a.Value() == b.Value()
  }

  /// `Equals(bool)` and `operator ==` against a `bool`.
  predicate EqualsBool(a: NativeBool, b: bool)
  {
    a.Value() == b
  }

  /// What `Equals(object?)` may be handed.
  datatype Boxed = Null | BoxedNativeBool(nb: NativeBool) | BoxedBool(b: bool) | OtherObject

  /// `Equals(object?)`: true only for a boxed `NativeBool` or `bool` with
  /// the same logical value.
  predicate EqualsObject(a: NativeBool, obj: Boxed)
  {
    (obj.BoxedNativeBool? && Equals(a, obj.nb)) || (obj.BoxedBool? && EqualsBool(a, obj.b))
  }

  /// `operator !`: a canonical value with the opposite logical value.
  function Not(nb: NativeBool): (r: NativeBool)
    ensures r.Value() == !nb.Value()
    ensures r == FromBool(!nb.Value())
  {
    FromBool(!nb.Value())
  }

  /// `GetHashCode`: the hash of the logical value; `bool.GetHashCode`
  /// gives 1 for true and 0 for false.
  function GetHashCode(nb: NativeBool): (h: int)
    ensures h == 1 <==> nb.Value()
    ensures h == 0 <==> !nb.Value()
  {
    if nb.Value() then 1 else 0
  }

  /// `ToString`: `bool.ToString` of the logical value.
  function ToString(nb: NativeBool): (s: string)
    ensures s == "True" <==> nb.Value()
    ensures s == "False" <==> !nb.Value()
  {
    if nb.Value() then "True" else "False"
  }

  /// Converting a `bool` to `NativeBool` and back gives the original.
  lemma BoolRoundTrip(b: bool)
    ensures FromBool(b).Value() == b
  {
  }

  /// A `NativeBool` converted to `bool` and back equals the original, and
  /// is byte-identical to it exactly when its byte was 0 or 1.
  lemma NativeRoundTrip(nb: NativeBool)
    ensures Equals(FromBool(nb.Value()), nb)
    ensures FromBool(nb.Value()) == nb <==> nb.rawValue == RAW_TRUE || nb.rawValue == RAW_FALSE
  {
  }

  /// Equality is an equivalence that agrees with the hash code, `operator !=`
  /// is its negation, and comparing with a boxed value agrees with the typed
  /// overloads.
  lemma EqualityLaws(a: NativeBool, b: NativeBool, c: NativeBool, x: bool)
    ensures Equals(a, a)
    ensures Equals(a, b) == Equals(b, a)
    ensures Equals(a, b) && Equals(b, c) ==> Equals(a, c)
    ensures Equals(a, b) ==> GetHashCode(a) == GetHashCode(b)
    ensures EqualsObject(a, BoxedNativeBool(b)) == Equals(a, b)
    ensures EqualsObject(a, BoxedBool(x)) == EqualsBool(a, x)
    ensures !EqualsObject(a, Null) && !EqualsObject(a, OtherObject)
  {
  }

  /// Two bytes that differ can still be equal: 1 and 2 both read as true.
  lemma EqualityIgnoresRawByte()
    ensures Equals(NativeBool(1), NativeBool(2)) && NativeBool(1) != NativeBool(2)
  {
  }
}
