/** Small shared vocabulary: optional values and machine-sized numbers. */
module Common {
  datatype Option<+T> = None | Some(value: T)

  datatype Result<+T, +E> = Success(value: T) | Failure(error: E)

  /** Which of two optional numbers is the higher, the first of two equals, or -1 when there is neither. */
  function Higher(a: Option<nat>, b: Option<nat>): (i: int)
    ensures i == -1 <==> a.None? && b.None?
    ensures i == 0 ==> a.Some? && (b.Some? ==> b.value <= a.value)
    ensures i == 1 ==> b.Some? && (a.Some? ==> a.value < b.value)
    ensures -1 <= i <= 1
  {
    if a.None? then if b.None? then -1 else 1
    else if b.Some? && b.value > a.value then 1 else 0
  }

  const TWO_64: nat := 0x1_0000_0000_0000_0000

  type byte = x: int | 0 <= x < 256
  type u64 = x: int | 0 <= x < TWO_64
}
