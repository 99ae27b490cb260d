/** Shared wrappers: Java's null references become Option, and an exception that
    leaves a method becomes the Err case of Result, tagged with its kind. */
module Common {

  datatype Option<+T> = None | Some(value: T) {
    predicate IsFailure() { None? }
    function PropagateFailure<U>(): Option<U> requires None? { None }
    function Extract(): T requires Some? { value }
  }

  /** The kinds of Java exception that escape the modelled methods. */
  datatype Fault =
    | JsonFault            // org.json.JSONException (missing key, wrong type, bad text)
    | NullPointer          // NullPointerException on a null reply
    | IndexOutOfBounds     // StringIndexOutOfBoundsException from substring
    | ClassCast            // ClassCastException from a cast of a member
    | Transport            // IOException from the HTTP layer
    | NotPresent(id: string) // "Test with test id = ... is not present on server"

  datatype Result<+T> = Ok(value: T) | Err(fault: Fault)

  /** Java's `int`: the 32-bit two's complement range. */
  const IntMin: int := -0x8000_0000
  const IntMax: int := 0x7fff_ffff

  predicate IsInt32(n: int) { IntMin <= n <= IntMax }

  /** Java's narrowing `longValue().intValue()`: keep the low 32 bits, read them as signed. */
  function Wrap32(n: int): (r: int)
    ensures IsInt32(r)
    ensures (r - n) % 0x1_0000_0000 == 0
    ensures IsInt32(n) ==> r == n
  {
    var low := n % 0x1_0000_0000;
    if low <= IntMax then low else low - 0x1_0000_0000
  }
}
