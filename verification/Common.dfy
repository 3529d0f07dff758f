/** Small shared vocabulary: octets and optional values. */
module Common {

  /** One octet of a datagram. */
  type byte = x: int | 0 <= x < 256

  type bytes = seq<byte>

  datatype Option<+T> = None | Some(value: T)

  function Min(a: int, b: int): int {
    if a < b then a else b
  }

  function Max(a: int, b: int): int {
    if a < b then b else a
  }

  /** `value` moved into `lo..hi`. */
  function Clamp(value: int, lo: int, hi: int): int {
    if value < lo then lo else if value > hi then hi else value
  }

  function OrElse<T>(a: Option<T>, b: T): T {
    if a.Some? then a.value else b
  }

  function RemoveAt<T>(s: seq<T>, i: nat): seq<T>
    requires i < |s|
  {
    s[..i] + s[i + 1..]
  }

  /** Where the element at `i` sat before position `n` was removed. */
  function Before(i: nat, n: nat): nat {
    if i < n then i else i + 1
  }
}
