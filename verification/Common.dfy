/** What several components share. */
module Common {

  type byte = n: int | 0 <= n < 256

  /** A hash function, whichever it is. */
  type Digest = seq<byte> -> seq<byte>

  datatype Option<T> = None | Some(value: T)

  function Max(a: nat, b: nat): nat {
    if a >= b then a else b
  }

  function Repeat<T>(x: T, n: nat): (s: seq<T>)
    ensures |s| == n && forall i | 0 <= i < n :: s[i] == x
  {
    seq(n, _ => x)
  }
}

/** The error codes of the firmware's framework. */
module EspErrors {

  type EspErr = int

  const OK: EspErr := 0
  const FAIL: EspErr := -1
  const NO_MEM: EspErr := 0x101
  const INVALID_STATE: EspErr := 0x103
  const TIMEOUT: EspErr := 0x107
}
