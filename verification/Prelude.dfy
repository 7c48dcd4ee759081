/** Types shared by the other modules. */
module Prelude {
  datatype Option<+T> = None | Some(value: T)

  // A byte, for the modules that work on bytes by arithmetic.
  newtype byte = x: int | 0 <= x < 256

  type Bytes = seq<byte>

  // Chunks end to end.
  function Flatten<T>(chunks: seq<seq<T>>): seq<T> {
    if chunks == [] then [] else chunks[0] + Flatten(chunks[1..])
  }

  // The value of a hexadecimal digit.
  function HexVal(c: char): (r: Option<nat>)
    ensures r.Some? ==> r.value < 16
  {
    if '0' <= c <= '9' then Some(c as nat - '0' as nat)
    else if 'a' <= c <= 'f' then Some(c as nat - 'a' as nat + 10)
    else if 'A' <= c <= 'F' then Some(c as nat - 'A' as nat + 10)
    else None
  }
}
