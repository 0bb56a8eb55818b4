/** Result types and machine bounds shared by the models. */
module Prelude {

  const MAX_U32: nat := 0xFFFF_FFFF
  const U32_LIMIT: nat := 0x1_0000_0000

  datatype Option<+T> = None | Some(value: T)

  datatype Result<+T, +E> = Ok(value: T) | Err(error: E)

  function Min(a: nat, b: nat): nat {
    if a <= b then a else b
  }
}
