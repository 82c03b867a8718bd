/** Definitions shared by several components. */
module Common {

  datatype Option<T> = None | Some(value: T)

  const MAX_U32: nat := 0xFFFF_FFFF
}
