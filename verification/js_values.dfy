/** JavaScript values as the runtime's buffers and names hold them. */
module JsValues {
  /** A UTF-16 code unit. */
  type Unit = x: int | 0 <= x < 0x1_0000

  type JsString = seq<Unit>

  type byte = x: int | 0 <= x < 256

  /** The modulus of 32-bit integers. */
  const UINT32: int := 0x1_0000_0000

  const DOT: Unit := 46
  const SLASH: Unit := 47
}
