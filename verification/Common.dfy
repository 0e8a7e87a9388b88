/** Types and limits that several parts of the server share. */
module Common {

  type Byte = b: int | 0 <= b < 256

  /** `std::size_t` holds values below this bound. */
  const SIZE_LIMIT: nat := 0x1_0000_0000_0000_0000

  type UserId = nat
  type ConnId = nat
}
