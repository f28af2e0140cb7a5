/** Limits shared by the modules about memory. */
module Limits {

  /** The longest range one memory handle can span. */
  const MAX_HANDLE_LENGTH := 2147483648

  /** One more than the largest size. */
  const SIZE_RANGE := 0x1_0000_0000_0000_0000
}
