/** Shared result types, error numbers and integer widths. */
module Wrappers {
  datatype Option<+T> = None | Some(value: T)
  datatype Result<+T, +E> = Success(value: T) | Failure(error: E)

  /** Error numbers the modelled functions return (`src/abi/errno.rs`). */
  datatype Errno =
    | OK | EPERM | ESRCH | EAGAIN | EBUSY | EINVAL | ERANGE | EDEADLK | ETIMEDOUT
    | OtherErrno(code: int)

  const INT_MIN := -0x8000_0000
  const INT_MAX := 0x7fff_ffff
  const LONG_MIN := -0x8000_0000_0000_0000
  const LONG_MAX := 0x7fff_ffff_ffff_ffff
  const USIZE_MAX := 0xffff_ffff_ffff_ffff

  /** `c_int::try_from` succeeds. */
  predicate FitsInt(x: int) {
    INT_MIN <= x <= INT_MAX
  }

  /** `c_long::try_from` succeeds. */
  predicate FitsLong(x: int) {
    LONG_MIN <= x <= LONG_MAX
  }
}
