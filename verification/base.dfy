/** Types shared by the whole project. */
module Base {

  datatype Option<+T> = None | Some(value: T)

  datatype Result<+T, +E> = Ok(value: T) | Failed(error: E)

  /** A Go `error`: an identity, whether it satisfies `net.Error`, and what its `Timeout()` says. */
  datatype Error = Error(id: int, net: bool, timeout: bool)

  const INT64_MIN: int := -0x8000_0000_0000_0000
  const INT64_MAX: int := 0x7fff_ffff_ffff_ffff

  const TWO64: int := 0x1_0000_0000_0000_0000

  /** Two's complement wrap-around of an int64 result. */
  function Wrap64(x: int): (r: int)
    ensures INT64_MIN <= r <= INT64_MAX
    decreases if x < INT64_MIN then INT64_MIN - x else if x > INT64_MAX then x - INT64_MAX else 0
  {
    if x > INT64_MAX then Wrap64(x - TWO64) else if x < INT64_MIN then Wrap64(x + TWO64) else x
  }

  lemma WrapShift(x: int)
    ensures Wrap64(x + TWO64) == Wrap64(x)
  {
  }

  /** Wrapping after every addition is the same as wrapping the total once. */
  lemma {:induction false} WrapOnce(a: int, b: int)
    ensures Wrap64(Wrap64(a) + b) == Wrap64(a + b)
    decreases if a < INT64_MIN then INT64_MIN - a else if a > INT64_MAX then a - INT64_MAX else 0
  {
    if a > INT64_MAX {
      WrapOnce(a - TWO64, b);
      WrapShift(a - TWO64 + b);
    } else if a < INT64_MIN {
      WrapOnce(a + TWO64, b);
      WrapShift(a + b);
    }
  }
}
