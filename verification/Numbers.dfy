/** Fixed-width unsigned integers, checked results and the division facts the models share. */
module Numbers {

  const U16_MAX: nat := 0xFFFF
  const U32_MAX: nat := 0xFFFF_FFFF
  const U64_MAX: nat := 0xFFFF_FFFF_FFFF_FFFF
  const U128_MAX: nat := 0xFFFF_FFFF_FFFF_FFFF_FFFF_FFFF_FFFF_FFFF

  type u16 = n: int | 0 <= n <= U16_MAX
  type u32 = n: int | 0 <= n <= U32_MAX
  type u64 = n: int | 0 <= n <= U64_MAX
  type u128 = n: int | 0 <= n <= U128_MAX

  const I64_MAX: nat := 0x7FFF_FFFF_FFFF_FFFF

  type i64 = n: int | -0x8000_0000_0000_0000 <= n <= I64_MAX

  datatype Option<+T> = None | Some(value: T)

  /** What an instruction handler returns: its value, or the error that reverts the transaction. */
  datatype Result<+T, +E> = Ok(value: T) | Err(error: E) {
    predicate IsFailure() {
      Err?
    }

    function PropagateFailure<U>(): Result<U, E>
      requires Err?
    {
      Err(error)
    }

    function Extract(): T
      requires Ok?
    {
      value
    }
  }

  datatype Outcome<+E> = Pass | Fail(reason: E) {
    predicate IsFailure() {
      Fail?
    }

    function PropagateFailure<U>(): Result<U, E>
      requires Fail?
    {
      Err(reason)
    }
  }

  /** The guard `if !condition { return Err(error) }`. */
  function Need<E>(condition: bool, error: E): Outcome<E> {
    if condition then Pass else Fail(error)
  }

  function Sum(s: seq<u64>): nat {
    if s == [] then 0 else s[0] + Sum(s[1..])
  }

  /** The sum can also be taken from the other end. */
  lemma {:induction false} SumLast(s: seq<u64>)
    requires s != []
    ensures Sum(s) == Sum(s[..|s| - 1]) + s[|s| - 1]
  {
    if |s| > 1 {
      var tail := s[1..];
      SumLast(tail);
      assert tail[..|tail| - 1] == s[..|s| - 1][1..];
    }
  }

  /** Conversion to a 64-bit or 32-bit register: whole multiples of the register's range are lost. */
  function Wrap64(n: nat): u64 {
    if n <= U64_MAX then n else Wrap64(n - 0x1_0000_0000_0000_0000)
  }

  function Wrap32(n: nat): nat {
    if n < 0x1_0000_0000 then n else Wrap32(n - 0x1_0000_0000)
  }

  /** What a register keeps is the remainder modulo its range. */
  lemma {:induction false} Wrap64IsRemainder(n: nat)
    ensures Wrap64(n) == n % 0x1_0000_0000_0000_0000
  {
    if n > U64_MAX {
      Wrap64IsRemainder(n - 0x1_0000_0000_0000_0000);
    }
  }

  lemma {:induction false} Wrap32IsRemainder(n: nat)
    ensures Wrap32(n) == n % 0x1_0000_0000
  {
    if n >= 0x1_0000_0000 {
      Wrap32IsRemainder(n - 0x1_0000_0000);
    }
  }

  lemma WrapNext(n: u64)
    ensures Wrap64(n + 1) == if n == U64_MAX then 0 else n + 1
  {
  }

  /** Wrapping at every addition or once at the end makes no difference. */
  lemma {:induction false} WrapSum(a: nat, b: nat)
    ensures Wrap64(Wrap64(a) + b) == Wrap64(a + b)
  {
    if a > U64_MAX {
      WrapSum(a - 0x1_0000_0000_0000_0000, b);
    }
  }

  function Min(a: int, b: int): int {
    if a <= b then a else b
  }

  lemma DivBounds(a: nat, b: nat)
    requires b > 0
    ensures b * (a / b) <= a < b * (a / b) + b
  {
  }

  lemma DivNonnegative(a: nat, b: nat)
    requires b > 0
    ensures a / b >= 0
  {
  }

  /** The quotient is the only number that fits the division bounds. */
  lemma DivUnique(a: nat, b: nat, q: nat)
    requires b > 0 && b * q <= a < b * q + b
    ensures a / b == q
  {
    DivBounds(a, b);
    if a / b < q {
      MulMono(b, a / b + 1, q);
    } else if q < a / b {
      MulMono(b, q + 1, a / b);
    }
  }

  lemma MulMono(a: nat, b: int, c: int)
    requires b <= c
    ensures a * b <= a * c
  {
    assert a * (c - b) >= 0;
  }

  /** Dividing is monotone in the numerator and antitone in the denominator. */
  lemma DivMono(a: nat, b: nat, c: nat, d: nat)
    requires a <= b && 0 < d <= c
    ensures a / c <= b / d
  {
    DivBounds(a, c);
    DivBounds(b, d);
    if a / c > b / d {
      MulMono(d, b / d + 1, a / c);
      MulMono(a / c, d, c);
    }
  }

  /** Cancelling a common factor. */
  lemma DivCancel(a: nat, b: nat)
    requires b > 0
    ensures a * b / b == a
  {
    DivUnique(a * b, b, a);
  }
}
