// Fixed-width integers, optional values, status codes and results shared by every module.

module Basics {

  datatype Option<+T> = None | Some(value: T)

  type u8 = n: int | 0 <= n < 0x100

  type int32 = n: int | -0x8000_0000 <= n < 0x8000_0000

  /** A status is an enumeration in the source, but a driver may return any integer cast to it. */
  type Status = int32

  const OK: Status := 0
  const ERROR: Status := 1
  const INVALID_ARGS: Status := 2
  const BUSY: Status := 3
  const NOT_SUPPORTED: Status := 6
  const NO_RESPONSE: Status := 7
  const NO_RESOURCE: Status := 8
  const WRITE_PROTECTED: Status := 12

  /** The numbers that go over the wire behind an E. */
  lemma StatusNumbers()
    ensures OK == 0 && ERROR == 1 && INVALID_ARGS == 2 && BUSY == 3 && NOT_SUPPORTED == 6
    ensures NO_RESPONSE == 7 && NO_RESOURCE == 8 && WRITE_PROTECTED == 12
  {}

  /** The tagged union of a value and an error code. */
  datatype Result = Value(val: int32) | Err(error: Status)

  function FromStatus(status: Status): Result {
    if status == OK then Value(0) else Err(status)
  }

  function Min(a: int, b: int): int {
    if a < b then a else b
  }

  /** The first `n` elements of `s`, or all of `s` when it is shorter. */
  function Cut<T>(s: seq<T>, n: nat): seq<T> {
    s[..Min(|s|, n)]
  }

  /** 8-bit addition. */
  function Add8(a: u8, b: u8): u8 {
    if a + b < 0x100 then a + b else a + b - 0x100
  }

  function Low8(n: int): u8 {
    n % 0x100
  }

  function Low16(n: int): int {
    n % 0x1_0000
  }

  /** Passing through 16 bits on the way to 8 makes no difference. */
  lemma Low8OfLow16(n: int)
    ensures 0 <= Low16(n) < 0x1_0000 && Low8(Low16(n)) == Low8(n)
  {
    ShiftWraps(Low16(n), 0x100 * (n / 0x1_0000));
  }

  lemma Add8Wraps(a: u8, b: u8)
    ensures Add8(a, b) == Low8(a + b)
  {}

  lemma ShiftWraps(x: int, t: int)
    ensures Low8(x + 0x100 * t) == Low8(x)
  {}

  lemma Low8Add(a: int, b: int)
    ensures Low8(a + b) == Add8(Low8(a), Low8(b))
  {
    var x, y := a / 0x100, b / 0x100;
    assert a + b == Low8(a) + Low8(b) + 0x100 * (x + y);
    ShiftWraps(Low8(a) + Low8(b), x + y);
    Add8Wraps(Low8(a), Low8(b));
  }

  lemma Low8Small(n: int)
    requires 0 <= n < 0x100
    ensures Low8(n) == n
  {}

  lemma NilUnit<T>(s: seq<T>)
    ensures s + [] == s && [] + s == s
  {}

  lemma Assoc<T>(a: seq<T>, b: seq<T>, c: seq<T>)
    ensures a + (b + c) == (a + b) + c
  {}

  lemma Assoc4<T>(a: seq<T>, b: seq<T>, c: seq<T>, d: seq<T>)
    ensures a + (b + c) + d == a + (b + (c + d))
  {}
}
