/** What several components share: optional values, C integers, and the swap of the y and z axes. */
module Basics {

  datatype Option<+T> = None | Some(value: T)

  const INT_LIMIT := 0x8000_0000
  const UINT_LIMIT := 0x1_0000_0000

  predicate IsInt(n: int) { -INT_LIMIT <= n < INT_LIMIT }

  /** Conversion of an integer to a 32-bit int, or the result of 32-bit arithmetic. */
  function ToInt(n: int): (r: int)
    ensures IsInt(r)
    ensures IsInt(n) ==> r == n
  {
    (n + 0x8000_0000) % 0x1_0000_0000 - 0x8000_0000
  }

  /** Conversion of an integer to a 32-bit unsigned int. */
  function ToUint(n: int): (r: nat)
    ensures r < UINT_LIMIT
    ensures 0 <= n < UINT_LIMIT ==> r == n
  {
    n % 0x1_0000_0000
  }

  lemma MulMono(a: nat, b: nat, c: nat)
    requires b <= c
    ensures a * b <= a * c
  {
    assert a * c - a * b == a * (c - b);
  }

  // y and z change places
  function SwapYz(a: int): (r: int)
    ensures 0 <= a < 6 ==> 0 <= r < 6
  {
    if a == 1 then 2 else if a == 2 then 1 else if a == 4 then 5 else if a == 5 then 4 else a
  }
}
