/** Types and arithmetic that several models share. */
module Common {

  datatype Option<+T> = None | Some(value: T)

  type byte = x: int | 0 <= x < 256

  const UINT_MAX := 0xffff_ffff

  /** One more than the greatest unsigned 32-bit number. */
  const TWO32 := 0x1_0000_0000

  function SatAdd(x: nat, y: nat): nat {
    if x + y > UINT_MAX then UINT_MAX else x + y
  }

  function SatSub(x: nat, y: nat): nat {
    if x > y then x - y else 0
  }

  function TwoTo(k: nat): (r: nat)
    ensures r >= 1
  {
    if k == 0 then 1 else 2 * TwoTo(k - 1)
  }
}
