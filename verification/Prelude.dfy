/** Small definitions shared by the other modules. */
module Prelude {

  datatype Option<+T> = None | Some(value: T)

  function Min(a: nat, b: nat): nat {
    if a < b then a else b
  }

  /** An epoll mask by its bits; the code neither sets nor tests any other. */
  datatype Mask = Mask(input: bool, pri: bool, output: bool, err: bool, hup: bool, rdhup: bool, oneShot: bool,
                       edge: bool)

  const NOTHING := Mask(false, false, false, false, false, false, false, false)

  /** Division and remainder as C++ defines them: rounding toward zero. */
  function TruncDiv(a: int, b: int): (q: int)
    requires b > 0
  {
    if a >= 0 then a / b else -((-a) / b)
  }

  function TruncMod(a: int, b: int): (r: int)
    requires b > 0
  {
    a - b * TruncDiv(a, b)
  }
}
