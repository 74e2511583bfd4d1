/** What several parts of the model share. */
module Basics {

  datatype Option<+T> = None | Some(value: T)

  function Max(a: int, b: int): (m: int)
    ensures a <= m && b <= m && (m == a || m == b)
  {
    if a < b then b else a
  }

  function Min(a: int, b: int): (m: int)
    ensures m <= a && m <= b && (m == a || m == b)
  {
    if a < b then a else b
  }

  // How often a thing counts that either is there or is not
  function One(b: bool): nat { if b then 1 else 0 }
}
