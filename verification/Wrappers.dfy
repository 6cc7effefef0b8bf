// Small result types and arithmetic shared by every module.
module Wrappers {

  datatype Option<+T> = None | Some(value: T) {
    function GetOr(default: T): T {
      if Some? then value else default
    }
  }

  // What a call hands back to its caller: a value, or a JavaScript exception.
  datatype Reply<+T> = Returned(value: T) | Threw

  function Max(a: int, b: int): int {
    if a < b then b else a
  }

  function Min(a: int, b: int): int {
    if a < b then a else b
  }
}
