/** What several parts have in common. */
module Shared {
  datatype Option<T> = None | Some(value: T)

  const MAX_LINES_PER_PLOT: nat := 4

  function Min(a: nat, b: nat): nat { if a < b then a else b }

  function Max(a: nat, b: nat): nat { if a > b then a else b }
}
