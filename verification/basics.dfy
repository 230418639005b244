/** Types and constants that all parts share. */
module Basics {
  datatype Option<+T> = None | Some(value: T)

  type byte = x: int | 0 <= x < 256

  /** 32-bit words: how many there are, and the two ways to read one. */
  const WORD: int := 0x1_0000_0000
  type word = x: int | 0 <= x < WORD
  type long = x: int | -WORD / 2 <= x < WORD / 2

  function Min(a: nat, b: nat): nat {
    if a < b then a else b
  }

  // Operations on words as masks, by name.

  function And(a: bv32, b: bv32): bv32 { a & b }

  function Or(a: bv32, b: bv32): bv32 { a | b }

  function Not(a: bv32): bv32 { !a }

  function Max(a: nat, b: nat): nat {
    if a > b then a else b
  }
}
