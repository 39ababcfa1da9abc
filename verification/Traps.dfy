/** Privilege levels, trap causes and traps. */
module Traps {
  // The two-bit encoding; MPP is not legalised on a write, so 2 can occur.
  type Priv = x: int | 0 <= x < 4
  const U_MODE: Priv := 0
  const S_MODE: Priv := 1
  const M_MODE: Priv := 3

  // TrapCause: the top bit of the word, and the code below it.
  datatype Cause = Cause(interrupt: bool, code: nat)

  const INSTRUCTION_ACCESS_FAULT := Cause(false, 1)
  const ILLEGAL_INSTRUCTION := Cause(false, 2)
  const BREAKPOINT := Cause(false, 3)
  const LOAD_ACCESS_FAULT := Cause(false, 5)
  const STORE_ACCESS_FAULT := Cause(false, 7)
  const INSTRUCTION_PAGE_FAULT := Cause(false, 12)
  const LOAD_PAGE_FAULT := Cause(false, 13)
  const STORE_PAGE_FAULT := Cause(false, 15)

  datatype Trap = Trap(pc: nat, cause: Cause, tval: nat)
}
