/** Failure-compatible wrappers shared by the interpreter model.
    Every `panic!`, `unwrap`, `todo!` and debug-build overflow of the Rust
    code becomes an `Err` carrying one of the `Failure` kinds below. */
module Results {

  datatype Option<+T> = None | Some(value: T)

  /** Why an operation of the interpreter stopped. */
  datatype Failure =
    | UnsupportedInstruction(code: int) // opcode missing from the decode table
    | ArithmeticOverflow                // u8/u16 `+`/`-` that panics in a debug build
    | InvalidOperandWidth               // 8-bit access to a 16-bit target or vice versa
    | InvalidTarget                     // a target that is not a plain register
    | InvalidRegisterPair               // a register combination that names no pair
    | MissingOperand                    // `unwrap`/`expect` on an absent operand
    | MissingFlagResult                 // Dependent flag policy without a computed result
    | NotImplemented                    // `todo!()`

  datatype Result<+T> = Ok(value: T) | Err(error: Failure) {
    predicate IsFailure() {
      Err?
    }

    function PropagateFailure<U>(): Result<U>
      requires Err?
    {
      Err(error)
    }

    function Extract(): T
      requires Ok?
    {
      value
    }
  }
}
