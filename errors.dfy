/** The contract's error taxonomy (errors.rs) and its result type (lib.rs, line 21). */
module Errors {
  /** Errors that can occur upon calling the contract, in declaration order. */
  datatype Error =
    | AnotherPlayerShouldTurn
    | CoordinateAlreadyFilled
    | CoordinateNotExists
    | GameNotStarted
    | GameAlreadyOver
    | ForGameNeedsAtLeast2Players
    | UnknownPlayer
    | WaitingAnotherDefinedPlayer
    | GameAlreadyStarted

  /** `core::result::Result<T, Error>`. */
  datatype Result<T> = Ok(value: T) | Err(error: Error)
}
