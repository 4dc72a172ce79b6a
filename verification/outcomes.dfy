/** Outcomes of the slot machine's operations: a value, or the reason there is none. */
module Outcomes {

  /** Why an operation produced no value.
      - PoolExhausted: a column draw found the remaining pool empty (in the C++
        program `rand() % size()` then divides by zero);
      - InsufficientFunds: the total bet exceeds the player's balance; the
        C++ program asks for the bet again, the model refuses the round. */
  datatype Error = PoolExhausted | InsufficientFunds

  datatype Result<+T> = Success(value: T) | Failure(error: Error)
}
