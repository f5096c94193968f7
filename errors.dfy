/**
 * The exceptions of the bank ledger as values, and the Option/Result
 * wrappers every fallible operation of the model returns.
 * A Java `null` result is `None`; a thrown exception is `Err(e)`.
 */
module Errors {

  datatype Option<T> = None | Some(value: T)

  datatype Result<T> = Ok(value: T) | Err(error: Error)

  /** One variant per exception class the core throws. */
  datatype Error =
    | InvalidAmount(message: string)
    | InsufficientFunds(message: string)
    | OverdraftExceeded(message: string)
    /** Holds the constructor's argument; getMessage() puts "Account not found: " before it. */
    | AccountNotFound(argument: string)
    | IllegalArgument(message: string)
    /** IllegalStateException, thrown by a full ledger. */
    | IllegalState(message: string)
    | IndexOutOfBounds(message: string)
    /** NumberFormatException from Integer.parseInt / Double.parseDouble. */
    | NumberFormat
    /** DateTimeParseException from LocalDateTime.parse. */
    | DateTimeParse
    /** ArrayIndexOutOfBoundsException from a short split line. */
    | MissingColumn
    /** The RuntimeException("Transaction processing failed", cause) the registry wraps failures in. */
    | Runtime(cause: Error)
  {
    /** Exception.getMessage(); messages built from doubles are left empty. */
    function Message(): string
    {
      match this
      case InvalidAmount(m) => m
      case InsufficientFunds(m) => m
      case OverdraftExceeded(m) => m
      case AccountNotFound(m) => "Account not found: " + m
      case IllegalArgument(m) => m
      case IllegalState(m) => m
      case IndexOutOfBounds(m) => m
      case NumberFormat => ""
      case DateTimeParse => ""
      case MissingColumn => ""
      case Runtime(_) => "Transaction processing failed"
    }
  }
}
