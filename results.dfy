/** Failure-compatible wrappers shared by every module of the model.
    The engine reports every failure by throwing a Java exception; here each
    exception becomes an `Err` carrying the kind of the exception. */
module Results {

  datatype Option<+T> = None | Some(value: T)

  /** The exception kinds the engine raises (its own and the JDK/library ones it lets escape). */
  datatype Error =
    | UnexpectedSymbol        // the lexer produced no token or got a blank text
    | EndOfQuery              // a query cursor was forked with no tokens left
    | IllegalQuery            // a `?` query without a comparison operator
    | IllegalCriteria         // a criterion triple did not lex to exactly three tokens
    | IllegalArgument         // bad operator, non-numeric operand, unknown element kind, ...
    | IllegalJsonElement      // an aggregate or an index applied to the wrong element kind
    | IllegalState            // Gson's getAsJsonArray/getAsString on the wrong element kind
    | IndexOutOfBounds        // a list index outside the list
    | StringIndexOutOfBounds  // a substring outside the string
    | NumberFormat            // Integer.parseInt or new BigDecimal on a malformed text
    | NullPointer             // a Java null dereferenced
    | ClassCast               // a downcast to the wrong element class
    | UnsupportedOperation    // JsonNull/JsonObject getAsString
    | NotImplemented          // FetchFlow on a primitive
    | Arithmetic              // division by zero, or rounding that UNNECESSARY forbids
    | UnrecognizedPlugin      // no registered plugin key prefixes the function name
    | NoSuchElement           // Iterator.next past the end

  datatype Result<+T> = Ok(value: T) | Err(error: Error) {
    predicate IsFailure() { Err? }

    function PropagateFailure<U>(): Result<U>
      requires Err?
    {
      Err(error)
    }

    function Extract(): T
      requires Ok?
    {
      value
    }
  }
}
