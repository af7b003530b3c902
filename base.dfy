/** Shared wrappers: optional values, the failure kinds the PHP code raises, bytes. */
module Base {

  datatype Option<+T> = None | Some(value: T) {
    function GetOr(default: T): T {
      if Some? then value else default
    }
  }

  /** One constructor per exception the catalog layer can raise. */
  datatype Failure =
    | ReadFailure(path: string)   // RuntimeException: the file exists but cannot be read
    | FetchFailure(url: string)   // RuntimeException raised by APICaller::call
    | TypeFailure                 // PHP TypeError: a value of the wrong type reaches a typed return or call
    | DecodeFailure               // RuntimeException / JsonException of a throwing JSON decode
    | NotFound(name: string)      // RuntimeException: no entry matches the requested key
    | InvalidQuery                // InvalidArgumentException: search term length outside 2..50
    | BadFormat                   // RuntimeException: the decoded document has no usable 'data' array
    | DivisionByZero              // DivisionByZeroError: paginate over an empty dataset
    | NoRequest                   // Error: a member reached through a missing current request

  datatype Result<+T> = Ok(value: T) | Err(error: Failure)

  newtype byte = x: int | 0 <= x < 256

  type Bytes = seq<byte>

  /** PHP truthiness of a string: "" and "0" are false, everything else is true. */
  predicate TruthyBytes(b: Bytes) {
    b != [] && b != [48]
  }

  predicate TruthyStr(s: string) {
    s != "" && s != "0"
  }
}
