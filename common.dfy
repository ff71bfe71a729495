/** Failure-compatible result types and the error conditions of the codec.
    Every Python exception the codec can raise on some input becomes one
    `Error` constructor, so that error paths are modelled instead of excluded. */
module Common {

  datatype Option<+T> = None | Some(value: T)

  datatype Result<+T> = Ok(value: T) | Failure(error: Error) {
    predicate IsFailure() { Failure? }

    function PropagateFailure<U>(): Result<U>
      requires Failure?
    {
      Failure(error)
    }

    function Extract(): T
      requires Ok?
    {
      value
    }
  }

  datatype Error =
    | InvalidCrc                       // MessageParser.parse_message raises InvalidCRC
    | EmptyFrame                       // message[0] of an empty frame (IndexError)
    | MalformedField(token: string)    // `key, val = token.split("=")` without exactly one '='
    | EmptyValue(token: string)        // value[-1] of an empty value (IndexError)
    | EmptyLabel(token: string)        // label[0] of an empty label (IndexError)
    | UnresolvableUnit(unit: char)     // unit character in no table and not '#' (ValueError)
    | NotSubscriptable                 // a transform indexing the None of an `Id` field (TypeError)
    | MissingKey(key: string)          // dictionary lookup of an absent key (KeyError)
    | MissingResult                    // values[1] of a one-token command response (IndexError)
    | MalformedBitmask(text: string)   // `m, c = R.split("&")` without exactly one '&'
    | InvalidBit(digit: char)          // [False, True][int(x)] for x other than '0'/'1'
    | ShortBitmask                     // fewer digits than the kind has fields (IndexError)
    | NotAMapping                      // indexing an already packed string by a label (TypeError)
    | UnrecognizedMessage              // "Parser for message not found"
    | InvalidParameter(name: string)   // set_communication_settings rejects an argument
}
