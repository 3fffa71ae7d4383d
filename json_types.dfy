/**
 * The values the parser produces and the errors it reports
 * (src/lib.rs:61-84), with the Option/Result wrappers the Rust code uses.
 */
module JsonTypes {

  datatype Option<+T> = None | Some(value: T)

  datatype Result<+T, +E> = Ok(value: T) | Err(error: E)

  /** A JSON value. `Number` keeps the lexeme the parser accumulated
      (digits and dots); the conversion to f64 is not modelled. An object
      is an ordered list of key/value pairs, duplicates included. */
  datatype JsonValue =
    | Null
    | Bool(b: bool)
    | Number(lexeme: string)
    | String(s: string)
    | Array(elems: seq<JsonValue>)
    | Object(members: seq<(string, JsonValue)>)

  datatype ErrorKind =
    | UnexpectedChar(found: char)
    | UnexpectedEnd
    | InvalidNumber
    | InvalidEscape
    | InvalidUnicode

  /** An error kind and the byte offset at which it was detected. */
  datatype ParseError = ParseError(kind: ErrorKind, pos: nat)
}
