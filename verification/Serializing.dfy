/** What all parsers of the wire format share: their outcomes and the iterator they step. */
module Serializing {
  import opened Wrappers

  datatype SerializingError =
    | Missing(what: string)
    | UnknownCommand
    | InvalidInput
    | ParseError

  /** How parsing ends; `Panicked` where the source calls `expect` on a base64 error. */
  datatype Outcome<+T> = Parsed(value: T) | Failed(error: SerializingError) | Panicked

  /** An iterator over the pieces of a line. */
  class Parts {
    var rest: seq<string>

    constructor (pieces: seq<string>)
      ensures rest == pieces
    {
      rest := pieces;
    }

    method Next() returns (r: Option<string>)
      modifies this
      ensures old(rest) == [] ==> r == None && rest == []
      ensures old(rest) != [] ==> r == Some(old(rest)[0]) && rest == old(rest)[1..]
    {
      if rest == [] {
        return None;
      }
      r := Some(rest[0]);
      rest := rest[1..];
    }
  }
}
