/** Bytes, notification messages and errors shared by the core and the wire format. */
module Messages {

  type Byte = b: int | 0 <= b < 256
  type Bytes = seq<Byte>

  datatype Message =
    | Hello
    | Update(key: string, value: Bytes)
    | Close(key: string)
    | NotFound

  datatype NkvError =
    | WrongKey
    | KeyNotFound
    | AlreadySubscribed(uuid: string)
    | IoError
}
