/** Parser results. */
module Datatypes {

  datatype PacketError = NotValid | NotValidStringEncoding | NotMatching | EncodingError | TooLong

  /** `Result<Option<T>, PacketError>`: an answer, an error, or a request for more bytes. */
  datatype Verdict<+T> = Incomplete | Malformed(error: PacketError) | Parsed(value: T)

  /** What a reader does to a cursor: the verdict it gives and the position it leaves. */
  datatype Read<+T> = Read(verdict: Verdict<T>, next: nat)
}
