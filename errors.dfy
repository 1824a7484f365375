/** Error values and result wrappers shared by every part of the FTP(S) client model. */
module FtpsErrors {

  datatype Option<T> = None | Some(value: T)

  /** What a Go runtime panic of the client would be about. */
  datatype PanicKind =
    | IndexOutOfRange   // indexing a string or slice past its end
    | SliceOutOfRange   // slicing with bounds outside the value or reversed
    | NilDereference    // using a nil pointer or a nil interface

  /** The package's sentinel errors, followed by the errors the libraries it calls can return. */
  datatype Error =
    | InvalidParameter
    | NotConnected
    | Pasv
    | IoError
    | LineFormat
    | DirEntry
    | InvalidLogin
    | InvalidDirectory
    | NotDisconnected
    | Secure
      /** textproto.Error: the server answered with another code than the one expected */
    | UnexpectedCode(code: int, message: string)
      /** a failure of the underlying connection or of the reply format (timeout, reset, garbled reply) */
    | Transport
      /** an operation on a connection that was already closed */
    | ClosedConn
      /** io.EOF */
    | Eof
      /** strconv.ErrSyntax and strconv.ErrRange */
    | NumSyntax
    | NumRange
      /** time.ParseError */
    | TimeFormat
      /** the client would have crashed */
    | Panic(kind: PanicKind)

  datatype Result<T> = Ok(value: T) | Err(error: Error)

  /** A Go `error` return: Pass is nil. */
  datatype Outcome = Pass | Fail(error: Error)
}
