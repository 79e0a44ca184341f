/** Types shared by the other modules. */
module Wrappers {

  datatype Option<+T> = None | Some(value: T)

  /** The optional value as a sequence of length zero or one. */
  function ToSeq<T>(o: Option<T>): seq<T> {
    match o
    case None => []
    case Some(v) => [v]
  }

  function One(b: bool): nat { if b then 1 else 0 }

  newtype byte = x: int | 0 <= x < 256

  /** A `webrtc::DataBuffer`, a `grpc_slice` or a `std::string`: raw bytes. */
  type Buffer = seq<byte>
}
