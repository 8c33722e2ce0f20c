/** Basic wire-level types shared by the codec, the catalog and the connection. */
module Wire {

  datatype Option<+T> = None | Some(value: T)

  /** One octet on the wire. */
  type Byte = b: int | 0 <= b < 0x100

  /** Go's uint64: the width of payload lengths and of MessageID. */
  type Uint64 = x: int | 0 <= x < 0x1_0000_0000_0000_0000

  const TwoTo64: int := 0x1_0000_0000_0000_0000

  /** How one read from the connection can fail. */
  datatype ReadError =
    | EOF                              // io.EOF: the stream ended before the first byte of a read
    | UnexpectedEOF                    // io.ErrUnexpectedEOF: the stream ended inside a varint
    | Overflow                         // a varint that does not fit in 64 bits
    | InvalidPreamble(b: Byte)         // the first byte of a frame is not 0x00
    | ShortRead(got: nat, want: nat)   // fewer payload bytes than the length field announced
    | Transport                        // any other failure reported by the socket
}
