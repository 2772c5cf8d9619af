/** Go's `bytes.Buffer`, used as an append-only byte sink. */
module ByteBuffer {

  newtype byte = x: int | 0 <= x < 256

  class Buffer {
    /** What `Bytes()` returns: everything written so far, in order. */
    var data: seq<byte>

    /** The zero `bytes.Buffer`, which is empty. */
    constructor ()
      ensures data == []
    {
      data := [];
    }

    /** `Write(p)` (and `WriteString` of a string holding the bytes `p`): appends `p`. */
    method Write(p: seq<byte>)
      modifies this
      ensures data == old(data) + p
    {
      data := data + p;
    }
  }
}
