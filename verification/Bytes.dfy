/** The growable byte buffer that encoders append to and decoders eat from the front of. */
module Bytes {
  import opened Basics

  class BytesMut {
    var data: seq<byte>

    constructor (data: seq<byte>)
      ensures this.data == data
    {
      this.data := data;
    }

    method PutU8(b: byte)
      modifies this
      ensures data == old(data) + [b]
    {
      data := data + [b];
    }

    method PutU16(n: u16)
      modifies this
      ensures data == old(data) + Be16(n)
    {
      data := data + Be16(n);
    }

    method Put(bytes: seq<byte>)
      modifies this
      ensures data == old(data) + bytes
    {
      data := data + bytes;
    }

    method Advance(n: nat)
      requires n <= |data|
      modifies this
      ensures data == old(data)[n..]
    {
      data := data[n..];
    }

    method GetU16() returns (n: u16)
      requires |data| >= 2
      modifies this
      ensures n == U16At(old(data), 0) && data == old(data)[2..]
    {
      n := U16At(data, 0);
      data := data[2..];
    }

    method SplitTo(n: nat) returns (front: seq<byte>)
      requires n <= |data|
      modifies this
      ensures front + data == old(data) && |front| == n
    {
      front := data[..n];
      data := data[n..];
    }
  }
}
