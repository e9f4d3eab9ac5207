/** A byte buffer passed by reference, after Envoy's Buffer::Instance. */
module Buffers {
  import opened Bytes

  class Buffer {
    var data: Octets

    constructor (data: Octets)
      ensures this.data == data
    {
      this.data := data;
    }

    method Drain(n: nat)
      requires n <= |data|
      modifies this
      ensures data == old(data)[n..]
    {
      data := data[n..];
    }

    /** Takes everything out of `source` and appends it here. */
    method Move(source: Buffer)
      requires source != this
      modifies this, source
      ensures data == old(data) + old(source.data) && source.data == []
    {
      data := data + source.data;
      source.data := [];
    }
  }
}
