/** The growing byte vector `storage_t` that every component passes by reference. */
module Buffers {
  import opened Bytes

  class Storage {
    var data: seq<byte>

    constructor ()
      ensures data == []
    {
      data := [];
    }

    method Clear()
      modifies this
      ensures data == []
    {
      data := [];
    }

    /** Keeps the common prefix and pads with zero bytes. */
    method Resize(n: nat)
      modifies this
      ensures data == Resized(old(data), n)
    {
      data := Resized(data, n);
    }
  }

  function Resized(data: seq<byte>, n: nat): (r: seq<byte>)
    ensures |r| == n
    ensures forall i :: 0 <= i < n && i < |data| ==> r[i] == data[i]
  {
    if n <= |data| then data[..n] else data + Zeros(n - |data|)
  }

  /** `bytes` copied over `data` from position `at`. */
  function Patched(data: seq<byte>, at: nat, bytes: seq<byte>): (r: seq<byte>)
    requires at + |bytes| <= |data|
    ensures |r| == |data|
  {
    data[..at] + bytes + data[at + |bytes|..]
  }
}
