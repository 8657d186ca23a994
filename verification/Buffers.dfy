/** In-place work on byte buffers that both ends of the tunnel do. */
module Buffers {
  import opened Wire

  // XORs data[from..to] with the key; key position 0 goes with data[from].
  method XorRange(key: XorKey, data: array<bv8>, from: nat, to: nat)
    requires from <= to <= data.Length
    modifies data
    ensures data[from..to] == XorData(key, old(data[from..to]))
    ensures data[..from] == old(data[..from]) && data[to..] == old(data[to..])
  {
    hide XorByte;
    ghost var plain := data[from..to];
    for i := 0 to to - from
      invariant data[..from] == old(data[..from]) && data[from + i..] == old(data[from + i..])
      invariant forall k | 0 <= k < i :: data[from + k] == XorByte(plain[k], key[k % 8])
    {
      assert data[from + i] == data[from + i..][0] == plain[i];
      data[from + i] := XorByte(data[from + i], key[i % 8]);
    }
  }

  // memcpy.
  method Copy(src: Bytes, data: array<bv8>, at: nat)
    requires at + |src| <= data.Length
    modifies data
    ensures forall k | 0 <= k < data.Length :: data[k] == if at <= k < at + |src| then src[k - at] else old(data[k])
  {
    forall i | 0 <= i < |src| {
      data[at + i] := src[i];
    }
  }
}
