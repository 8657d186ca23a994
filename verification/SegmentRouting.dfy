/** Segment-routed packets: what the client makes of them, and the encapsulation that it undoes. */
module SegmentRouting {
  import opened AesCipher
  import opened Wire

  const PACKET_BUFFER := 2048

  // ----- Blockwise AES -----

  function EcbEncrypt(key: Block, data: Bytes): (r: Bytes)
    requires |data| % 16 == 0
    ensures |r| == |data|
    decreases |data|
  {
    if |data| == 0 then [] else Encrypt(key, data[..16]) + EcbEncrypt(key, data[16..])
  }

  function EcbDecrypt(key: Block, data: Bytes): (r: Bytes)
    requires |data| % 16 == 0
    ensures |r| == |data|
    decreases |data|
  {
    if |data| == 0 then [] else Decrypt(key, data[..16]) + EcbDecrypt(key, data[16..])
  }

  lemma {:induction false} EcbRoundTrip(key: Block, data: Bytes)
    requires |data| % 16 == 0
    ensures EcbDecrypt(key, EcbEncrypt(key, data)) == data
    decreases |data|
  {
    hide Encrypt, Decrypt;
    if |data| > 0 {
      CipherRoundTrip(key, data[..16]);
      EcbRoundTrip(key, data[16..]);
      var r := EcbEncrypt(key, data);
      assert r[..16] == Encrypt(key, data[..16]) && r[16..] == EcbEncrypt(key, data[16..]);
      assert data == data[..16] + data[16..];
    }
  }

  // ----- Key setup -----

  // The first 16 bytes of the password followed by the links, padded with zeros.
  function SrKey(password: Bytes, links: seq<Address>): Block
  {
    Padded(password + Flatten(links))
  }

  function Flatten(links: seq<Address>): Bytes
  {
    if links == [] then [] else links[0] + Flatten(links[1..])
  }

  // Mode 2 is not supported and is rewritten to mode 1 when there are links.
  function EffectiveMode(linkCount: nat, mode: nat): nat
  {
    if linkCount > 0 && mode == 2 then 1 else mode
  }

  // ----- Decapsulation -----

  // The block-wise decryption; with the larger block size the data is checked and left as it is.
  function SrDecrypted(key: Block, algorithm: bv8, data: Bytes): Option<Bytes>
  {
    if algorithm == 1 then
      if |data| % 16 == 0 then Some(EcbDecrypt(key, data)) else None
    else
      if |data| % 32 == 0 then Some(data) else None
  }

  function SrHeaderLength(packet: Bytes): nat
    requires |packet| >= HEADER + 4
  {
    Val(packet[9]) * 4 + 4
  }

  function PadLength(flags: bv8): nat
  {
    Val((flags >> 3) & 0x1f)
  }

  // The inner packet of a segment-routed one; None if it is dropped. Decryption is on when there are links and a mode.
  function Inner(linkCount: nat, mode: nat, key: Block, packet: Bytes): (r: Option<Bytes>)
    ensures r.Some? ==> 1 <= |r.value| <= PACKET_BUFFER
  {
    if |packet| < HEADER + 4 || |packet| <= HEADER + SrHeaderLength(packet) then None
    else
      var inner := packet[HEADER + SrHeaderLength(packet)..];
      var algorithm := packet[10] & 7;
      if |inner| > PACKET_BUFFER then None
      else if linkCount == 0 || mode == 0 then Some(inner)
      else if Val(algorithm) == mode then
        match SrDecrypted(key, algorithm, inner)
        case None => None
        case Some(plain) =>
          var pad := PadLength(packet[10]);
          Some(if 0 < pad < |plain| then plain[..|plain| - pad] else plain)
      else if algorithm != 0 then None
      else Some(inner)
  }

  // ----- Encapsulation, as a segment router does it -----

  function Encapsulated(key: Block, header: Bytes, next: bv8, flags: bv8, rest: bv8, links: seq<Address>, inner: Bytes, pad: Bytes): Bytes
    requires |header| == HEADER && |links| < 256 && (|inner| + |pad|) % 16 == 0
  {
    header + [next, Byte(|links|), flags, rest] + Flatten(links) + EcbEncrypt(key, inner + pad)
  }

  lemma {:induction false} FlattenLength(links: seq<Address>)
    ensures |Flatten(links)| == 4 * |links|
  {
    if links != [] {
      FlattenLength(links[1..]);
    }
  }

  lemma {:induction false} FlattenAt(links: seq<Address>, k: nat)
    requires k < 4 * |links|
    ensures |Flatten(links)| == 4 * |links| && Flatten(links)[k] == links[k / 4][k % 4]
  {
    FlattenLength(links);
    if k >= 4 {
      FlattenAt(links[1..], k - 4);
    }
  }

  // The key is the start of the password, then of the links, then zeros.
  lemma SrKeyBytes(password: Bytes, links: seq<Address>, k: nat)
    requires k < 16
    ensures SrKey(password, links)[k] ==
            if k < |password| then password[k]
            else if k < |password| + 4 * |links| then links[(k - |password|) / 4][(k - |password|) % 4]
            else 0
  {
    hide Padded, Flatten;
    FlattenLength(links);
    PaddedBytes(password + Flatten(links));
    assert SrKey(password, links)[k] == ByteAt(password + Flatten(links), k);
    if |password| <= k < |password| + 4 * |links| {
      FlattenAt(links, k - |password|);
    }
  }

  // Whatever header and padding the router chose, the client gets back the packet that was encapsulated.
  lemma DecapsulationUndoes(linkCount: nat, key: Block, header: Bytes, next: bv8, flags: bv8, rest: bv8, links: seq<Address>,
                            inner: Bytes, pad: Bytes)
    requires |header| == HEADER && |links| < 256 && 1 <= |inner| && (|inner| + |pad|) % 16 == 0
    requires |inner| + |pad| <= PACKET_BUFFER && linkCount > 0
    requires flags & 7 == 1 && PadLength(flags) == |pad|
    ensures Inner(linkCount, 1, key, Encapsulated(key, header, next, flags, rest, links, inner, pad)) == Some(inner)
  {
    hide EcbEncrypt, EcbDecrypt, PadLength, Byte;
    FlattenLength(links);
    EcbRoundTrip(key, inner + pad);
    var packet := Encapsulated(key, header, next, flags, rest, links, inner, pad);
    assert packet[9] == Byte(|links|) && packet[10] == flags;
    assert packet[HEADER + 4 + 4 * |links|..] == EcbEncrypt(key, inner + pad);
    assert (inner + pad)[..|inner|] == inner;
    if |pad| == 0 {
      assert inner + pad == inner;
    }
  }
}
