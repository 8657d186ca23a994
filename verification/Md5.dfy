/** The buffered MD5 of the client (RFC 1321), over an arbitrary compression function. */
module Md5 {
  import opened Wire

  datatype State = State(a: bv32, b: bv32, c: bv32, d: bv32)

  // What md5_transform does with a state and one 64-byte block. The proofs hold whatever it computes.
  type Compression = (State, seq<bv8>) -> State

  const INIT := State(0x67452301, 0xefcdab89, 0x98badcfe, 0x10325476)

  const TWO64 := 0x1_0000_0000_0000_0000

  // ----- One-shot MD5 (RFC 1321, sections 3.1 to 3.5) -----

  predicate Aligned(n: nat)
  {
    n % 64 == 0
  }

  // The blocks of msg, compressed one after the other.
  function Fold(f: Compression, s: State, msg: seq<bv8>): State
    requires Aligned(|msg|)
    decreases |msg|
  {
    if |msg| == 0 then s else Fold(f, f(s, msg[..64]), msg[64..])
  }

  // One 1 bit, then 0 bits up to 56 bytes modulo 64.
  function Padding(n: nat): (s: seq<bv8>)
    ensures (n + |s|) % 64 == 56 && 1 <= |s| <= 64
  {
    [0x80] + seq((55 - n) % 64, _ => 0)
  }

  // The constant the client takes the padding from.
  const PADDING: seq<bv8> := [0x80] + seq(63, _ => 0)

  lemma PaddingIs(n: nat, padLen: nat)
    requires padLen == if Index(n) < 56 then 56 - Index(n) else 120 - Index(n)
    ensures PADDING[..padLen] == Padding(n)
  {
  }

  lemma LengthFits(n: nat)
    requires n % 64 == 56
    ensures Aligned(n + 8)
  {
  }

  function Pad(msg: seq<bv8>): (s: seq<bv8>)
    ensures Aligned(|s|)
  {
    hide Aligned, Padding, LittleEndian, Wrap64;
    var padded := msg + Padding(|msg|);
    LengthFits(|padded|);
    padded + LittleEndian(Wrap64(8 * |msg|), 8)
  }

  // The message, one 1 bit, fewer than 64 zero bytes, and the number of bits modulo 2^64, lowest byte first.
  lemma PadLayout(msg: seq<bv8>)
    ensures
      var (s, n) := (Pad(msg), |msg|);
      && n + 9 <= |s| < n + 9 + 64 && |s| % 64 == 0
      && s[..n] == msg && s[n] == 0x80 && (forall k | n < k < |s| - 8 :: s[k] == 0)
      && FromLittleEndian(s[|s| - 8..]) == 8 * n % 0x1_0000_0000_0000_0000
  {
    hide LittleEndian, FromLittleEndian;
    var (s, n) := (Pad(msg), |msg|);
    assert Pow256(8) == TWO64;
    LittleEndianRoundTrip(Wrap64(8 * n), 8);
    assert s[|s| - 8..] == LittleEndian(Wrap64(8 * n), 8);
  }

  // The registers start as the bytes 01 23 45 67 89 ab cd ef and back (RFC 1321, section 3.3).
  lemma StartBytes()
    ensures Digest(INIT) == [0x01, 0x23, 0x45, 0x67, 0x89, 0xab, 0xcd, 0xef, 0xfe, 0xdc, 0xba, 0x98, 0x76, 0x54, 0x32, 0x10]
  {
  }

  function WordBytes(w: bv32): (s: seq<bv8>)
    ensures |s| == 4
  {
    [(w & 0xff) as bv8, ((w >> 8) & 0xff) as bv8, ((w >> 16) & 0xff) as bv8, ((w >> 24) & 0xff) as bv8]
  }

  function Digest(s: State): (d: seq<bv8>)
    ensures |d| == 16
  {
    WordBytes(s.a) + WordBytes(s.b) + WordBytes(s.c) + WordBytes(s.d)
  }

  function Md5(f: Compression, msg: seq<bv8>): (d: seq<bv8>)
    ensures |d| == 16
  {
    Digest(Fold(f, INIT, Pad(msg)))
  }

  lemma {:induction false} FoldBlock(f: Compression, s: State, msg: seq<bv8>, block: seq<bv8>)
    requires Aligned(|msg|) && |block| == 64
    ensures Fold(f, s, msg + block) == f(Fold(f, s, msg), block)
    decreases |msg|
  {
    if |msg| == 0 {
      assert msg + block == block && block[..64] == block;
    } else {
      assert (msg + block)[..64] == msg[..64] && (msg + block)[64..] == msg[64..] + block;
      FoldBlock(f, f(s, msg[..64]), msg[64..], block);
    }
  }

  // ----- Streaming MD5 -----

  // Unsigned counters of the client wrap around.
  function Wrap32(n: nat): nat { n % TWO32 }
  function Wrap64(n: nat): nat { n % TWO64 }

  // The place in the current block.
  function Index(n: nat): (i: nat)
    ensures i < 64
  {
    n % 64
  }

  // Bytes of n that make up whole blocks.
  function Whole(n: nat): (w: nat)
    ensures w <= n < w + 64 && Aligned(w)
  {
    n - n % 64
  }


  lemma WholeIs(n: nat, done: nat)
    requires Aligned(done) && done <= n < done + 64
    ensures Whole(n) == done
  {
  }

  // ----- The 32-bit test of the block loop -----

  // Where the loop that starts at position i of an input has to stop: less than a block is left.
  function StopAt(i: nat, len: nat): (j: nat)
    requires i <= len
    ensures i <= j <= len < j + 64 && Aligned(j - i)
  {
    StopIs(len - i);
    len - Index(len - i)
  }

  lemma StopIs(n: nat)
    ensures Index(n) <= n && Aligned(n - Index(n))
  {
  }

  // The loop's test, evaluated in 32 bits.
  predicate GoesOn(j: nat, len: nat)
  {
    Wrap32(j + 63) < len
  }

  // The sum does not wrap around at that place.
  predicate Stops(i: nat, len: nat)
    requires i <= len
  {
    StopAt(i, len) + 63 < TWO32
  }

  // The exact condition: the test lets the loop go on up to the place where it has to stop, and there it ends the loop if
  // and only if the sum does not wrap around.
  lemma LoopTest(i: nat, len: nat)
    requires i <= len < TWO32
    ensures forall j | i <= j < StopAt(i, len) && Aligned(j - i) :: GoesOn(j, len)
    ensures !GoesOn(StopAt(i, len), len) <==> Stops(i, len)
  {
    hide Index, Aligned;
    var stop := StopAt(i, len);
    forall j | i <= j < stop && Aligned(j - i)
      ensures GoesOn(j, len)
    {
      WholeSteps(j - i, stop - i);
      Unwrapped(j + 63);
    }
    if Stops(i, len) {
      Unwrapped(stop + 63);
    } else {
      WrappedOnce(stop + 63);
    }
  }

  lemma NothingAligned()
    ensures Aligned(0)
  {
  }

  lemma WholeSteps(a: nat, b: nat)
    requires Aligned(a) && Aligned(b) && a < b
    ensures a + 64 <= b && Aligned(a + 64)
  {
  }

  lemma Unwrapped(n: nat)
    requires n < TWO32
    ensures Wrap32(n) == n
  {
  }

  lemma WrappedOnce(n: nat)
    requires TWO32 <= n < TWO32 + 63
    ensures Wrap32(n) == n - TWO32
  {
  }

  // An input that an update processes as it should, when n bytes were fed in before.
  predicate Takes(n: nat, len: nat)
  {
    len < TWO32 && (64 - Index(n) <= len ==> Stops(64 - Index(n), len))
  }

  // Every length that stays clear of the limit is one.
  lemma ShortInput(n: nat, len: nat)
    requires len < TWO32 - 63
    ensures Takes(n, len)
  {
    hide Index;
  }

  // And so is every length of the first update.
  lemma FirstInput(len: nat)
    requires len < TWO32
    ensures Takes(0, len)
  {
    if len >= 64 {
      hide Index, Aligned;
      assert Index(0) == 0 by {
        IndexIs(0, 0, 0);
      }
      StopAligned(StopAt(64, len));
    }
  }

  lemma StopAligned(j: nat)
    requires 64 <= j < TWO32 && Aligned(j - 64)
    ensures j + 63 < TWO32
  {
  }

  // One byte and then 2^32 - 63 more: the loop does not end where less than a block is left.
  lemma LongUpdateOverruns()
    ensures !Takes(1, TWO32 - 1) && GoesOn(StopAt(63, TWO32 - 1), TWO32 - 1)
  {
    IndexIs(1, 0, 1);
    IndexIs(TWO32 - 64, 0x3ff_ffff, 0);
  }

  lemma IndexIs(n: nat, q: nat, r: nat)
    requires n == 64 * q + r && r < 64
    ensures Index(n) == r
  {
  }

  // The counter wraps around at a multiple of the block length.
  lemma CountModulo(n: nat)
    ensures Index(Wrap64(n)) == Index(n) == n - Whole(n)
  {
    hide Index;
    var q, r := n / TWO64, n % TWO64;
    assert n == q * TWO64 + r;
    var k, m := r / 64, r % 64;
    assert r == 64 * k + m;
    IndexIs(r, k, m);
    IndexIs(n, q * 0x400_0000_0000_0000 + k, m);
    IndexOfWhole(n);
  }

  lemma IndexOfWhole(n: nat)
    ensures Index(n) == n - Whole(n)
  {
  }

  lemma BitCount(n: nat)
    ensures Wrap64(8 * Wrap64(n)) == Wrap64(8 * n)
  {
    var q, r := n / TWO64, n % TWO64;
    assert 8 * n == (8 * q) * TWO64 + 8 * r;
    WrapShift(8 * q, 8 * r);
  }

  lemma WrapShift(q: nat, r: nat)
    ensures Wrap64(q * TWO64 + r) == Wrap64(r)
  {
  }

  lemma WrapSum(a: nat, b: nat)
    ensures Wrap64(Wrap64(a) + b) == Wrap64(a + b)
  {
    assert a + b == (a / TWO64) * TWO64 + (a % TWO64 + b);
  }

  lemma SumWithin(a: seq<bv8>, b: seq<bv8>, n: nat)
    requires n <= |a|
    ensures (a + b)[..n] == a[..n] && (a + b)[n..] == a[n..] + b
  {
  }

  lemma SumBeyond(a: seq<bv8>, b: seq<bv8>, n: nat)
    requires n <= |b|
    ensures (a + b)[|a| + n..] == b[n..]
  {
  }

  class Context {
    const f: Compression
    var state: State
    var count: nat
    const buffer: array<bv8>
    // Everything fed in so far.
    ghost var msg: seq<bv8>

    // The state covers the whole blocks of the message and the buffer holds exactly the rest.
    ghost predicate Valid()
      reads this, buffer
    {
      && buffer.Length == 64
      && count == Wrap64(|msg|)
      && state == Fold(f, INIT, msg[..Whole(|msg|)])
      && buffer[..|msg| - Whole(|msg|)] == msg[Whole(|msg|)..]
    }

    constructor (f: Compression)
      ensures Valid() && fresh(buffer) && msg == [] && this.f == f
    {
      this.f := f;
      count := 0;
      state := INIT;
      buffer := new bv8[64];
      msg := [];
    }

    // memcpy into the buffer.
    method Fill(at: nat, src: seq<bv8>)
      requires buffer.Length == 64 && at + |src| <= 64
      modifies buffer
      ensures buffer[..at] == old(buffer[..at]) && buffer[at..at + |src|] == src
    {
      forall k | 0 <= k < |src| {
        buffer[at + k] := src[k];
      }
    }

    // What is left over goes behind what is buffered.
    method KeepRest(idx: nat, rest: seq<bv8>, ghost tail: seq<bv8>)
      requires buffer.Length == 64 && idx + |rest| <= 64 && tail == buffer[..idx] + rest
      modifies buffer
      ensures buffer[..|tail|] == tail
    {
      Fill(idx, rest);
      assert buffer[..|tail|] == buffer[..idx] + buffer[idx..|tail|];
    }

    // Fills up the buffered block that starts at position done of the message whole, and compresses it.
    method CompleteBlock(idx: nat, head: seq<bv8>, ghost whole: seq<bv8>, ghost done: nat)
      requires buffer.Length == 64 && idx + |head| == 64 && Aligned(done) && done + 64 <= |whole|
      requires buffer[..idx] == whole[done..done + idx] && head == whole[done + idx..done + 64]
      requires state == Fold(f, INIT, whole[..done])
      modifies this`state, buffer
      ensures Aligned(done + 64) && state == Fold(f, INIT, whole[..done + 64])
    {
      hide Fold, Aligned;
      Fill(idx, head);
      assert buffer[..] == buffer[..idx] + buffer[idx..64] == whole[done..done + 64];
      Advance(whole, done, buffer[..]);
      state := f(state, buffer[..]);
    }

    // Compresses the whole blocks of input from position i on; input is the end of the message whole.
    method TransformBlocks(input: seq<bv8>, i: nat, ghost whole: seq<bv8>) returns (j: nat)
      requires i <= |input| < TWO32 && Stops(i, |input|) && |input| <= |whole| && whole[|whole| - |input|..] == input
      requires Aligned(|whole| - |input| + i) && state == Fold(f, INIT, whole[..|whole| - |input| + i])
      modifies this`state
      ensures j == StopAt(i, |input|)
      ensures Aligned(|whole| - |input| + j) && state == Fold(f, INIT, whole[..|whole| - |input| + j])
    {
      hide Fold, Aligned, StopAt, GoesOn, Stops;
      ghost var start := |whole| - |input|;
      LoopTest(i, |input|);
      j := i;
      assert Aligned(j - i) by {
        NothingAligned();
      }
      while GoesOn(j, |input|)
        invariant i <= j <= StopAt(i, |input|) && Aligned(j - i)
        invariant Aligned(start + j) && state == Fold(f, INIT, whole[..start + j])
        decreases |input| - j
      {
        WholeSteps(j - i, StopAt(i, |input|) - i);
        assert whole[start..][j..j + 64] == whole[start + j..start + j + 64];
        Advance(whole, start + j, input[j..j + 64]);
        state := f(state, input[j..j + 64]);
        j := j + 64;
      }
    }

    // The branch of an update that has enough input to fill the buffered block.
    method CompressBlocks(input: seq<bv8>, idx: nat, ghost before: seq<bv8>) returns (i: nat)
      requires buffer.Length == 64 && idx == |before| - Whole(|before|) && 64 - idx <= |input| < TWO32 && Stops(64 - idx, |input|)
      requires state == Fold(f, INIT, before[..Whole(|before|)]) && buffer[..idx] == before[Whole(|before|)..]
      modifies this`state, buffer
      ensures i <= |input| < i + 64
      ensures Aligned(|before| + i) && state == Fold(f, INIT, (before + input)[..|before| + i])
    {
      hide Fold, Whole, Aligned, Stops;
      var partLen := 64 - idx;
      ghost var (whole, done) := (before + input, Whole(|before|));
      assert whole[..done] == before[..done];
      CompleteBlock(idx, input[..partLen], whole, done);
      i := TransformBlocks(input, partLen, whole);
    }

    method Update(input: seq<bv8>)
      requires Valid() && Takes(|msg|, |input|)
      modifies this, buffer
      ensures Valid() && msg == old(msg) + input
    {
      hide Fold, Whole, Wrap64, Aligned, Index, Stops;
      ghost var before := msg;
      ghost var done := Whole(|before|);
      CountModulo(|before|);
      WrapSum(|before|, |input|);
      var length := |input|;
      var idx := Index(count);
      count := Wrap64(count + length);
      var partLen := 64 - idx;
      var i := 0;
      msg := before + input;
      SumWithin(before, input, done);
      if length >= partLen {
        i := CompressBlocks(input, idx, before);
        SumBeyond(before, input, i);
        done := |before| + i;
        idx := 0;
      }
      WholeIs(|msg|, done);
      KeepRest(idx, input[i..], msg[done..]);
    }

    lemma Advance(whole: seq<bv8>, done: nat, block: seq<bv8>)
      requires |block| == 64 && Aligned(done) && done + 64 <= |whole| && whole[done..done + 64] == block
      ensures Aligned(done + 64) && Fold(f, INIT, whole[..done + 64]) == f(Fold(f, INIT, whole[..done]), block)
    {
      assert whole[..done + 64] == whole[..done] + block;
      FoldBlock(f, INIT, whole[..done], block);
    }

    method Final() returns (digest: seq<bv8>)
      requires Valid()
      modifies this, buffer
      ensures digest == Md5(f, old(msg))
    {
      hide Fold, LittleEndian, Padding, Index, Wrap64, Whole, Aligned, Takes;
      CountModulo(|msg|);
      BitCount(|msg|);
      var bitCount := Wrap64(8 * count);
      var bits := LittleEndianBytes(bitCount);
      var idx := Index(count);
      var padLen := if idx < 56 then 56 - idx else 120 - idx;
      PaddingIs(|msg|, padLen);
      ShortInput(|msg|, padLen);
      Update(PADDING[..padLen]);
      ShortInput(|msg|, 8);
      Update(bits);
      assert msg == Pad(old(msg));
      WholeIs(|msg|, |msg|);
      assert msg[..|msg|] == msg;
      digest := WordBytes(state.a) + WordBytes(state.b) + WordBytes(state.c) + WordBytes(state.d);
    }
  }

  method LittleEndianBytes(n: nat) returns (s: seq<bv8>)
    ensures s == LittleEndian(n, 8)
  {
    hide Byte;
    s := [];
    var rest := n;
    for i := 0 to 8
      invariant |s| == i
      invariant s + LittleEndian(rest, 8 - i) == LittleEndian(n, 8)
    {
      s := s + [Byte(rest % 256)];
      rest := rest / 256;
    }
  }

  // md5_hash: one update, for every length that 32 bits can hold.
  method Hash(f: Compression, data: seq<bv8>) returns (digest: seq<bv8>)
    requires |data| < TWO32
    ensures digest == Md5(f, data)
  {
    var ctx := new Context(f);
    FirstInput(|data|);
    ctx.Update(data);
    assert [] + data == data;
    digest := ctx.Final();
  }
}
