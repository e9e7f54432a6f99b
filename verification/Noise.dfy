/**
  The chunked payload encryption of a connection: a message is cut into payloads of at
  most 65519 bytes, every payload is sealed into 16 bytes more than its own length, and
  both ends number the sealed chunks with a counter of their own.
  The size limits are those of the Noise Protocol Framework (revision 34), sections 3
  and 4.2; the counter is the one of section 5.1.
 */
module Noise {
  import opened Common

  const NOISE_MAX_MESSAGE_LEN: nat := 65535
  const MAC_LENGTH: nat := 16
  const NOISE_MAX_PAYLOAD_LEN: nat := 65519

  /** One direction of an established session: `seal` and `open` are indexed by the counter. */
  datatype Cipher = Cipher(seal: (nat, seq<byte>) -> seq<byte>, open: (nat, seq<byte>) -> Option<seq<byte>>)

  /** What the session library promises: opening undoes sealing, and what opens is 16 bytes shorter. */
  ghost predicate Lawful(c: Cipher) {
    && (forall n: nat, p :: |c.seal(n, p)| == |p| + MAC_LENGTH && c.open(n, c.seal(n, p)) == Some(p))
    && (forall n: nat, x :: c.open(n, x).Some? ==> |x| == |c.open(n, x).value| + MAC_LENGTH)
  }

  // ----- a concrete cipher, so that the assumptions are seen to be consistent

  function Shifted(n: nat, p: seq<byte>): (r: seq<byte>)
    ensures |r| == |p|
  {
    seq(|p|, i requires 0 <= i < |p| => ((p[i] as int + n) % 256) as byte)
  }

  function Unshifted(n: nat, p: seq<byte>): (r: seq<byte>)
    ensures |r| == |p|
  {
    seq(|p|, i requires 0 <= i < |p| => ((p[i] as int - n) % 256) as byte)
  }

  function Tag(n: nat): (r: seq<byte>)
    ensures |r| == MAC_LENGTH
  {
    seq(MAC_LENGTH, i => (n % 256) as byte)
  }

  const ShiftCipher: Cipher :=
    Cipher((n: nat, p: seq<byte>) => Shifted(n, p) + Tag(n),
           (n: nat, x: seq<byte>) =>
             if |x| < MAC_LENGTH || x[|x| - MAC_LENGTH..] != Tag(n) then None
             else Some(Unshifted(n, x[..|x| - MAC_LENGTH])))

  lemma ShiftCipherIsLawful()
    ensures Lawful(ShiftCipher)
  {
    forall n: nat, p: seq<byte>
      ensures ShiftCipher.open(n, ShiftCipher.seal(n, p)) == Some(p)
    {
      var x := ShiftCipher.seal(n, p);
      assert x[|x| - MAC_LENGTH..] == Tag(n);
      assert x[..|x| - MAC_LENGTH] == Shifted(n, p);
      forall i | 0 <= i < |p|
        ensures Unshifted(n, Shifted(n, p))[i] == p[i]
      {
        UnshiftByte(p[i] as int, n);
      }
      assert Unshifted(n, Shifted(n, p)) == p;
    }
  }

  lemma UnshiftByte(b: int, n: nat)
    requires 0 <= b < 256
    ensures ((b + n) % 256 - n) % 256 == b
  {
    var q := (b + n) / 256;
    assert (b + n) % 256 - n == b - 256 * q;
  }

  // ----- the chunks of one message

  /** The sealed chunks of plaintext `p`, the first one under counter `n`. */
  function SealChunks(c: Cipher, n: nat, p: seq<byte>): seq<byte>
    decreases |p|
  {
    if p == [] then []
    else
      var k := Min(NOISE_MAX_PAYLOAD_LEN, |p|);
      c.seal(n, p[..k]) + SealChunks(c, n + 1, p[k..])
  }

  /** Opening a sealed message chunk by chunk, each into a fresh buffer. */
  function OpenChunks(c: Cipher, n: nat, x: seq<byte>): Option<seq<byte>>
    decreases |x|
  {
    if x == [] then Some([])
    else
      var k := Min(NOISE_MAX_MESSAGE_LEN, |x|);
      Prepend(c.open(n, x[..k]), OpenChunks(c, n + 1, x[k..]))
  }

  function Prepend(a: Option<seq<byte>>, b: Option<seq<byte>>): Option<seq<byte>> {
    if a.Some? && b.Some? then Some(a.value + b.value) else None
  }

  /** The encrypted length computed by the sender before it encrypts anything. */
  function SealedLen(len: nat): nat {
    len / NOISE_MAX_PAYLOAD_LEN * NOISE_MAX_MESSAGE_LEN
    + (if len % NOISE_MAX_PAYLOAD_LEN != 0 then len % NOISE_MAX_PAYLOAD_LEN + MAC_LENGTH else 0)
  }

  /** The number of chunks the receiver finds in `len` encrypted bytes. */
  function ChunksIn(len: nat): nat {
    len / NOISE_MAX_MESSAGE_LEN + (if len % NOISE_MAX_MESSAGE_LEN > 0 then 1 else 0)
  }

  /** The number of chunks the sender makes of `len` plaintext bytes. */
  function ChunksOf(len: nat): nat {
    len / NOISE_MAX_PAYLOAD_LEN + (if len % NOISE_MAX_PAYLOAD_LEN > 0 then 1 else 0)
  }

  /** Sender and receiver agree on chunk boundaries, so their counters stay together. */
  lemma ChunkCountsAgree(len: nat)
    ensures ChunksIn(SealedLen(len)) == ChunksOf(len)
  {
    var q, r := len / NOISE_MAX_PAYLOAD_LEN, len % NOISE_MAX_PAYLOAD_LEN;
    assert SealedLen(len) / NOISE_MAX_MESSAGE_LEN == q;
  }

  /** The length written into the header is the number of bytes that follow it. */
  lemma {:induction false} SealChunksLength(c: Cipher, n: nat, p: seq<byte>)
    requires Lawful(c)
    ensures |SealChunks(c, n, p)| == SealedLen(|p|)
    decreases |p|
  {
    if p == [] {
    } else {
      var k := Min(NOISE_MAX_PAYLOAD_LEN, |p|);
      SealChunksLength(c, n + 1, p[k..]);
    }
  }

  /** Opening undoes sealing: for every plaintext, whatever its number of chunks. */
  lemma {:induction false} OpenUndoesSeal(c: Cipher, n: nat, p: seq<byte>)
    requires Lawful(c)
    ensures OpenChunks(c, n, SealChunks(c, n, p)) == Some(p)
    decreases |p|
  {
    if p == [] {
    } else {
      var k := Min(NOISE_MAX_PAYLOAD_LEN, |p|);
      var head, rest := c.seal(n, p[..k]), SealChunks(c, n + 1, p[k..]);
      var x := head + rest;
      OpenUndoesSeal(c, n + 1, p[k..]);
      assert Min(NOISE_MAX_MESSAGE_LEN, |x|) == |head|;
      assert x[..|head|] == head && x[|head|..] == rest;
      assert p[..k] + p[k..] == p;
    }
  }

  /** The encrypted length grows strictly with the plaintext length. */
  lemma SealedLenIncreases(a: nat, b: nat)
    requires a < b
    ensures SealedLen(a) < SealedLen(b)
  {
  }

  // ----- opening in place

  /**
    The receiver's decryption: chunk `i` is copied from position `i * 65535` of the message
    into the session buffer, opened there, and its plaintext written back at position
    `i * 65519` of the same message, which is then truncated to its first `len` bytes.
   */
  method DecryptInPlace(c: Cipher, count: nat, msg: array<byte>, noise: array<byte>)
    returns (ok: bool, len: nat, chunks: nat)
    requires Lawful(c)
    requires noise.Length == NOISE_MAX_MESSAGE_LEN && msg != noise
    modifies msg, noise
    ensures ok <==> OpenChunks(c, count, old(msg[..])).Some?
    ensures ok ==> len <= msg.Length && Some(msg[..len]) == OpenChunks(c, count, old(msg[..]))
    ensures Covers(chunks, msg.Length)
  {
    hide InPlace, Splice, Lawful, OpenChunks;
    ghost var sealed := msg[..];
    ghost var w: nat, pos: nat := 0, 0;
    InPlaceFromStart(c, count, sealed);
    chunks := CountChunks(msg.Length);
    for i := 0 to chunks
      invariant pos == Min(i * NOISE_MAX_MESSAGE_LEN, msg.Length)
      invariant w + i * MAC_LENGTH == pos
      invariant InPlace(c, count + i, msg[..], w, pos) == OpenChunks(c, count, sealed)
    {
      assert w == i * NOISE_MAX_PAYLOAD_LEN;
      InPlaceStep(c, count + i, msg[..], w, pos);
      var plain := DecryptChunk(c, count + i, msg, noise, i);
      if plain.None? {
        return false, 0, chunks;
      }
      w, pos := w + |plain.value|, Min(pos + NOISE_MAX_MESSAGE_LEN, msg.Length);
    }
    InPlaceEnd(c, count + chunks, msg[..], w);
    return true, msg.Length - chunks * MAC_LENGTH, chunks;
  }

  /** `chunks` full-sized chunks are just enough for `len` bytes. */
  ghost predicate Covers(chunks: nat, len: nat) {
    && len <= chunks * NOISE_MAX_MESSAGE_LEN
    && (chunks > 0 ==> (chunks - 1) * NOISE_MAX_MESSAGE_LEN < len)
  }

  lemma CoversIsChunksIn(chunks: nat, len: nat)
    requires Covers(chunks, len)
    ensures chunks == ChunksIn(len)
  {
  }

  method CountChunks(len: nat) returns (chunks: nat)
    ensures Covers(chunks, len)
  {
    chunks := ChunksIn(len);
  }

  /**
    The loop on values: `now` is what the message holds, its first `w` bytes are plaintext
    and the ciphertext from `pos` on has not been read yet.
   */
  ghost function InPlace(c: Cipher, n: nat, now: seq<byte>, w: nat, pos: nat): Option<seq<byte>>
    requires Lawful(c)
    requires w <= pos <= |now|
    decreases |now| - pos
  {
    if pos == |now| then Some(now[..w])
    else
      var next := Min(pos + NOISE_MAX_MESSAGE_LEN, |now|);
      var plain := c.open(n, now[pos..next]);
      if plain.None? then None
      else InPlace(c, n + 1, Splice(now, w, plain.value), w + |plain.value|, next)
  }

  /** Opening in place is opening chunk by chunk into fresh buffers: every write ends before the next read. */
  lemma {:induction false} InPlaceIsOpenChunks(c: Cipher, n: nat, now: seq<byte>, w: nat, pos: nat)
    requires Lawful(c)
    requires w <= pos <= |now|
    ensures InPlace(c, n, now, w, pos) == Prepend(Some(now[..w]), OpenChunks(c, n, now[pos..]))
    decreases |now| - pos
  {
    if pos == |now| {
      assert now[pos..] == [] && now[..w] + [] == now[..w];
    } else {
      var next := Min(pos + NOISE_MAX_MESSAGE_LEN, |now|);
      OpenOne(c, n, now, pos);
      var plain := c.open(n, now[pos..next]);
      if plain.Some? {
        var rest := OpenChunks(c, n + 1, now[next..]);
        calc {
          InPlace(c, n, now, w, pos);
          InPlace(c, n + 1, Splice(now, w, plain.value), w + |plain.value|, next);
          { InPlaceIsOpenChunks(c, n + 1, Splice(now, w, plain.value), w + |plain.value|, next);
            SpliceBehind(now, w, plain.value, next); }
          Prepend(Some(now[..w] + plain.value), rest);
          { PrependAssociates(now[..w], plain.value, rest); }
          Prepend(Some(now[..w]), Prepend(plain, rest));
        }
      }
    }
  }

  lemma InPlaceFromStart(c: Cipher, n: nat, sealed: seq<byte>)
    requires Lawful(c)
    ensures InPlace(c, n, sealed, 0, 0) == OpenChunks(c, n, sealed)
  {
    InPlaceIsOpenChunks(c, n, sealed, 0, 0);
    assert sealed[0..] == sealed;
    var rest := OpenChunks(c, n, sealed);
    if rest.Some? {
      assert [] + rest.value == rest.value;
    }
  }

  lemma InPlaceEnd(c: Cipher, n: nat, now: seq<byte>, w: nat)
    requires Lawful(c)
    requires w <= |now|
    ensures InPlace(c, n, now, w, |now|) == Some(now[..w])
  {
  }

  lemma InPlaceStep(c: Cipher, n: nat, now: seq<byte>, w: nat, pos: nat)
    requires Lawful(c)
    requires w <= pos < |now|
    ensures var next := Min(pos + NOISE_MAX_MESSAGE_LEN, |now|);
            var plain := c.open(n, now[pos..next]);
            InPlace(c, n, now, w, pos)
            == if plain.None? then None
               else InPlace(c, n + 1, Splice(now, w, plain.value), w + |plain.value|, next)
    ensures var next := Min(pos + NOISE_MAX_MESSAGE_LEN, |now|);
            var plain := c.open(n, now[pos..next]);
            plain.Some? ==> |plain.value| + MAC_LENGTH == next - pos
  {
  }

  lemma OpenOne(c: Cipher, n: nat, now: seq<byte>, pos: nat)
    requires pos < |now|
    ensures var next := Min(pos + NOISE_MAX_MESSAGE_LEN, |now|);
            OpenChunks(c, n, now[pos..]) == Prepend(c.open(n, now[pos..next]), OpenChunks(c, n + 1, now[next..]))
  {
    var next := Min(pos + NOISE_MAX_MESSAGE_LEN, |now|);
    assert now[pos..][..next - pos] == now[pos..next] && now[pos..][next - pos..] == now[next..];
  }

  lemma PrependAssociates(a: seq<byte>, b: seq<byte>, rest: Option<seq<byte>>)
    ensures Prepend(Some(a + b), rest) == Prepend(Some(a), Prepend(Some(b), rest))
  {
    if rest.Some? {
      assert a + (b + rest.value) == a + b + rest.value;
    }
  }

  lemma SpliceBehind(s: seq<byte>, at: nat, x: seq<byte>, next: nat)
    requires at + |x| <= next <= |s|
    ensures var r := Splice(s, at, x);
            r[..at + |x|] == s[..at] + x && r[next..] == s[next..]
  {
  }

  /** One chunk: where it is read, where its plaintext is written, and nothing else. */
  method DecryptChunk(c: Cipher, count: nat, msg: array<byte>, noise: array<byte>, i: nat)
    returns (plain: Option<seq<byte>>)
    requires Lawful(c)
    requires noise.Length == NOISE_MAX_MESSAGE_LEN && msg != noise
    requires i * NOISE_MAX_MESSAGE_LEN < msg.Length
    modifies msg, noise
    ensures var pos := i * NOISE_MAX_MESSAGE_LEN;
            plain == c.open(count, old(msg[..])[pos..Min(pos + NOISE_MAX_MESSAGE_LEN, msg.Length)])
    ensures plain.None? ==> msg[..] == old(msg[..])
    ensures plain.Some? ==>
              && i * NOISE_MAX_PAYLOAD_LEN + |plain.value| <= msg.Length
              && msg[..] == Splice(old(msg[..]), i * NOISE_MAX_PAYLOAD_LEN, plain.value)
  {
    hide Splice;
    var start := i * NOISE_MAX_MESSAGE_LEN;
    var readSize := Min(NOISE_MAX_MESSAGE_LEN, msg.Length - start);
    ghost var chunk := msg[..][start..start + readSize];
    CopyInto(noise, 0, msg[start..start + readSize]);
    assert noise[..readSize] == noise[0..readSize] == chunk;
    plain := c.open(count, noise[..readSize]);
    if plain.Some? {
      CopyInto(noise, 0, plain.value);
      assert noise[..readSize - MAC_LENGTH] == noise[0..|plain.value|] == plain.value;
      CopyInto(msg, i * NOISE_MAX_PAYLOAD_LEN, noise[..readSize - MAC_LENGTH]);
    }
  }
}
