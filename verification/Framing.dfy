/**
  The byte stream of an established connection: every message is a 4-byte big-endian length
  followed by that many encrypted bytes. The receiver is specified here one byte at a time;
  the buffered receiver of `LowLevel` is proved to compute the same thing.
 */
module Framing {
  import opened Common
  import opened Noise

  const PAYLOAD_SIZE: nat := 4
  /** The largest announced length the receiver accepts: 20 MiB. */
  const PROTOCOL_MAX_MESSAGE_SIZE: nat := 20_971_520
  /** The largest plaintext that fits this limit once encrypted. */
  const MAX_PLAINTEXT_SIZE: nat := 20_966_384
  const TWO_32: nat := 0x1_0000_0000

  // ----- the length header

  /** The header for length `n`; the length is cast to 32 bits first. */
  function Header(n: nat): (h: seq<byte>)
    ensures |h| == PAYLOAD_SIZE
  {
    var v := n % TWO_32;
    [(v / 0x100_0000) as byte, (v / 0x1_0000 % 0x100) as byte, (v / 0x100 % 0x100) as byte, (v % 0x100) as byte]
  }

  function Announced(h: seq<byte>): nat
    requires |h| == PAYLOAD_SIZE
  {
    h[0] as int * 0x100_0000 + h[1] as int * 0x1_0000 + h[2] as int * 0x100 + h[3] as int
  }

  lemma HeaderRoundTrip(n: nat)
    ensures Announced(Header(n)) == n % TWO_32
  {
    var v := n % TWO_32;
    assert v / 0x1_0000 / 0x100 == v / 0x100_0000;
    assert v / 0x100 / 0x100 == v / 0x1_0000;
  }

  /** Most significant byte first: the first byte in which two headers differ tells which length is smaller. */
  lemma HeaderIsBigEndian(a: nat, b: nat) returns (i: nat)
    requires a < b < TWO_32
    ensures i < PAYLOAD_SIZE && Header(a)[..i] == Header(b)[..i] && Header(a)[i] < Header(b)[i]
  {
    hide Header;
    HeaderDigits(a);
    HeaderDigits(b);
    if a / 0x100_0000 != b / 0x100_0000 {
      i := 0;
    } else if a / 0x1_0000 != b / 0x1_0000 {
      i := 1;
    } else if a / 0x100 != b / 0x100 {
      i := 2;
    } else {
      i := 3;
    }
  }

  lemma HeaderDigits(n: nat)
    requires n < TWO_32
    ensures var h := Header(n);
            && h[0] as int == n / 0x100_0000
            && n / 0x1_0000 == n / 0x100_0000 * 0x100 + h[1] as int
            && n / 0x100 == n / 0x1_0000 * 0x100 + h[2] as int
            && n == n / 0x100 * 0x100 + h[3] as int
  {
    assert n / 0x1_0000 / 0x100 == n / 0x100_0000;
    assert n / 0x100 / 0x100 == n / 0x1_0000;
  }

  /** The receiver's checks of an announced length, after the handshake. */
  predicate AcceptsLength(n: nat) {
    n != 0 && n <= PROTOCOL_MAX_MESSAGE_SIZE
  }

  /** The messages a peer can be sent. */
  predicate Transmissible(m: seq<byte>) {
    1 <= |m| <= MAX_PLAINTEXT_SIZE
  }

  /** The encrypted length is within the limit exactly for plaintexts of 1 to 20,966,384 bytes. */
  lemma SealedWithinLimit(m: seq<byte>)
    ensures AcceptsLength(SealedLen(|m|)) <==> Transmissible(m)
  {
    if |m| < MAX_PLAINTEXT_SIZE {
      SealedLenIncreases(|m|, MAX_PLAINTEXT_SIZE);
    } else if |m| > MAX_PLAINTEXT_SIZE {
      SealedLenIncreases(MAX_PLAINTEXT_SIZE, |m|);
    }
    if m != [] {
      SealedLenIncreases(0, |m|);
    }
  }

  /** The receiver's size checks, made on the header it gets, accept exactly these plaintexts. */
  lemma AcceptedSizes(m: seq<byte>)
    requires SealedLen(|m|) < TWO_32
    ensures AcceptsLength(Announced(Header(SealedLen(|m|)))) <==> Transmissible(m)
  {
    hide SealedLen, Header, Announced;
    HeaderRoundTrip(SealedLen(|m|));
    SealedWithinLimit(m);
  }

  // ----- the sender's stream

  /** One message on the wire, its first chunk sealed under counter `n`. */
  function Frame(c: Cipher, n: nat, m: seq<byte>): seq<byte> {
    Header(SealedLen(|m|)) + SealChunks(c, n, m)
  }

  function Stream(c: Cipher, n: nat, msgs: seq<seq<byte>>): seq<byte>
    decreases |msgs|
  {
    if msgs == [] then []
    else Frame(c, n, msgs[0]) + Stream(c, n + ChunksOf(|msgs[0]|), msgs[1..])
  }

  /** The sender's counter after it has sealed `msgs`. */
  function CounterAfter(n: nat, msgs: seq<seq<byte>>): nat
    decreases |msgs|
  {
    if msgs == [] then n else CounterAfter(n + ChunksOf(|msgs[0]|), msgs[1..])
  }

  lemma {:induction false} StreamOfConcat(c: Cipher, n: nat, a: seq<seq<byte>>, b: seq<seq<byte>>)
    ensures Stream(c, n, a + b) == Stream(c, n, a) + Stream(c, CounterAfter(n, a), b)
    ensures CounterAfter(n, a + b) == CounterAfter(CounterAfter(n, a), b)
    decreases |a|
  {
    hide Frame, ChunksOf;
    if a == [] {
      assert a + b == b;
    } else {
      var k := n + ChunksOf(|a[0]|);
      StreamOfConcat(c, k, a[1..], b);
      assert (a + b)[1..] == a[1..] + b;
      assert Frame(c, n, a[0]) + (Stream(c, k, a[1..]) + Stream(c, CounterAfter(k, a[1..]), b))
          == Frame(c, n, a[0]) + Stream(c, k, a[1..]) + Stream(c, CounterAfter(k, a[1..]), b);
    }
  }

  // ----- the receiver, one byte at a time

  datatype Phase =
    | ReadingLength(size: seq<byte>)
    | ReadingBody(total: nat, got: seq<byte>)
    | Broken

  /** `count` chunks opened so far, and the messages completed so far. */
  datatype Receiver = Receiver(count: nat, phase: Phase, out: seq<seq<byte>>)

  const START := Receiver(0, ReadingLength([]), [])

  function Feed(c: Cipher, r: Receiver, b: byte): Receiver {
    match r.phase
    case Broken => r
    case ReadingLength(size) =>
      var size' := size + [b];
      if |size'| != PAYLOAD_SIZE then r.(phase := ReadingLength(size'))
      else r.(phase := LengthRead(Announced(size')))
    case ReadingBody(total, got) =>
      var got' := got + [b];
      if |got'| < total then r.(phase := ReadingBody(total, got'))
      else BodyRead(c, r, got')
  }

  function LengthRead(n: nat): Phase {
    if AcceptsLength(n) then ReadingBody(n, []) else Broken
  }

  function BodyRead(c: Cipher, r: Receiver, sealed: seq<byte>): Receiver {
    match OpenChunks(c, r.count, sealed)
    case None => r.(phase := Broken)
    case Some(m) => Receiver(r.count + ChunksIn(|sealed|), ReadingLength([]), r.out + [m])
  }

  function FeedAll(c: Cipher, r: Receiver, bs: seq<byte>): Receiver
    decreases |bs|
  {
    if bs == [] then r else FeedAll(c, Feed(c, r, bs[0]), bs[1..])
  }

  lemma FeedNothing(c: Cipher, r: Receiver)
    ensures FeedAll(c, r, []) == r
  {
  }

  /** How the stream is cut into reads makes no difference. */
  lemma {:induction false} FeedSplit(c: Cipher, r: Receiver, a: seq<byte>, b: seq<byte>)
    ensures FeedAll(c, r, a + b) == FeedAll(c, FeedAll(c, r, a), b)
    decreases |a|
  {
    if a == [] {
      assert a + b == b;
    } else {
      assert (a + b)[1..] == a[1..] + b;
      FeedSplit(c, Feed(c, r, a[0]), a[1..], b);
    }
  }

  /** Any number of reads is one read of all their bytes. */
  lemma {:induction false} FeedReads(c: Cipher, r: Receiver, cuts: seq<seq<byte>>)
    ensures FeedAll(c, r, Flatten(cuts)) == FeedEach(c, r, cuts)
    decreases |cuts|
  {
    if cuts == [] {
    } else {
      FeedSplit(c, r, cuts[0], Flatten(cuts[1..]));
      FeedReads(c, FeedAll(c, r, cuts[0]), cuts[1..]);
    }
  }

  function FeedEach(c: Cipher, r: Receiver, cuts: seq<seq<byte>>): Receiver
    decreases |cuts|
  {
    if cuts == [] then r else FeedEach(c, FeedAll(c, r, cuts[0]), cuts[1..])
  }

  lemma {:induction false} FeedLength(c: Cipher, r: Receiver, bs: seq<byte>)
    requires r.phase.ReadingLength? && |r.phase.size| < PAYLOAD_SIZE && bs != []
    requires |r.phase.size| + |bs| <= PAYLOAD_SIZE
    ensures var size := r.phase.size + bs;
            FeedAll(c, r, bs)
            == r.(phase := if |size| == PAYLOAD_SIZE then LengthRead(Announced(size)) else ReadingLength(size))
    decreases |bs|
  {
    var size := r.phase.size + [bs[0]];
    if |bs| == 1 {
      assert bs == [bs[0]] && bs[1..] == [];
    } else {
      assert size + bs[1..] == r.phase.size + bs;
      FeedLength(c, r.(phase := ReadingLength(size)), bs[1..]);
    }
  }

  lemma {:induction false} FeedBody(c: Cipher, r: Receiver, bs: seq<byte>)
    requires r.phase.ReadingBody? && bs != []
    requires |r.phase.got| + |bs| <= r.phase.total
    ensures var got := r.phase.got + bs;
            FeedAll(c, r, bs)
            == if |got| == r.phase.total then BodyRead(c, r, got)
               else r.(phase := ReadingBody(r.phase.total, got))
    decreases |bs|
  {
    var got := r.phase.got + [bs[0]];
    if |bs| == 1 {
      assert bs == [bs[0]] && bs[1..] == [];
    } else {
      assert got + bs[1..] == r.phase.got + bs;
      FeedBody(c, r.(phase := ReadingBody(r.phase.total, got)), bs[1..]);
    }
  }

  lemma {:induction false} FeedBroken(c: Cipher, r: Receiver, bs: seq<byte>)
    requires r.phase.Broken?
    ensures FeedAll(c, r, bs) == r
    decreases |bs|
  {
    if bs == [] {
    } else {
      FeedBroken(c, r, bs[1..]);
    }
  }

  // ----- sender and receiver together

  /** Receiving one frame delivers exactly its message and leaves the counters together. */
  lemma FeedFrame(c: Cipher, r: Receiver, m: seq<byte>)
    requires Lawful(c)
    requires r.phase == ReadingLength([]) && Transmissible(m)
    ensures FeedAll(c, r, Frame(c, r.count, m))
            == Receiver(r.count + ChunksOf(|m|), ReadingLength([]), r.out + [m])
  {
    var header, body := Header(SealedLen(|m|)), SealChunks(c, r.count, m);
    FeedSplit(c, r, header, body);
    FeedHeader(c, r, m);
    SealChunksLength(c, r.count, m);
    FeedBody(c, FeedAll(c, r, header), body);
    assert [] + body == body;
    OpenUndoesSeal(c, r.count, m);
    ChunkCountsAgree(|m|);
  }

  /** Receiving the header of `m` announces its encrypted length, or breaks the connection. */
  lemma FeedHeader(c: Cipher, r: Receiver, m: seq<byte>)
    requires SealedLen(|m|) < TWO_32 || Transmissible(m)
    requires r.phase == ReadingLength([])
    ensures FeedAll(c, r, Header(SealedLen(|m|)))
            == r.(phase := if Transmissible(m) then ReadingBody(SealedLen(|m|), []) else Broken)
    ensures Transmissible(m) ==> SealedLen(|m|) > 0
  {
    hide SealedLen, Header, Announced, FeedAll;
    var header := Header(SealedLen(|m|));
    SealedWithinLimit(m);
    HeaderRoundTrip(SealedLen(|m|));
    FeedLength(c, r, header);
    assert [] + header == header;
  }

  ghost predicate AllTransmissible(msgs: seq<seq<byte>>) {
    forall i :: 0 <= i < |msgs| ==> Transmissible(msgs[i])
  }

  /** The whole stream of transmissible messages is received as exactly these messages, in order. */
  lemma {:induction false} FeedStream(c: Cipher, r: Receiver, msgs: seq<seq<byte>>)
    requires Lawful(c)
    requires r.phase == ReadingLength([]) && AllTransmissible(msgs)
    ensures FeedAll(c, r, Stream(c, r.count, msgs))
            == Receiver(CounterAfter(r.count, msgs), ReadingLength([]), r.out + msgs)
    decreases |msgs|
  {
    hide Frame, ChunksOf, FeedAll;
    if msgs == [] {
      FeedNothing(c, r);
      assert r.out + msgs == r.out;
    } else {
      var m, rest := msgs[0], msgs[1..];
      var r' := Receiver(r.count + ChunksOf(|m|), ReadingLength([]), r.out + [m]);
      FeedSplit(c, r, Frame(c, r.count, m), Stream(c, r'.count, rest));
      FeedFrame(c, r, m);
      FeedStream(c, r', rest);
      assert r.out + [m] + rest == r.out + msgs;
    }
  }

  /** A proper prefix of a frame delivers nothing and breaks nothing. */
  lemma FeedPartOfFrame(c: Cipher, r: Receiver, m: seq<byte>, k: nat)
    requires Lawful(c)
    requires r.phase == ReadingLength([]) && Transmissible(m)
    requires k < |Frame(c, r.count, m)|
    ensures var r' := FeedAll(c, r, Frame(c, r.count, m)[..k]);
            r'.out == r.out && r'.count == r.count && !r'.phase.Broken?
  {
    var header, body := Header(SealedLen(|m|)), SealChunks(c, r.count, m);
    var part := Frame(c, r.count, m)[..k];
    SealChunksLength(c, r.count, m);
    if k == 0 {
    } else if k < PAYLOAD_SIZE {
      FeedLength(c, r, part);
    } else {
      assert part == header + body[..k - PAYLOAD_SIZE];
      FeedSplit(c, r, header, body[..k - PAYLOAD_SIZE]);
      FeedHeader(c, r, m);
      if k > PAYLOAD_SIZE {
        FeedBody(c, FeedAll(c, r, header), body[..k - PAYLOAD_SIZE]);
      }
    }
  }

  /** The number of messages whose frames lie wholly within the first `k` bytes of the stream. */
  function WholeFrames(c: Cipher, n: nat, msgs: seq<seq<byte>>, k: nat): (w: nat)
    ensures w <= |msgs|
    decreases |msgs|
  {
    if msgs == [] || k < |Frame(c, n, msgs[0])| then 0
    else 1 + WholeFrames(c, n + ChunksOf(|msgs[0]|), msgs[1..], k - |Frame(c, n, msgs[0])|)
  }

  /**
    At any moment, whatever part of the stream has arrived: exactly the messages that have
    arrived completely have been delivered, and nothing has gone wrong.
   */
  lemma {:induction false} FeedPrefix(c: Cipher, r: Receiver, msgs: seq<seq<byte>>, k: nat)
    requires Lawful(c)
    requires r.phase == ReadingLength([]) && AllTransmissible(msgs)
    requires k <= |Stream(c, r.count, msgs)|
    ensures var r' := FeedAll(c, r, Stream(c, r.count, msgs)[..k]);
            && r'.out == r.out + msgs[..WholeFrames(c, r.count, msgs, k)]
            && !r'.phase.Broken?
    decreases |msgs|
  {
    hide Frame, ChunksOf, FeedAll;
    if msgs == [] {
      FeedNothing(c, r);
      assert r.out + [] == r.out;
    } else {
      var m, rest := msgs[0], msgs[1..];
      var frame := Frame(c, r.count, m);
      var r' := Receiver(r.count + ChunksOf(|m|), ReadingLength([]), r.out + [m]);
      if k < |frame| {
        assert Stream(c, r.count, msgs)[..k] == frame[..k];
        FeedPartOfFrame(c, r, m, k);
        assert r.out + msgs[..0] == r.out;
      } else {
        var w := WholeFrames(c, r'.count, rest, k - |frame|);
        assert Stream(c, r.count, msgs)[..k] == frame + Stream(c, r'.count, rest)[..k - |frame|];
        FeedSplit(c, r, frame, Stream(c, r'.count, rest)[..k - |frame|]);
        FeedFrame(c, r, m);
        FeedPrefix(c, r', rest, k - |frame|);
        assert r.out + [m] + rest[..w] == r.out + msgs[..w + 1];
      }
    }
  }

  /** The first message that is empty or too long breaks the connection, after all before it. */
  lemma FeedUntransmissible(c: Cipher, r: Receiver, before: seq<seq<byte>>, m: seq<byte>, after: seq<seq<byte>>)
    requires Lawful(c)
    requires r.phase == ReadingLength([]) && AllTransmissible(before)
    requires !Transmissible(m) && SealedLen(|m|) < TWO_32
    ensures var r' := FeedAll(c, r, Stream(c, r.count, before + [m] + after));
            r'.out == r.out + before && r'.phase.Broken?
  {
    hide ChunksOf, FeedAll, SealedLen, Header;
    var r1 := Receiver(CounterAfter(r.count, before), ReadingLength([]), r.out + before);
    var tail := Stream(c, r1.count, [m] + after);
    assert before + [m] + after == before + ([m] + after);
    StreamOfConcat(c, r.count, before, [m] + after);
    FeedSplit(c, r, Stream(c, r.count, before), tail);
    FeedStream(c, r, before);
    var header, rest := Header(SealedLen(|m|)), tail[PAYLOAD_SIZE..];
    assert tail == header + rest;
    FeedSplit(c, r1, header, rest);
    FeedHeader(c, r1, m);
    FeedBroken(c, FeedAll(c, r1, header), rest);
  }

  /**
    Messages arrive as sent if and only if each has 1 to 20,966,384 bytes (for messages whose
    encrypted length fits the 32-bit header).
   */
  lemma DeliveredIffTransmissible(c: Cipher, msgs: seq<seq<byte>>)
    requires Lawful(c)
    requires forall i :: 0 <= i < |msgs| ==> SealedLen(|msgs[i]|) < TWO_32
    ensures FeedAll(c, START, Stream(c, 0, msgs)).out == msgs <==> AllTransmissible(msgs)
  {
    if AllTransmissible(msgs) {
      FeedStream(c, START, msgs);
    } else {
      var i := FirstUntransmissible(msgs);
      assert msgs == msgs[..i] + [msgs[i]] + msgs[i + 1..];
      FeedUntransmissible(c, START, msgs[..i], msgs[i], msgs[i + 1..]);
      assert |msgs[..i]| < |msgs|;
    }
  }

  function FirstUntransmissible(msgs: seq<seq<byte>>): (i: nat)
    requires exists i :: 0 <= i < |msgs| && !Transmissible(msgs[i])
    ensures i < |msgs| && !Transmissible(msgs[i])
    ensures forall j :: 0 <= j < i ==> Transmissible(msgs[j])
  {
    if !Transmissible(msgs[0]) then 0
    else
      assert msgs == [msgs[0]] + msgs[1..];
      1 + FirstUntransmissible(msgs[1..])
  }
}
