/**
  A connection after its handshake: one socket buffer shared by reads and writes, the message
  being received, the bytes waiting to be written and the messages waiting to be encrypted.
  Ghost fields record what has passed over the socket since the handshake, so that the
  invariants can say what the state means.
 */
module LowLevel {
  import opened Common
  import opened Noise
  import opened Framing

  /** What one `read` of the socket did. */
  datatype SocketRead = Bytes(data: seq<byte>) | ReadWouldBlock | EndOfStream | ReadFailed

  /** What one `write` to the socket did. */
  datatype SocketWrite = Wrote(n: nat) | WriteWouldBlock | WriteFailed

  /** Why reading ended in an error: the socket, the bytes received, or a message that was not accepted. */
  datatype Failure = SocketFailure | ProtocolFailure | Refusal

  datatype ReadResult = Complete(msg: seq<byte>) | Incomplete | WouldBlock | Closed | ReadError(cause: Failure)

  datatype StreamResult = Open | PeerClosed | StreamError(cause: Failure)

  /**
    What handling a received message does to this connection. A function from the number of a
    message within its round and the message gives the reactions of a round, whatever they
    depend on.
   */
  datatype Reaction = Refuse | Accept(high: seq<seq<byte>>, low: seq<seq<byte>>)

  /** How the socket goes on once it has handed over all bytes it has, or has taken all it has room for. */
  datatype ReadEnd = ReadBlocks | Closes | ReadFails
  datatype WriteEnd = WriteBlocks | TakesNothing | WriteFails

  /**
    What happens to the connection from one round of the poll loop to the next: messages queued
    by the rest of the node, the events of the socket, the bytes it takes and those it has to
    offer, what it says after that, and the reactions to the messages received.
   */
  datatype Round = Round(high: seq<seq<byte>>, low: seq<seq<byte>>, writable: bool, room: nat, writeEnd: WriteEnd,
                         readable: bool, available: seq<byte>, readEnd: ReadEnd,
                         handle: (nat, seq<byte>) -> Reaction)

  datatype RoundResult = RoundDone(writeOk: bool, open: bool) | RoundReadError(writeOk: bool, cause: Failure)

  /**
    The socket as a reader sees it: of the bytes `available` it hands over any non-empty part
    that fits; after the last of them it would block, is closed or fails.
   */
  method ReadSocket(cap: nat, available: seq<byte>, end: ReadEnd) returns (io: SocketRead, rest: seq<byte>)
    requires cap > 0
    ensures io.Bytes? <==> available != []
    ensures io.Bytes? ==> 0 < |io.data| <= cap && io.data + rest == available
    ensures !io.Bytes? ==> rest == []
    ensures io.ReadWouldBlock? <==> available == [] && end == ReadBlocks
    ensures io.EndOfStream? <==> available == [] && end == Closes
    ensures io.ReadFailed? <==> available == [] && end == ReadFails
  {
    if available != [] {
      var k: nat :| 0 < k <= cap && k <= |available|;
      return Bytes(available[..k]), available[k..];
    }
    rest := [];
    io := match end { case ReadBlocks => ReadWouldBlock case Closes => EndOfStream case ReadFails => ReadFailed };
  }

  /**
    The socket as a writer sees it: as long as it has room, it takes any non-empty part of what
    it is offered; after that it would block, takes nothing or fails.
   */
  method WriteSocket(data: seq<byte>, room: nat, end: WriteEnd) returns (io: SocketWrite)
    ensures io.Wrote? ==> io.n <= |data| && io.n <= room && (io.n == 0 ==> data == [] || room == 0)
    ensures io.WriteWouldBlock? <==> data != [] && room == 0 && end == WriteBlocks
    ensures io.WriteFailed? <==> data != [] && room == 0 && end == WriteFails
  {
    if data == [] {
      return Wrote(0);
    } else if room == 0 {
      io := match end { case WriteBlocks => WriteWouldBlock case TakesNothing => Wrote(0) case WriteFails => WriteFailed };
    } else {
      var k: nat :| 0 < k <= |data| && k <= room;
      return Wrote(k);
    }
  }

  /** All messages delivered since were accepted. */
  ghost predicate AllAccepted(handle: (nat, seq<byte>) -> Reaction, before: seq<seq<byte>>, delivered: seq<seq<byte>>) {
    && before <= delivered
    && forall i :: |before| <= i < |delivered| ==> handle(i - |before|, delivered[i]).Accept?
  }

  /** What a read error of a round comes from, unless it is the bytes themselves. */
  ghost predicate Explained(e: Round, before: seq<seq<byte>>, delivered: seq<seq<byte>>, cause: Failure) {
    && (cause == SocketFailure ==> e.readEnd == ReadFails)
    && (cause == Refusal ==> LastRefused(e.handle, before, delivered))
  }

  ghost predicate CanRefuse(e: Round) {
    exists i, msg :: e.handle(i, msg).Refuse?
  }

  /** The last of them was refused. */
  ghost predicate LastRefused(handle: (nat, seq<byte>) -> Reaction, before: seq<seq<byte>>, delivered: seq<seq<byte>>) {
    && before < delivered
    && handle(|delivered| - 1 - |before|, delivered[|delivered| - 1]).Refuse?
  }

  /** The high-priority messages queued in reaction to received ones. */
  function HighReplies(handle: (nat, seq<byte>) -> Reaction, msgs: seq<seq<byte>>): seq<seq<byte>> {
    if msgs == [] then []
    else
      HighReplies(handle, msgs[..|msgs| - 1])
      + match handle(|msgs| - 1, msgs[|msgs| - 1]) { case Refuse => [] case Accept(high, _) => high }
  }

  function LowReplies(handle: (nat, seq<byte>) -> Reaction, msgs: seq<seq<byte>>): seq<seq<byte>> {
    if msgs == [] then []
    else
      LowReplies(handle, msgs[..|msgs| - 1])
      + match handle(|msgs| - 1, msgs[|msgs| - 1]) { case Refuse => [] case Accept(_, low) => low }
  }

  /** The queues have grown by exactly the reactions to the messages delivered since. */
  ghost predicate Answered(handle: (nat, seq<byte>) -> Reaction, before: seq<seq<byte>>, delivered: seq<seq<byte>>,
                           high0: seq<seq<byte>>, high: seq<seq<byte>>, low0: seq<seq<byte>>, low: seq<seq<byte>>): (b: bool)
    ensures b ==> before <= delivered
  {
    && before <= delivered
    && high == high0 + HighReplies(handle, delivered[|before|..])
    && low == low0 + LowReplies(handle, delivered[|before|..])
  }

  /** What a connection has done so far, and the messages that wait to be sent. */
  datatype Progress = Progress(sent: seq<seq<byte>>, high: seq<seq<byte>>, low: seq<seq<byte>>, received: seq<byte>)

  /** The messages in the bytes received. */
  function Messages(c: Cipher, received: seq<byte>): seq<seq<byte>> {
    FeedAll(c, START, received).out
  }

  /** Those of them that are complete only now. */
  function NewMessages(c: Cipher, before: seq<byte>, received: seq<byte>): seq<seq<byte>> {
    var seen, all := Messages(c, before), Messages(c, received);
    if |seen| <= |all| then all[|seen|..] else []
  }

  /** A round on values: all that waited is sent, and the reactions to what has arrived wait next. */
  function AfterRound(c: Cipher, p: Progress, e: Round): Progress {
    var received := p.received + if e.readable then e.available else [];
    var news := NewMessages(c, p.received, received);
    Progress(p.sent + (p.high + e.high) + (p.low + e.low), HighReplies(e.handle, news), LowReplies(e.handle, news), received)
  }

  function AfterRounds(c: Cipher, p: Progress, rounds: seq<Round>): Progress {
    if rounds == [] then p else AfterRound(c, AfterRounds(c, p, rounds[..|rounds| - 1]), rounds[|rounds| - 1])
  }

  class Connection {
    const tx: Cipher
    const rx: Cipher
    const writeSize: nat
    const buf: array<byte>
    const noiseBuffer: array<byte>
    // the socket buffer
    var offset: nat
    var remaining: nat
    // the message being received
    var sizeBytes: seq<byte>
    var pendingBytes: nat
    var message: seq<byte>
    var rxCount: nat
    // output
    var outputQueue: seq<byte>
    var isWritable: bool
    var txCount: nat
    var highQueue: seq<seq<byte>>
    var lowQueue: seq<seq<byte>>
    // the socket's side
    var room: nat                         // bytes the socket still takes
    var writeEnd: WriteEnd                // and what it does then
    var received: seq<byte>               // all bytes read from the socket
    var written: seq<byte>                // all bytes the socket took
    // history
    ghost var consumed: seq<byte>         // those of them taken out of the socket buffer
    ghost var delivered: seq<seq<byte>>   // all messages handed on
    ghost var sent: seq<seq<byte>>        // all messages encrypted
    ghost var enqueued: seq<byte>         // all bytes put into the output queue
    ghost var unsafeFlushes: nat          // writes made while the socket buffer held unread input

    /** The fixed part, with the sizes that the configuration checks demand. */
    ghost predicate Configured()
      reads this
    {
      && Lawful(tx) && Lawful(rx)
      && buf.Length >= NOISE_MAX_MESSAGE_LEN && buf.Length >= writeSize
      && noiseBuffer.Length == NOISE_MAX_MESSAGE_LEN
      && buf != noiseBuffer
    }

    ghost function Unread(): seq<byte>
      requires offset + remaining <= buf.Length
      reads this, buf
    {
      buf[offset..offset + remaining]
    }

    /** The state of the byte-at-a-time receiver that this connection stands for. */
    ghost function View(): Receiver
      reads this
    {
      Receiver(rxCount,
               if pendingBytes > 0 then ReadingBody(|message| + pendingBytes, message) else ReadingLength(sizeBytes),
               delivered)
    }

    ghost function Done(): Progress
      reads this
    {
      Progress(sent, highQueue, lowQueue, received)
    }

    ghost predicate BufferValid()
      reads this, buf
    {
      && Configured()
      && offset + remaining <= buf.Length
      && (remaining == 0 ==> offset == 0)
      && |sizeBytes| < PAYLOAD_SIZE
      && (pendingBytes > 0 ==> sizeBytes == [])
      && (pendingBytes == 0 ==> message == [])
      && consumed + Unread() == received
    }

    /** Exactly the consumed bytes have been accounted for, as the byte-at-a-time receiver would. */
    ghost predicate RxValid()
      reads this, buf
    {
      && BufferValid()
      && FeedAll(rx, START, consumed) == View()
    }

    /** No byte is lost or reordered between the output queue and the socket. */
    ghost predicate Conserved()
      reads this
    {
      Configured() && written + outputQueue == enqueued
    }

    ghost predicate TxValid()
      reads this
    {
      && Conserved()
      && enqueued == Stream(tx, 0, sent)
      && txCount == CounterAfter(0, sent)
    }

    constructor (tx: Cipher, rx: Cipher, readSize: nat, writeSize: nat)
      requires Lawful(tx) && Lawful(rx)
      requires readSize >= NOISE_MAX_MESSAGE_LEN && readSize >= writeSize
      ensures RxValid() && TxValid() && remaining == 0
      ensures this.tx == tx && this.rx == rx
      ensures received == [] && delivered == [] && sent == [] && highQueue == [] && lowQueue == [] && written == []
      ensures unsafeFlushes == 0
      ensures fresh(buf) && fresh(noiseBuffer)
    {
      this.tx, this.rx, this.writeSize := tx, rx, writeSize;
      buf := new byte[readSize](_ => 0);
      noiseBuffer := new byte[NOISE_MAX_MESSAGE_LEN](_ => 0);
      offset, remaining := 0, 0;
      sizeBytes, pendingBytes, message, rxCount := [], 0, [], 0;
      outputQueue, isWritable, txCount := [], false, 0;
      highQueue, lowQueue, room, writeEnd := [], [], 0, WriteBlocks;
      received, consumed, delivered, sent, enqueued, written, unsafeFlushes := [], [], [], [], [], [], 0;
    }

    /** With nothing unread, what is written into the socket buffer does not touch the input side. */
    twostate lemma ScratchIsHarmless()
      requires old(RxValid()) && remaining == 0
      requires unchanged(`offset, `remaining, `sizeBytes, `pendingBytes, `message, `rxCount)
      requires unchanged(`received, `consumed, `delivered)
      ensures RxValid()
    {
      hide FeedAll, Lawful;
      assert Unread() == [] && old(Unread()) == [];
    }

    /** Once the socket buffer is empty, the messages handed on are those in the bytes received. */
    lemma AllConsumed()
      requires RxValid() && remaining == 0
      ensures Messages(rx, received) == delivered
    {
      hide FeedAll, Lawful;
      assert consumed + [] == consumed;
    }

    // ----- input

    /** Take the first `n` unread bytes out of the socket buffer. */
    method Shift(n: nat) returns (taken: seq<byte>)
      requires BufferValid() && n <= remaining
      modifies this`offset, this`remaining, this`consumed
      ensures BufferValid()
      ensures taken == old(Unread())[..n] && consumed == old(consumed) + taken
      ensures remaining == old(remaining) - n
    {
      hide Lawful;
      ghost var unread := Unread();
      taken := buf[offset..offset + n];
      assert taken == unread[..n];
      DrainConserves(consumed, unread, n);
      offset := offset + n;
      remaining := remaining - n;
      consumed := consumed + taken;
      assert Unread() == unread[n..];
      if remaining == 0 {
        offset := 0;
        assert Unread() == [] == unread[n..];
      }
    }

    /** Collect length bytes; once all four are there, check the announced length. */
    method AttemptToReadLength() returns (ok: bool)
      requires RxValid() && pendingBytes == 0 && remaining > 0
      modifies this`offset, this`remaining, this`consumed, this`sizeBytes, this`pendingBytes, this`message
      ensures ok ==> RxValid()
      ensures !ok ==> FeedAll(rx, START, received).phase.Broken?
      ensures remaining < old(remaining)
    {
      hide FeedAll, Lawful, Announced;
      ghost var view := View();
      var readSize := Min(remaining, PAYLOAD_SIZE - |sizeBytes|);
      var taken := Shift(readSize);
      sizeBytes := sizeBytes + taken;
      FeedMoreLength(rx, old(consumed), taken, view);
      ok := true;
      if |sizeBytes| == PAYLOAD_SIZE {
        var expectedSize := Announced(sizeBytes);
        sizeBytes := [];
        if expectedSize == 0 || expectedSize > PROTOCOL_MAX_MESSAGE_SIZE {
          BrokenStaysBroken(rx, consumed, Unread());
          return false;
        }
        pendingBytes := expectedSize;
        message := [];
      }
    }

    /** Move unread bytes into the message; decrypt it once it is complete. */
    method ProcessIncomingMsg() returns (r: ReadResult)
      requires RxValid() && pendingBytes > 0
      modifies this`offset, this`remaining, this`consumed, this`pendingBytes, this`message, this`rxCount,
               this`delivered, noiseBuffer
      ensures r.Complete? || r.Incomplete? || r.ReadError?
      ensures !r.ReadError? ==> RxValid()
      ensures r.ReadError? ==> r.cause.ProtocolFailure? && FeedAll(rx, START, received).phase.Broken?
      ensures delivered == if r.Complete? then old(delivered) + [r.msg] else old(delivered)
      ensures remaining == old(remaining) - Min(old(pendingBytes), old(remaining))
    {
      hide FeedAll, OpenChunks, Lawful, ChunksIn;
      ghost var view := View();
      var toRead := Min(pendingBytes, remaining);
      var taken := Shift(toRead);
      message := message + taken;
      pendingBytes := pendingBytes - toRead;
      FeedMoreBody(rx, old(consumed), taken, view);
      if pendingBytes == 0 {
        var sealed := message;
        message := [];
        var ok, plain, chunks := Decrypt(sealed);
        if !ok {
          BrokenStaysBroken(rx, consumed, Unread());
          return ReadError(ProtocolFailure);
        }
        rxCount := rxCount + chunks;
        delivered := delivered + [plain];
        return Complete(plain);
      } else {
        return Incomplete;
      }
    }

    /** Decrypt a complete message in place. */
    method Decrypt(sealed: seq<byte>) returns (ok: bool, plain: seq<byte>, chunks: nat)
      requires Configured()
      modifies noiseBuffer
      ensures ok <==> OpenChunks(rx, rxCount, sealed).Some?
      ensures ok ==> OpenChunks(rx, rxCount, sealed) == Some(plain)
      ensures chunks == ChunksIn(|sealed|)
    {
      hide OpenChunks;
      var msg := new byte[|sealed|](i requires 0 <= i < |sealed| => sealed[i]);
      assert msg[..] == sealed;
      var len;
      ok, len, chunks := DecryptInPlace(rx, rxCount, msg, noiseBuffer);
      plain := if ok then msg[..len] else [];
      CoversIsChunksIn(chunks, |sealed|);
    }

    /** One attempt to get a message out of the socket buffer, refilling it only when it is empty. */
    method ReadFromSocket(available: seq<byte>, end: ReadEnd) returns (r: ReadResult, rest: seq<byte>)
      requires RxValid()
      modifies this`offset, this`remaining, this`consumed, this`sizeBytes, this`pendingBytes, this`message,
               this`rxCount, this`delivered, this`received, buf, noiseBuffer
      ensures !r.ReadError? ==> RxValid()
      ensures received + rest == old(received) + available
      ensures old(remaining) > 0 ==> rest == available
      ensures delivered == if r.Complete? then old(delivered) + [r.msg] else old(delivered)
      ensures r.WouldBlock? <==> old(remaining) == 0 && available == [] && end == ReadBlocks
      ensures r.Closed? <==> old(remaining) == 0 && available == [] && end == Closes
      ensures r == ReadError(SocketFailure) <==> old(remaining) == 0 && available == [] && end == ReadFails
      ensures r.WouldBlock? || r.Closed? ==> remaining == 0 && rest == []
      ensures r.Complete? || r.Incomplete? ==> |rest| + remaining < |available| + old(remaining)
      ensures r.ReadError? ==> !r.cause.Refusal?
      ensures r.ReadError? && r.cause.SocketFailure? ==> RxValid() && remaining == 0 && rest == []
      ensures r.ReadError? && r.cause.ProtocolFailure? ==> FeedAll(rx, START, received).phase.Broken?
    {
      hide FeedAll;
      rest := available;
      assert offset < buf.Length;  // the reset of an exhausted buffer never applies
      if remaining == 0 {
        var io;
        io, rest := ReadSocket(buf.Length - offset, available, end);
        match io {
          case EndOfStream => return Closed, rest;
          case ReadWouldBlock => return WouldBlock, rest;
          case ReadFailed => return ReadError(SocketFailure), rest;
          case Bytes(data) =>
            Fill(data);
        }
        assert received + rest == old(received) + available;
      }
      if pendingBytes == 0 {
        var ok := AttemptToReadLength();
        if !ok {
          return ReadError(ProtocolFailure), rest;
        }
      }
      if pendingBytes != 0 {
        r := ProcessIncomingMsg();
      } else {
        r := Incomplete;
      }
    }

    method Fill(data: seq<byte>)
      requires RxValid() && remaining == 0 && 0 < |data| <= buf.Length
      modifies this`remaining, this`received, buf
      ensures RxValid() && remaining == |data| && received == old(received) + data
    {
      CopyInto(buf, offset, data);
      assert consumed + [] == consumed;
      remaining := |data|;
      received := received + data;
    }

    /** Hand a message on; what is sent in reaction waits in the queues. */
    method ProcessMessage(i: nat, msg: seq<byte>, handle: (nat, seq<byte>) -> Reaction) returns (accepted: bool)
      requires RxValid()
      modifies this`highQueue, this`lowQueue
      ensures RxValid()
      ensures accepted <==> handle(i, msg).Accept?
      ensures highQueue == old(highQueue) + (if accepted then handle(i, msg).high else [])
      ensures lowQueue == old(lowQueue) + (if accepted then handle(i, msg).low else [])
    {
      var reaction := handle(i, msg);
      accepted := reaction.Accept?;
      if accepted {
        highQueue := highQueue + reaction.high;
        lowQueue := lowQueue + reaction.low;
      }
    }

    /** Read and handle messages until the socket would block, is closed or an error comes up. */
    method ReadStream(available: seq<byte>, end: ReadEnd, handle: (nat, seq<byte>) -> Reaction) returns (r: StreamResult)
      requires RxValid()
      modifies this`offset, this`remaining, this`consumed, this`sizeBytes, this`pendingBytes, this`message,
               this`rxCount, this`delivered, this`received, this`highQueue, this`lowQueue, buf, noiseBuffer
      ensures !r.StreamError? || r.cause.SocketFailure? ==>
                RxValid() && remaining == 0 && received == old(received) + available
      ensures r.Open? ==> end == ReadBlocks
      ensures r.PeerClosed? ==> end == Closes
      ensures r == StreamError(SocketFailure) ==> end == ReadFails
      ensures if r == StreamError(Refusal) then LastRefused(handle, old(delivered), delivered)
              else AllAccepted(handle, old(delivered), delivered)
      ensures r.StreamError? ==> received <= old(received) + available
      ensures r.StreamError? && r.cause.ProtocolFailure? ==> FeedAll(rx, START, received).phase.Broken?
      ensures Answered(handle, old(delivered), delivered, old(highQueue), highQueue, old(lowQueue), lowQueue)
    {
      hide FeedAll, RxValid, Answered;
      var rest := available;
      var i: nat := 0;
      ghost var before := delivered;
      NothingToAnswer(handle, before, highQueue, lowQueue);
      while true
        invariant RxValid()
        invariant received + rest == old(received) + available
        invariant |delivered| == |before| + i && AllAccepted(handle, before, delivered)
        invariant Answered(handle, before, delivered, old(highQueue), highQueue, old(lowQueue), lowQueue)
        decreases |rest| + remaining
      {
        var io;
        ghost var known := delivered;
        io, rest := ReadFromSocket(rest, end);
        match io {
          case Complete(msg) =>
            OneMoreAnswer(handle, before, known, msg, old(highQueue), highQueue, old(lowQueue), lowQueue);
            var accepted := ProcessMessage(i, msg, handle);
            i := i + 1;
            if !accepted {
              return StreamError(Refusal);
            }
          case Incomplete =>
          case WouldBlock => return Open;
          case Closed => return PeerClosed;
          case ReadError(cause) => return StreamError(cause);
        }
      }
    }

    // ----- output

    /**
      Copy the first `batch` bytes of the output queue to the front of the socket buffer, from
      the two slices of the ring buffer that the queue is stored in, wherever they meet.
     */
    method StageBatch(batch: nat)
      requires batch <= |outputQueue| && batch <= buf.Length
      modifies buf
      ensures buf[..batch] == outputQueue[..batch]
    {
      hide Splice;
      var split: nat :| split <= |outputQueue|;
      var front, back := outputQueue[..split], outputQueue[split..];
      var frontLen := Min(|front|, batch);
      CopyInto(buf, 0, front[..frontLen]);
      ghost var staged := buf[..];
      var backLen := batch - frontLen;
      CopyInto(buf, frontLen, back[..backLen]);
      SpliceKeepsFront(staged, frontLen, back[..backLen]);
      assert buf[..frontLen] == buf[..][..frontLen] == front[..frontLen];
      assert buf[..batch] == buf[..frontLen] + buf[frontLen..frontLen + backLen];
      SlicesMeet(outputQueue, split, batch);
    }

    /** Offer one batch of the output queue to the socket. */
    method FlushSocketOnce() returns (ok: bool, n: nat)
      requires Conserved()
      modifies this`outputQueue, this`isWritable, this`written, this`unsafeFlushes, this`room, buf
      ensures Conserved()
      ensures n <= old(|outputQueue|) && outputQueue == old(outputQueue)[n..]
      ensures room == old(room) - n
      ensures old(written) <= written
      ensures n > 0 <==> writeSize > 0 && old(outputQueue) != [] && old(room) > 0
      ensures !ok <==> writeSize > 0 && old(outputQueue) != [] && old(room) == 0 && writeEnd == WriteFails
      ensures isWritable <==>
                old(isWritable) && !(writeSize > 0 && old(outputQueue) != [] && old(room) == 0 && writeEnd == WriteBlocks)
      ensures unsafeFlushes == old(unsafeFlushes) + (if remaining > 0 then 1 else 0)
    {
      hide FeedAll, Lawful;
      var batch := Min(writeSize, |outputQueue|);
      unsafeFlushes := unsafeFlushes + (if remaining > 0 then 1 else 0);
      StageBatch(batch);
      var io := WriteSocket(buf[..batch], room, writeEnd);
      match io {
        case WriteFailed => return false, 0;
        case WriteWouldBlock =>
          isWritable := false;
          return true, 0;
        case Wrote(k) =>
          assert buf[..k] == buf[..batch][..k] == outputQueue[..k];
          DrainConserves(written, outputQueue, k);
          written := written + buf[..k];
          outputQueue := outputQueue[k..];
          room := room - k;
          return true, k;
      }
    }

    /** Write until the queue is empty or the socket takes no more. */
    method FlushSocket() returns (ok: bool)
      requires Conserved()
      modifies this`outputQueue, this`isWritable, this`written, this`unsafeFlushes, this`room, buf
      ensures Conserved() && (old(TxValid()) ==> TxValid())
      ensures ok && old(isWritable) && writeSize > 0 ==> outputQueue == [] || (room == 0 && writeEnd != WriteFails)
      ensures !ok ==> room == 0 && writeEnd == WriteFails
      ensures !old(isWritable) ==> ok && outputQueue == old(outputQueue) && written == old(written)
      ensures room <= old(room) && old(written) <= written
      ensures remaining == 0 ==> unsafeFlushes == old(unsafeFlushes)
    {
      hide FeedAll, Lawful;
      if isWritable {
        while outputQueue != []
          invariant Conserved() && room <= old(room) && old(written) <= written
          invariant remaining == 0 ==> unsafeFlushes == old(unsafeFlushes)
          decreases |outputQueue|
        {
          var n;
          ok, n := FlushSocketOnce();
          if !ok {
            return false;
          }
          if n == 0 {
            break;
          }
        }
      }
      return true;
    }

    /** Seal the next chunk of `input` in the session buffer and queue it. */
    method EncryptChunk(input: seq<byte>, pos: nat) returns (pos': nat)
      requires Conserved() && pos < |input|
      modifies this`outputQueue, this`enqueued, this`txCount, noiseBuffer
      ensures Conserved()
      ensures pos' == pos + Min(NOISE_MAX_PAYLOAD_LEN, |input| - pos)
      ensures txCount == old(txCount) + 1
      ensures enqueued == old(enqueued) + tx.seal(old(txCount), input[pos..pos'])
      ensures |outputQueue| >= old(|outputQueue|)
    {
      hide Splice;
      var chunkSize := Min(NOISE_MAX_PAYLOAD_LEN, |input| - pos);
      pos' := pos + chunkSize;
      CopyInto(noiseBuffer, 0, input[pos..pos']);
      assert noiseBuffer[..chunkSize] == noiseBuffer[0..chunkSize];
      var sealed := tx.seal(txCount, noiseBuffer[..chunkSize]);
      var encryptedLen := chunkSize + MAC_LENGTH;
      CopyInto(noiseBuffer, 0, sealed);
      assert noiseBuffer[..encryptedLen] == noiseBuffer[0..encryptedLen] == sealed;
      outputQueue := outputQueue + noiseBuffer[..encryptedLen];
      enqueued := enqueued + sealed;
      assert written + outputQueue == written + old(outputQueue) + sealed;
      txCount := txCount + 1;
    }

    /** Seal and queue all of `input`, writing early whenever enough is queued. */
    method EnqueueChunks(input: seq<byte>) returns (ok: bool)
      requires Conserved()
      modifies this`outputQueue, this`isWritable, this`written, this`unsafeFlushes, this`room, this`enqueued, this`txCount,
               buf, noiseBuffer
      ensures Conserved()
      ensures ok ==> enqueued == old(enqueued) + SealChunks(tx, old(txCount), input)
      ensures ok ==> txCount == old(txCount) + ChunksOf(|input|)
      ensures ok && input != [] && writeSize > 0 && written == old(written) ==> |outputQueue| < writeSize || room == 0
      ensures ok && old(isWritable) ==> isWritable || (room == 0 && writeEnd == WriteBlocks)
      ensures !ok ==> room == 0 && writeEnd == WriteFails
      ensures room <= old(room) && old(written) <= written
      ensures remaining == 0 ==> unsafeFlushes == old(unsafeFlushes)
    {
      hide FeedAll, Lawful, SealChunks, ChunksOf;
      var pos := 0;
      assert input[0..] == input;
      while pos != |input|
        invariant pos <= |input| && Conserved()
        invariant enqueued + SealChunks(tx, txCount, input[pos..]) == old(enqueued) + SealChunks(tx, old(txCount), input)
        invariant txCount + ChunksOf(|input| - pos) == old(txCount) + ChunksOf(|input|)
        invariant pos > 0 && writeSize > 0 && written == old(written) ==> |outputQueue| < writeSize || room == 0
        invariant old(isWritable) ==> isWritable || (room == 0 && writeEnd == WriteBlocks)
        invariant room <= old(room) && old(written) <= written
        invariant remaining == 0 ==> unsafeFlushes == old(unsafeFlushes)
      {
        SealOne(tx, txCount, input, pos);
        pos := EncryptChunk(input, pos);
        if |outputQueue| >= writeSize {
          var n;
          ok, n := FlushSocketOnce();
          if !ok {
            return false;
          }
        }
      }
      SealNothing(tx, txCount, input[pos..]);
      return true;
    }

    /** Queue one message: the length header, then its sealed chunks. */
    method EncryptAndEnqueue(input: seq<byte>) returns (ok: bool)
      requires Conserved()
      modifies this`outputQueue, this`isWritable, this`written, this`unsafeFlushes, this`room, this`enqueued, this`txCount,
               this`sent, buf, noiseBuffer
      ensures Conserved()
      ensures ok ==> sent == old(sent) + [input]
      ensures ok ==> enqueued == old(enqueued) + Frame(tx, old(txCount), input)
      ensures ok && old(TxValid()) ==> TxValid()
      ensures ok && old(isWritable) ==> isWritable || (room == 0 && writeEnd == WriteBlocks)
      ensures !ok ==> room == 0 && writeEnd == WriteFails
      ensures room <= old(room) && old(written) <= written
      ensures remaining == 0 ==> unsafeFlushes == old(unsafeFlushes)
    {
      hide FeedAll, Lawful, SealChunks, Stream, CounterAfter, Header, SealedLen, ChunksOf;
      var header := Header(SealedLen(|input|));
      outputQueue := outputQueue + header;
      enqueued := enqueued + header;
      assert written + outputQueue == written + old(outputQueue) + header;
      ok := EnqueueChunks(input);
      if ok {
        assert enqueued == old(enqueued) + Frame(tx, old(txCount), input);
        StreamOfOneMore(tx, sent, input);
        sent := sent + [input];
      }
    }

    /** Encrypt all waiting messages: the high-priority ones first, each queue in order. */
    method SendPendingMessages() returns (ok: bool)
      requires Conserved()
      modifies this`outputQueue, this`isWritable, this`written, this`unsafeFlushes, this`room, this`enqueued, this`txCount,
               this`sent, this`highQueue, this`lowQueue, buf, noiseBuffer
      ensures Conserved()
      ensures ok ==> sent == old(sent) + old(highQueue) + old(lowQueue) && highQueue == lowQueue == []
      ensures ok && old(TxValid()) ==> TxValid()
      ensures ok && old(isWritable) ==> isWritable || (room == 0 && writeEnd == WriteBlocks)
      ensures !ok ==> room == 0 && writeEnd == WriteFails
      ensures room <= old(room) && old(written) <= written
      ensures remaining == 0 ==> unsafeFlushes == old(unsafeFlushes)
    {
      hide Lawful, Stream, CounterAfter, Frame;
      ghost var all := sent + highQueue + lowQueue;
      while highQueue != [] || lowQueue != []
        invariant Conserved()
        invariant sent + highQueue + lowQueue == all
        invariant old(TxValid()) ==> TxValid()
        invariant old(isWritable) ==> isWritable || (room == 0 && writeEnd == WriteBlocks)
        invariant room <= old(room) && old(written) <= written
        invariant remaining == 0 ==> unsafeFlushes == old(unsafeFlushes)
        decreases |highQueue| + |lowQueue|
      {
        var msg;
        if highQueue != [] {
          msg, highQueue := highQueue[0], highQueue[1..];
          assert sent + ([msg] + highQueue) + lowQueue == sent + [msg] + highQueue + lowQueue;
        } else {
          msg, lowQueue := lowQueue[0], lowQueue[1..];
          assert sent + [] + ([msg] + lowQueue) == sent + [msg] + [] + lowQueue;
        }
        ok := EncryptAndEnqueue(msg);
        if !ok {
          return false;
        }
      }
      return true;
    }

    // ----- rounds of the poll loop

    /** Queue a message from elsewhere in the node. */
    method AsyncSend(high: seq<seq<byte>>, low: seq<seq<byte>>)
      modifies this`highQueue, this`lowQueue
      ensures highQueue == old(highQueue) + high && lowQueue == old(lowQueue) + low
    {
      highQueue := highQueue + high;
      lowQueue := lowQueue + low;
    }

    /** What the round finds: messages queued meanwhile, and the state of the socket. */
    method BeginRound(e: Round)
      requires Conserved()
      modifies this`highQueue, this`lowQueue, this`isWritable, this`room, this`writeEnd
      ensures Conserved() && (old(TxValid()) ==> TxValid())
      ensures highQueue == old(highQueue) + e.high && lowQueue == old(lowQueue) + e.low
      ensures isWritable <==> old(isWritable) || e.writable
      ensures room == e.room && writeEnd == e.writeEnd
    {
      AsyncSend(e.high, e.low);
      room, writeEnd := e.room, e.writeEnd;
      if e.writable {
        isWritable := true;
      }
    }

    /** The first half of a round: encrypt what is waiting, then write what the socket takes. */
    method WriteEvents(e: Round) returns (ok: bool)
      requires RxValid() && remaining == 0 && Conserved()
      modifies this`outputQueue, this`isWritable, this`written, this`unsafeFlushes, this`room, this`enqueued, this`txCount,
               this`sent, this`highQueue, this`lowQueue, this`writeEnd, buf, noiseBuffer
      ensures Conserved() && RxValid() && old(written) <= written
      ensures !ok ==> e.writeEnd == WriteFails
      ensures unsafeFlushes == old(unsafeFlushes)
      ensures ok && old(TxValid()) ==> TxValid()
      ensures ok ==> sent == old(sent) + (old(highQueue) + e.high) + (old(lowQueue) + e.low)
      ensures ok ==> highQueue == lowQueue == []
      ensures ok && (old(isWritable) || e.writable) && writeSize > 0 ==>
                outputQueue == [] || (room == 0 && e.writeEnd != WriteFails)
    {
      hide FeedAll, Lawful, Conserved, TxValid;
      BeginRound(e);
      ok := SendPendingMessages();
      if ok {
        ok := FlushSocket();
      }
      ScratchIsHarmless();
    }

    /** One round: first write, then read. A failed write ends the round before anything is read. */
    method ProcessEvents(e: Round) returns (r: RoundResult)
      requires RxValid() && remaining == 0 && Conserved()
      modifies this, buf, noiseBuffer
      ensures Conserved() && old(written) <= written
      ensures unsafeFlushes == old(unsafeFlushes)
      ensures r.RoundDone? ==> RxValid() && remaining == 0
      ensures r.RoundDone? ==>
                received == old(received) + (if r.writeOk && e.readable then e.available else [])
      ensures old(delivered) <= delivered
      ensures r.writeOk && old(TxValid()) ==> TxValid()
      ensures r.RoundReadError? ==> received <= old(received) + e.available
      ensures r.RoundReadError? && r.cause.ProtocolFailure? ==> FeedAll(rx, START, received).phase.Broken?
      ensures r.writeOk ==> sent == old(sent) + (old(highQueue) + e.high) + (old(lowQueue) + e.low)
      ensures r.RoundDone? && r.writeOk ==> Done() == AfterRound(rx, old(Done()), e)
      ensures r.writeOk ==> Answered(e.handle, old(delivered), delivered, [], highQueue, [], lowQueue)
      ensures r.writeOk && (old(isWritable) || e.writable) && writeSize > 0 ==>
                outputQueue == [] || (room == 0 && e.writeEnd != WriteFails)
      ensures !r.writeOk ==> e.writeEnd == WriteFails
      ensures r.RoundDone? && r.writeOk ==>
                && (r.open <==> !e.readable || e.readEnd == ReadBlocks)
                && (e.readable ==> e.readEnd != ReadFails && AllAccepted(e.handle, old(delivered), delivered))
      ensures r.RoundReadError? ==> r.writeOk && e.readable && Explained(e, old(delivered), delivered, r.cause)
    {
      hide FeedAll, Lawful, Stream, CounterAfter, Answered, Messages, AfterRound, AllAccepted, LastRefused;
      AllConsumed();
      ghost var before := Done();
      var ok := WriteEvents(e);
      if !ok {
        return RoundDone(false, true);
      }
      if !e.readable {
        NothingToAnswer(e.handle, delivered, [], []);
        assert received + [] == received;
        RoundOnValues(rx, before, e, Done(), old(delivered), delivered);
        return RoundDone(true, true);
      }
      var s := ReadStream(e.available, e.readEnd, e.handle);
      if !s.StreamError? {
        AllConsumed();
        RoundOnValues(rx, before, e, Done(), old(delivered), delivered);
      }
      r := if s.StreamError? then RoundReadError(true, s.cause) else RoundDone(true, s.Open?);
    }

    /**
      Any run of rounds, up to and including the first whose read ends in an error: no write
      ever happens while unread input is in the shared buffer.
     */
    method Run(rounds: seq<Round>) returns (done: nat, readOk: bool, writeOk: bool, cause: Failure)
      requires RxValid() && remaining == 0 && Conserved()
      modifies this, buf, noiseBuffer
      ensures unsafeFlushes == old(unsafeFlushes)
      ensures Conserved()
      ensures readOk ==> done == |rounds| && RxValid() && remaining == 0
      ensures done <= |rounds|
      ensures !readOk ==> done > 0 && rounds[done - 1].readable
      ensures !readOk && cause == SocketFailure ==> rounds[done - 1].readEnd == ReadFails
      ensures !readOk && cause == Refusal ==> CanRefuse(rounds[done - 1])
      ensures !readOk && cause == ProtocolFailure ==> FeedAll(rx, START, received).phase.Broken?
      ensures !writeOk ==> exists n :: 0 <= n < done && rounds[n].writeEnd == WriteFails
      ensures readOk && writeOk ==> Done() == AfterRounds(rx, old(Done()), rounds)
      ensures old(delivered) <= delivered
      ensures writeOk && old(TxValid()) ==> TxValid()
    {
      hide FeedAll, RxValid, Conserved, TxValid, AfterRound;
      done, readOk, writeOk, cause := 0, true, true, ProtocolFailure;
      while done < |rounds|
        invariant done <= |rounds| && readOk
        invariant RxValid() && remaining == 0 && Conserved()
        invariant writeOk ==> Done() == AfterRounds(rx, old(Done()), rounds[..done])
        invariant unsafeFlushes == old(unsafeFlushes)
        invariant old(delivered) <= delivered
        invariant writeOk && old(TxValid()) ==> TxValid()
        invariant !writeOk ==> exists n :: 0 <= n < done && rounds[n].writeEnd == WriteFails
      {
        assert rounds[..done + 1][..done] == rounds[..done];
        var r := ProcessEvents(rounds[done]);
        writeOk := writeOk && r.writeOk;
        done := done + 1;
        if r.RoundReadError? {
          readOk, cause := false, r.cause;
          return;
        }
      }
      assert rounds[..done] == rounds;
    }
  }

  // ----- both ends

  /**
    Two connected ends: whatever part of the sender's bytes has arrived, in whatever pieces it
    was written and read, the receiver has handed on exactly those of the sent messages that
    have arrived completely, in order, and has seen no reason to break off.
   */
  lemma EndToEnd(s: Connection, r: Connection)
    requires s.TxValid() && r.RxValid() && s.tx == r.rx
    requires AllTransmissible(s.sent)
    requires r.received <= s.written
    ensures r.delivered == s.sent[..WholeFrames(s.tx, 0, s.sent, |r.consumed|)]
    ensures !FeedAll(r.rx, START, r.received).phase.Broken?
    ensures r.remaining == 0 && s.outputQueue == [] && r.received == s.written ==> r.delivered == s.sent
  {
    hide FeedAll, Lawful;
    var stream := Stream(s.tx, 0, s.sent);
    assert r.consumed == stream[..|r.consumed|];
    assert r.received == stream[..|r.received|];
    FeedPrefix(s.tx, START, s.sent, |r.consumed|);
    FeedPrefix(s.tx, START, s.sent, |r.received|);
    assert forall x: seq<seq<byte>> :: [] + x == x;
    if r.remaining == 0 && s.outputQueue == [] && r.received == s.written {
      assert r.Unread() == [];
      FeedStream(s.tx, START, s.sent);
      assert r.consumed == stream;
    }
  }

  /** As long as the messages sent are within the limits, no part of the stream is ever a reason to break off. */
  lemma NeverBroken(s: Connection, received: seq<byte>)
    requires s.TxValid() && AllTransmissible(s.sent) && received <= s.written
    ensures !FeedAll(s.tx, START, received).phase.Broken?
  {
    hide FeedAll, Lawful;
    assert received == Stream(s.tx, 0, s.sent)[..|received|];
    FeedPrefix(s.tx, START, s.sent, |received|);
  }

  /** Two ends of one link that do not share memory. Each has received some of the bytes that the other has written. */
  ghost predicate Linked(a: Connection, b: Connection): (linked: bool)
    reads a, a.buf, b, b.buf
    ensures linked ==> a != b
  {
    && a != b && {a.buf, a.noiseBuffer} !! {b.buf, b.noiseBuffer}
    && a.tx == b.rx && b.tx == a.rx
    && a.RxValid() && a.TxValid() && a.remaining == 0
    && b.RxValid() && b.TxValid() && b.remaining == 0
    && a.received <= b.written && b.received <= a.written
  }

  /** The two ends as the handshake leaves them, each with its own sizes. */
  method NewLink(there: Cipher, back: Cipher, readA: nat, writeA: nat, readB: nat, writeB: nat)
    returns (a: Connection, b: Connection)
    requires Lawful(there) && Lawful(back)
    requires readA >= NOISE_MAX_MESSAGE_LEN && readA >= writeA
    requires readB >= NOISE_MAX_MESSAGE_LEN && readB >= writeB
    ensures fresh(a) && fresh(a.buf) && fresh(a.noiseBuffer)
    ensures fresh(b) && fresh(b.buf) && fresh(b.noiseBuffer)
    ensures Linked(a, b) && a.tx == there && b.tx == back
    ensures a.sent == b.sent == []
  {
    hide FeedAll, Lawful, Stream, CounterAfter;
    a := new Connection(there, back, readA, writeA);
    b := new Connection(back, there, readB, writeB);
  }

  /** What has arrived completely has been handed on, and nothing else. */
  ghost predicate HandedOn(s: Connection, r: Connection)
    reads s, r
  {
    && r.delivered == s.sent[..WholeFrames(s.tx, 0, s.sent, |r.received|)]
    && (s.outputQueue == [] && r.received == s.written ==> r.delivered == s.sent)
  }

  /** One round of the end `me`: of the bytes the other end has written, up to `k` have become available. */
  method TakeTurn(me: Connection, other: Connection, k: nat, e: Round) returns (r: RoundResult, ghost fed: seq<byte>)
    requires Linked(me, other)
    modifies me, me.buf, me.noiseBuffer
    ensures r.RoundDone? && r.writeOk ==> Linked(me, other)
    ensures old(|me.received|) <= |other.written| && |fed| == Min(k, |other.written| - old(|me.received|))
    ensures r.RoundDone? && r.writeOk ==> me.Done() == AfterRound(me.rx, old(me.Done()), e.(available := fed))
    ensures r.writeOk ==> me.TxValid() && me.received <= other.written
    ensures r.RoundReadError? && r.cause.ProtocolFailure? ==> !AllTransmissible(other.sent)
    ensures !r.writeOk ==> e.writeEnd == WriteFails
    ensures r.RoundReadError? && r.cause.SocketFailure? ==> e.readEnd == ReadFails
    ensures r.RoundReadError? && r.cause.Refusal? ==> CanRefuse(e)
  {
    hide FeedAll, Lawful, Stream, CounterAfter, Answered, AfterRound;
    var start := |me.received|;
    var end := Min(start + k, |other.written|);
    var available := other.written[start..end];
    fed := available;
    assert me.received + available == other.written[..end];
    r := me.ProcessEvents(e.(available := available));
    if r.RoundReadError? && r.cause.ProtocolFailure? && AllTransmissible(other.sent) {
      NeverBroken(other, me.received);
    }
  }

  datatype Turn = Turn(first: bool, k: nat, e: Round)

  /** The rounds of one of the ends, with the bytes that were available in each. */
  function RoundsOf(turns: seq<Turn>, fed: seq<seq<byte>>, first: bool): seq<Round>
    requires |fed| == |turns|
  {
    if turns == [] then []
    else
      var n := |turns| - 1;
      RoundsOf(turns[..n], fed[..n], first)
      + if turns[n].first == first then [turns[n].e.(available := fed[n])] else []
  }

  /** A round in which the socket works and no message is refused. */
  ghost predicate Untroubled(e: Round) {
    e.writeEnd != WriteFails && e.readEnd != ReadFails && !CanRefuse(e)
  }

  /**
    Both ends of a link, taking rounds in any order and with any part of the written bytes
    arriving at any time, up to the first error: at every moment each end has handed on exactly
    what has arrived completely of what the other sent. It ends early only if a socket fails, a
    message is refused, or one is outside the limits.
   */
  method Converse(a: Connection, b: Connection, turns: seq<Turn>)
    returns (ok: bool, done: nat, cause: Option<Failure>, ghost fed: seq<seq<byte>>)
    requires Linked(a, b)
    modifies a, a.buf, a.noiseBuffer, b, b.buf, b.noiseBuffer
    ensures ok ==> done == |turns| == |fed| && Linked(a, b)
    ensures ok ==> a.Done() == AfterRounds(a.rx, old(a.Done()), RoundsOf(turns, fed, true))
    ensures ok ==> b.Done() == AfterRounds(b.rx, old(b.Done()), RoundsOf(turns, fed, false))
    ensures ok && AllTransmissible(a.sent) ==> HandedOn(a, b)
    ensures ok && AllTransmissible(b.sent) ==> HandedOn(b, a)
    ensures !ok ==> done < |turns|
    ensures !ok && cause == None ==> turns[done].e.writeEnd == WriteFails
    ensures !ok && cause == Some(SocketFailure) ==> turns[done].e.readEnd == ReadFails
    ensures !ok && cause == Some(Refusal) ==> CanRefuse(turns[done].e)
    ensures !ok && cause == Some(ProtocolFailure) ==> !AllTransmissible(a.sent) || !AllTransmissible(b.sent)
    ensures (forall n :: 0 <= n < |turns| ==> Untroubled(turns[n].e)) ==>
              ok || !AllTransmissible(a.sent) || !AllTransmissible(b.sent)
  {
    hide Linked, HandedOn, CanRefuse, AfterRound, AfterRounds, RoundsOf;
    fed := [];
    ghost var startA, startB := a.Done(), b.Done();
    NoTurns(a.rx, startA);
    NoTurns(b.rx, startB);
    for n := 0 to |turns|
      invariant Linked(a, b) && |fed| == n
      invariant a.Done() == AfterRounds(a.rx, startA, RoundsOf(turns[..n], fed, true))
      invariant b.Done() == AfterRounds(b.rx, startB, RoundsOf(turns[..n], fed, false))
    {
      var t := turns[n];
      var r;
      ghost var bytes;
      if t.first {
        r, bytes := TakeTurn(a, b, t.k, t.e);
      } else {
        LinkedIsSymmetric(a, b);
        r, bytes := TakeTurn(b, a, t.k, t.e);
      }
      if r.RoundReadError? {
        return false, n, Some(r.cause), fed;
      }
      if !r.writeOk {
        return false, n, None, fed;
      }
      OneMoreTurn(a.rx, startA, turns, fed, bytes, true);
      OneMoreTurn(b.rx, startB, turns, fed, bytes, false);
      fed := fed + [bytes];
      if !t.first {
        LinkedIsSymmetric(b, a);
      }
    }
    LinkedIsSymmetric(a, b);
    if AllTransmissible(a.sent) {
      LinkDelivers(a, b);
    }
    if AllTransmissible(b.sent) {
      LinkDelivers(b, a);
    }
    assert turns[..|turns|] == turns;
    return true, |turns|, None, fed;
  }

  lemma NoTurns(c: Cipher, p: Progress)
    ensures forall first :: AfterRounds(c, p, RoundsOf([], [], first)) == p
  {
  }

  lemma OneMoreTurn(c: Cipher, p: Progress, turns: seq<Turn>, fed: seq<seq<byte>>, bytes: seq<byte>, first: bool)
    requires |fed| < |turns|
    ensures var n := |fed|;
            var before := AfterRounds(c, p, RoundsOf(turns[..n], fed, first));
            AfterRounds(c, p, RoundsOf(turns[..n + 1], fed + [bytes], first))
            == if turns[n].first == first then AfterRound(c, before, turns[n].e.(available := bytes)) else before
  {
    hide AfterRound;
    var n := |fed|;
    var e := turns[n].e.(available := bytes);
    var rounds := RoundsOf(turns[..n], fed, first);
    assert turns[..n + 1][..n] == turns[..n] && (fed + [bytes])[..n] == fed;
    if turns[n].first == first {
      assert (rounds + [e])[..|rounds|] == rounds;
    } else {
      assert rounds + [] == rounds;
    }
  }

  lemma LinkedIsSymmetric(a: Connection, b: Connection)
    requires Linked(a, b)
    ensures Linked(b, a)
  {
  }

  lemma LinkDelivers(s: Connection, r: Connection)
    requires Linked(s, r) && AllTransmissible(s.sent)
    ensures HandedOn(s, r)
  {
    hide FeedAll, Lawful, Stream, WholeFrames;
    EndToEnd(s, r);
    assert r.Unread() == [] && r.consumed + [] == r.consumed;
  }

  lemma FeedMoreLength(c: Cipher, consumed: seq<byte>, taken: seq<byte>, view: Receiver)
    requires FeedAll(c, START, consumed) == view
    requires view.phase.ReadingLength? && |view.phase.size| < PAYLOAD_SIZE && taken != []
    requires |view.phase.size| + |taken| <= PAYLOAD_SIZE
    ensures var size := view.phase.size + taken;
            FeedAll(c, START, consumed + taken)
            == view.(phase := if |size| == PAYLOAD_SIZE then LengthRead(Announced(size)) else ReadingLength(size))
  {
    FeedSplit(c, START, consumed, taken);
    FeedLength(c, view, taken);
  }

  lemma FeedMoreBody(c: Cipher, consumed: seq<byte>, taken: seq<byte>, view: Receiver)
    requires FeedAll(c, START, consumed) == view
    requires view.phase.ReadingBody? && |view.phase.got| < view.phase.total
    requires |view.phase.got| + |taken| <= view.phase.total
    ensures var got := view.phase.got + taken;
            FeedAll(c, START, consumed + taken)
            == if |got| == view.phase.total then BodyRead(c, view, got)
               else view.(phase := ReadingBody(view.phase.total, got))
  {
    FeedSplit(c, START, consumed, taken);
    if taken == [] {
      assert view.phase.got + taken == view.phase.got;
    } else {
      FeedBody(c, view, taken);
    }
  }

  lemma NothingToAnswer(handle: (nat, seq<byte>) -> Reaction, delivered: seq<seq<byte>>, high: seq<seq<byte>>, low: seq<seq<byte>>)
    ensures Answered(handle, delivered, delivered, high, high, low, low)
  {
  }

  lemma OneMoreAnswer(handle: (nat, seq<byte>) -> Reaction, before: seq<seq<byte>>, delivered: seq<seq<byte>>, msg: seq<byte>,
                      high0: seq<seq<byte>>, high: seq<seq<byte>>, low0: seq<seq<byte>>, low: seq<seq<byte>>)
    requires Answered(handle, before, delivered, high0, high, low0, low)
    ensures var reaction := handle(|delivered| - |before|, msg);
            Answered(handle, before, delivered + [msg], high0, high + (if reaction.Accept? then reaction.high else []),
                     low0, low + (if reaction.Accept? then reaction.low else []))
  {
    hide HighReplies, LowReplies;
    var since := delivered[|before|..];
    RepliesToOneMore(handle, since, msg);
    assert (delivered + [msg])[|before|..] == since + [msg];
  }

  lemma RoundOnValues(c: Cipher, p: Progress, e: Round, done: Progress, before: seq<seq<byte>>, delivered: seq<seq<byte>>)
    requires Messages(c, p.received) == before && Messages(c, done.received) == delivered
    requires done.received == p.received + if e.readable then e.available else []
    requires done.sent == p.sent + (p.high + e.high) + (p.low + e.low)
    requires Answered(e.handle, before, delivered, [], done.high, [], done.low)
    ensures done == AfterRound(c, p, e)
  {
    hide Messages, HighReplies, LowReplies;
  }

  lemma RepliesToOneMore(handle: (nat, seq<byte>) -> Reaction, msgs: seq<seq<byte>>, msg: seq<byte>)
    ensures HighReplies(handle, msgs + [msg])
            == HighReplies(handle, msgs) + (if handle(|msgs|, msg).Accept? then handle(|msgs|, msg).high else [])
    ensures LowReplies(handle, msgs + [msg])
            == LowReplies(handle, msgs) + (if handle(|msgs|, msg).Accept? then handle(|msgs|, msg).low else [])
  {
    assert (msgs + [msg])[..|msgs|] == msgs;
  }

  lemma SlicesMeet(queue: seq<byte>, split: nat, batch: nat)
    requires split <= |queue| && batch <= |queue|
    ensures var n := Min(split, batch);
            batch - n <= |queue| - split && queue[..batch] == queue[..split][..n] + queue[split..][..batch - n]
  {
  }

  lemma SpliceKeepsFront(s: seq<byte>, at: nat, x: seq<byte>)
    requires at + |x| <= |s|
    ensures Splice(s, at, x)[..at] == s[..at]
  {
  }

  lemma DrainConserves(written: seq<byte>, queue: seq<byte>, k: nat)
    requires k <= |queue|
    ensures written + queue[..k] + queue[k..] == written + queue
  {
  }

  lemma SealOne(c: Cipher, n: nat, input: seq<byte>, pos: nat)
    requires pos < |input|
    ensures var next := pos + Min(NOISE_MAX_PAYLOAD_LEN, |input| - pos);
            && SealChunks(c, n, input[pos..]) == c.seal(n, input[pos..next]) + SealChunks(c, n + 1, input[next..])
            && ChunksOf(|input| - pos) == 1 + ChunksOf(|input| - next)
  {
    var k := Min(NOISE_MAX_PAYLOAD_LEN, |input| - pos);
    assert input[pos..][..k] == input[pos..pos + k] && input[pos..][k..] == input[pos + k..];
  }

  lemma SealNothing(c: Cipher, n: nat, input: seq<byte>)
    requires input == []
    ensures forall s: seq<byte> :: s + SealChunks(c, n, input) == s
    ensures ChunksOf(0) == 0
  {
  }

  lemma StreamOfOneMore(c: Cipher, msgs: seq<seq<byte>>, m: seq<byte>)
    ensures Stream(c, 0, msgs + [m]) == Stream(c, 0, msgs) + Frame(c, CounterAfter(0, msgs), m)
    ensures CounterAfter(0, msgs + [m]) == CounterAfter(0, msgs) + ChunksOf(|m|)
  {
    hide Frame, ChunksOf;
    var n := CounterAfter(0, msgs);
    StreamOfConcat(c, 0, msgs, [m]);
    assert [m][1..] == [];
    assert Frame(c, n, m) + [] == Frame(c, n, m);
    assert Stream(c, n, [m]) == Frame(c, n, m);
  }

  lemma BrokenStaysBroken(c: Cipher, consumed: seq<byte>, unread: seq<byte>)
    requires FeedAll(c, START, consumed).phase.Broken?
    ensures FeedAll(c, START, consumed + unread).phase.Broken?
  {
    FeedSplit(c, START, consumed, unread);
    FeedBroken(c, FeedAll(c, START, consumed), unread);
  }
}
