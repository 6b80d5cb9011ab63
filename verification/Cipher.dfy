/** The channel's two loops (`crates/cled-lan/src/noise.rs`), reading and writing an ordered byte
    stream and advancing the nonces, proved against `Noise`. */
module Channels {
  import opened Bytes
  import opened Wrappers
  import opened Noise

  /** One direction of a connection: what was written and not yet read. */
  class Pipe {
    var bytes: seq<byte>

    constructor ()
      ensures bytes == []
    {
      bytes := [];
    }

    method WriteAll(b: seq<byte>)
      modifies this
      ensures bytes == old(bytes) + b
    {
      bytes := bytes + b;
    }

    /** Exactly `n` bytes; a stream that ends before is used up. */
    method ReadExact(n: nat) returns (b: Option<seq<byte>>)
      modifies this
      ensures b == if n <= |old(bytes)| then Some(old(bytes)[..n]) else None
      ensures bytes == if n <= |old(bytes)| then old(bytes)[n..] else []
    {
      if n <= |bytes| {
        b := Some(bytes[..n]);
        bytes := bytes[n..];
      } else {
        b := None;
        bytes := [];
      }
    }
  }

  method WriteFrame(w: Pipe, frame: seq<byte>) returns (r: Result<(), Error>)
    modifies w
    ensures r.Ok? <==> |frame| <= MAX_NOISE_MESSAGE
    ensures w.bytes == if r.Ok? then old(w.bytes) + Framed(frame) else old(w.bytes)
  {
    if |frame| >= U16_LIMIT {
      return Err(TooLarge(|frame|));
    }
    w.WriteAll(Big16(|frame|));
    w.WriteAll(frame);
    assert w.bytes == old(w.bytes) + Framed(frame);
    return Ok(());
  }

  method ReadTheFrame(r: Pipe) returns (frame: Option<seq<byte>>)
    modifies r
    ensures frame.Some? <==> ReadFrame(old(r.bytes)).Some?
    ensures frame.Some? ==> ReadFrame(old(r.bytes)) == Some((frame.value, r.bytes))
    ensures frame.None? ==> r.bytes == []
  {
    var len := r.ReadExact(2);
    if len.None? {
      return None;
    }
    ghost var all := old(r.bytes);
    var n := Read16(len.value);
    frame := r.ReadExact(n);
    if frame.Some? {
      assert all[2..][..n] == all[2..2 + n] && all[2..][n..] == all[2 + n..];
    }
  }

  class Cipher {
    const sending: Keys
    const receiving: Keys
    var sent: nat
    var received: nat

    constructor (sending: Keys, receiving: Keys)
      ensures this.sending == sending && this.receiving == receiving && sent == 0 && received == 0
    {
      this.sending, this.receiving := sending, receiving;
      sent, received := 0, 0;
    }

    /** Writes all of a message, or nothing of one that is too large. */
    method SendMessage(w: Pipe, message: seq<byte>) returns (r: Result<(), Error>)
      requires Sound(sending)
      modifies this`sent, w
      ensures r == if |message| <= MAX_MESSAGE_BYTES then Ok(()) else Err(TooLarge(|message|))
      ensures r.Ok? ==>
          w.bytes == old(w.bytes) + Transmission(sending, old(sent), message) && sent == old(sent) + Count(message)
      ensures r.Err? ==> w.bytes == old(w.bytes) && sent == old(sent)
    {
      if |message| > MAX_MESSAGE_BYTES {
        return Err(TooLarge(|message|));
      }
      var plain := Big32(|message|);
      plain := plain + message;
      ChunksAre(plain);
      SendChunks(w, Chunks(plain));
      return Ok(());
    }

    method SendChunks(w: Pipe, chunks: seq<seq<byte>>)
      requires Sound(sending) && Small(chunks)
      modifies this`sent, w
      ensures w.bytes == old(w.bytes) + Sealed(sending, old(sent), chunks) && sent == old(sent) + |chunks|
    {
      var left := chunks;
      ghost var all := w.bytes + Sealed(sending, sent, chunks);
      while left != []
        invariant Small(left) && sent + |left| == old(sent) + |chunks|
        invariant w.bytes + Sealed(sending, sent, left) == all
      {
        var out := sending.seal(sent, left[0]);
        ghost var before, tail := w.bytes, Sealed(sending, sent + 1, left[1..]);
        assert before + (Framed(out) + tail) == before + Framed(out) + tail;
        var written := WriteFrame(w, out);
        sent, left := sent + 1, left[1..];
      }
    }

    method Receive(p: Pipe) returns (r: Result<seq<byte>, Error>)
      modifies this`received, p
      ensures Received(r, received, p.bytes) == Recv(receiving, old(received), old(p.bytes), None, [])
    {
      var message := [];
      var expected: Option<nat> := None;
      while true
        invariant Recv(receiving, received, p.bytes, expected, message)
            == Recv(receiving, old(received), old(p.bytes), None, [])
        decreases |p.bytes|
      {
        var frame := ReadTheFrame(p);
        if frame.None? {
          return Err(EndOfStream);
        }
        var decrypted := receiving.open(received, frame.value);
        if decrypted.None? {
          return Err(Undecryptable);
        }
        received := received + 1;
        var chunk := decrypted.value;
        if expected.None? {
          if |chunk| < 4 {
            return Err(Malformed);
          }
          var len := Read32(chunk[..4]);
          if len > MAX_MESSAGE_BYTES {
            return Err(TooLarge(len));
          }
          expected := Some(len);
          chunk := chunk[4..];
        }
        message := message + chunk;
        if |message| > expected.value {
          return Err(Malformed);
        }
        if |message| == expected.value {
          return Ok(message);
        }
      }
    }
  }
}
