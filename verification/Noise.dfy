/** Framing of an encrypted channel (`crates/cled-lan/src/noise.rs`): a message is its length in four
    bytes and its bytes, cut into chunks that each become one encrypted message of at most 65535
    bytes (section 3 of the Noise Protocol Framework, revision 34), sent after its length in two
    bytes. The encryption itself is abstract. */
module Noise {
  import opened Bytes
  import opened Wrappers

  const MAX_NOISE_MESSAGE: nat := 65535
  const TAG_LEN: nat := 16
  const MAX_CHUNK: nat := MAX_NOISE_MESSAGE - TAG_LEN
  const MAX_MESSAGE_BYTES: nat := 16 * 1024 * 1024

  /** The keys of one direction: what encrypting and decrypting with the n-th nonce do. */
  datatype Keys = Keys(seal: (nat, seq<byte>) -> seq<byte>, open: (nat, seq<byte>) -> Option<seq<byte>>)

  /** Decrypting undoes encrypting with the same nonce, and the tag adds 16 bytes. */
  ghost predicate Sound(k: Keys) {
    forall n: nat, chunk: seq<byte> :: |chunk| <= MAX_CHUNK ==>
      |k.seal(n, chunk)| == |chunk| + TAG_LEN && k.open(n, k.seal(n, chunk)) == Some(chunk)
  }

  /** There are such keys, if only those that hide nothing. */
  lemma SomeKeysAreSound() returns (k: Keys)
    ensures Sound(k)
  {
    k := Keys((n: nat, chunk: seq<byte>) => chunk + seq(TAG_LEN, _ => 0),
              (n: nat, x: seq<byte>) => if |x| < TAG_LEN then None else Some(x[..|x| - TAG_LEN]));
    forall n: nat, chunk: seq<byte> ensures k.open(n, k.seal(n, chunk)) == Some(chunk) {
      assert (chunk + seq(TAG_LEN, _ => 0))[..|chunk|] == chunk;
    }
  }

  datatype Error = TooLarge(size: nat) | Malformed | Undecryptable | EndOfStream

  // ---- Sending ----

  function Plain(message: seq<byte>): seq<byte>
    requires |message| < U32_LIMIT
  {
    Big32(|message|) + message
  }

  function Chunks(plain: seq<byte>): seq<seq<byte>> {
    if plain == [] then []
    else if |plain| <= MAX_CHUNK then [plain]
    else [plain[..MAX_CHUNK]] + Chunks(plain[MAX_CHUNK..])
  }

  function Join(chunks: seq<seq<byte>>): seq<byte> {
    if chunks == [] then [] else chunks[0] + Join(chunks[1..])
  }

  function Framed(x: seq<byte>): seq<byte>
    requires |x| <= MAX_NOISE_MESSAGE
  {
    Big16(|x|) + x
  }

  ghost predicate Small(chunks: seq<seq<byte>>) {
    forall i :: 0 <= i < |chunks| ==> |chunks[i]| <= MAX_CHUNK
  }

  /** What sending these chunks writes, starting from a nonce. */
  ghost function Sealed(k: Keys, nonce: nat, chunks: seq<seq<byte>>): seq<byte>
    requires Sound(k) && Small(chunks)
    decreases |chunks|
  {
    if chunks == [] then [] else Framed(k.seal(nonce, chunks[0])) + Sealed(k, nonce + 1, chunks[1..])
  }

  /** How many chunks `n` bytes take. */
  function ChunkCount(n: nat): nat {
    (n + MAX_CHUNK - 1) / MAX_CHUNK
  }

  lemma OneMoreChunk(n: nat)
    requires n > MAX_CHUNK
    ensures ChunkCount(n) == 1 + ChunkCount(n - MAX_CHUNK)
  {
  }

  lemma {:induction false} ChunksCover(plain: seq<byte>)
    ensures Join(Chunks(plain)) == plain && |Chunks(plain)| == ChunkCount(|plain|)
  {
    var c := Chunks(plain);
    if |plain| > MAX_CHUNK {
      var rest := plain[MAX_CHUNK..];
      ChunksCover(rest);
      OneMoreChunk(|plain|);
      assert c[1..] == Chunks(rest) && plain == plain[..MAX_CHUNK] + rest;
    } else if plain != [] {
      assert c[1..] == [];
    }
  }

  lemma {:induction false} ChunksAreFull(plain: seq<byte>)
    ensures var c := Chunks(plain);
      && (plain != [] ==> c != [] && c[|c| - 1] != [])
      && forall i :: 0 <= i < |c| ==> |c[i]| <= MAX_CHUNK && (i < |c| - 1 ==> |c[i]| == MAX_CHUNK)
  {
    if |plain| > MAX_CHUNK {
      ChunksAreFull(plain[MAX_CHUNK..]);
    }
  }

  /** Chunks are full except the last, which is never empty, and together they are what was cut. */
  lemma ChunksAre(plain: seq<byte>)
    ensures var c := Chunks(plain);
      && Join(c) == plain && Small(c) && |c| == ChunkCount(|plain|)
      && (|plain| >= 4 ==> c != [] && c[|c| - 1] != [] && |c[0]| >= 4)
  {
    ChunksCover(plain);
    ChunksAreFull(plain);
  }

  ghost function Transmission(k: Keys, nonce: nat, message: seq<byte>): seq<byte>
    requires Sound(k) && |message| <= MAX_MESSAGE_BYTES
  {
    ChunksAre(Plain(message));
    Sealed(k, nonce, Chunks(Plain(message)))
  }

  /** How many encrypted messages it takes. */
  function Count(message: seq<byte>): nat {
    ChunkCount(4 + |message|)
  }

  // ---- Receiving ----

  function ReadFrame(s: seq<byte>): (r: Option<(seq<byte>, seq<byte>)>)
    ensures r.Some? ==> |r.value.1| < |s|
  {
    if |s| < 2 || |s| < 2 + Read16(s[..2]) then None
    else Some((s[2..2 + Read16(s[..2])], s[2 + Read16(s[..2])..]))
  }

  datatype Received = Received(result: Result<seq<byte>, Error>, nonce: nat, rest: seq<byte>)

  /** Receiving from a stream that ends after `s`, when `message` of the announced length has come. */
  function Recv(k: Keys, nonce: nat, s: seq<byte>, expected: Option<nat>, message: seq<byte>): Received
    decreases |s|, 1
  {
    match ReadFrame(s)
    case None => Received(Err(EndOfStream), nonce, [])
    case Some((frame, rest)) =>
      match k.open(nonce, frame)
      case None => Received(Err(Undecryptable), nonce, rest)
      case Some(chunk) =>
        if expected.Some? then Grown(k, nonce + 1, rest, expected.value, message + chunk)
        else if |chunk| < 4 then Received(Err(Malformed), nonce + 1, rest)
        else
          var len := Read32(chunk[..4]);
          if len > MAX_MESSAGE_BYTES then Received(Err(TooLarge(len)), nonce + 1, rest)
          else Grown(k, nonce + 1, rest, len, message + chunk[4..])
  }

  function Grown(k: Keys, nonce: nat, s: seq<byte>, len: nat, message: seq<byte>): Received
    decreases |s|, 2
  {
    if |message| > len then Received(Err(Malformed), nonce, s)
    else if |message| == len then Received(Ok(message), nonce, s)
    else Recv(k, nonce, s, Some(len), message)
  }

  // ---- What arrives is exactly what was announced ----

  /** `s` starts with frames that decrypt to `chunks`, and `rest` follows. */
  ghost predicate OpensTo(k: Keys, nonce: nat, s: seq<byte>, chunks: seq<seq<byte>>, rest: seq<byte>)
    decreases |chunks|
  {
    if chunks == [] then s == rest
    else
      var f := ReadFrame(s);
      f.Some? && k.open(nonce, f.value.0) == Some(chunks[0]) && OpensTo(k, nonce + 1, f.value.1, chunks[1..], rest)
  }

  lemma {:induction false} JoinLonger(chunks: seq<seq<byte>>)
    requires chunks != [] && chunks[|chunks| - 1] != []
    ensures Join(chunks) != []
  {
    if |chunks| > 1 {
      JoinLonger(chunks[1..]);
    }
  }

  /** Chunks that complete a message begun, the last of them not empty, are received as it. */
  lemma {:induction false} RestArrives(k: Keys, nonce: nat, s: seq<byte>, chunks: seq<seq<byte>>, rest: seq<byte>,
                                       message: seq<byte>, len: nat)
    requires OpensTo(k, nonce, s, chunks, rest) && chunks != [] && chunks[|chunks| - 1] != []
    requires |message + Join(chunks)| == len
    ensures Recv(k, nonce, s, Some(len), message) == Received(Ok(message + Join(chunks)), nonce + |chunks|, rest)
    decreases |chunks|
  {
    var f := ReadFrame(s).value;
    if |chunks| == 1 {
      assert Join(chunks[1..]) == [];
      assert message + Join(chunks) == message + chunks[0];
      assert chunks[1..] == [] && f.1 == rest;
    } else {
      JoinLonger(chunks[1..]);
      RestArrives(k, nonce + 1, f.1, chunks[1..], rest, message + chunks[0], len);
      assert message + Join(chunks) == message + chunks[0] + Join(chunks[1..]);
    }
  }

  /** Chunks that together are a message after its length are received as it, whatever their sizes,
      if the first holds the whole length and the last is needed. */
  lemma MessageArrives(k: Keys, nonce: nat, s: seq<byte>, chunks: seq<seq<byte>>, rest: seq<byte>, message: seq<byte>)
    requires |message| <= MAX_MESSAGE_BYTES
    requires OpensTo(k, nonce, s, chunks, rest) && Join(chunks) == Plain(message)
    requires chunks != [] && |chunks[0]| >= 4 && (|chunks| > 1 ==> chunks[|chunks| - 1] != [])
    ensures Recv(k, nonce, s, None, []) == Received(Ok(message), nonce + |chunks|, rest)
  {
    var f := ReadFrame(s).value;
    var chunk, tail := chunks[0], chunks[1..];
    assert Plain(message) == chunk + Join(tail);
    assert chunk[..4] == Plain(message)[..4] == Big32(|message|);
    Big32Reads(|message|);
    assert chunk[4..] + Join(tail) == Plain(message)[4..] == message;
    assert [] + chunk[4..] == chunk[4..];
    if tail == [] {
      assert chunk[4..] == message;
    } else {
      assert tail[|tail| - 1] == chunks[|chunks| - 1];
      JoinLonger(tail);
      RestArrives(k, nonce + 1, f.1, tail, rest, chunk[4..], |message|);
    }
  }

  /** Conversely, a message completed is what the chunks that came since make of it. */
  lemma {:induction false} RestWasSent(k: Keys, nonce: nat, s: seq<byte>, message: seq<byte>, len: nat)
    returns (chunks: seq<seq<byte>>)
    requires |message| < len && Recv(k, nonce, s, Some(len), message).result.Ok?
    ensures var r := Recv(k, nonce, s, Some(len), message);
      && OpensTo(k, nonce, s, chunks, r.rest) && r.result.value == message + Join(chunks) && |r.result.value| == len
      && r.nonce == nonce + |chunks| && chunks != [] && chunks[|chunks| - 1] != []
    decreases |s|
  {
    var f := ReadFrame(s).value;
    var chunk := k.open(nonce, f.0).value;
    if |message + chunk| == len {
      chunks := [chunk];
      assert Join(chunks[1..]) == [] && chunks[1..] == [];
    } else {
      var tail := RestWasSent(k, nonce + 1, f.1, message + chunk, len);
      chunks := [chunk] + tail;
      assert chunks[1..] == tail;
      assert message + Join(chunks) == message + chunk + Join(tail);
    }
  }

  /** Chunks that make up `message` after its length, none of them superfluous. */
  ghost predicate Exact(chunks: seq<seq<byte>>, message: seq<byte>) {
    && |message| <= MAX_MESSAGE_BYTES && Join(chunks) == Plain(message)
    && chunks != [] && |chunks[0]| >= 4 && (|chunks| > 1 ==> chunks[|chunks| - 1] != [])
  }

  lemma MessageWasSent(k: Keys, nonce: nat, s: seq<byte>) returns (chunks: seq<seq<byte>>)
    requires Recv(k, nonce, s, None, []).result.Ok?
    ensures var r := Recv(k, nonce, s, None, []);
      OpensTo(k, nonce, s, chunks, r.rest) && Exact(chunks, r.result.value) && r.nonce == nonce + |chunks|
  {
    var f := ReadFrame(s).value;
    var chunk := k.open(nonce, f.0).value;
    var len := Read32(chunk[..4]);
    ReadBig32(chunk[..4]);
    assert chunk == chunk[..4] + chunk[4..] && [] + chunk[4..] == chunk[4..];
    if |chunk[4..]| == len {
      chunks := [chunk];
      assert Join(chunks[1..]) == [] && chunks[1..] == [];
    } else {
      var tail := RestWasSent(k, nonce + 1, f.1, chunk[4..], len);
      chunks := [chunk] + tail;
      assert chunks[1..] == tail;
      assert Join(chunks) == chunk[..4] + (chunk[4..] + Join(tail));
    }
  }

  /** Whatever bytes come in, a message is received exactly if they start with frames that decrypt,
      in nonce order, to its length and its bytes; nothing shorter, longer or reordered is. */
  lemma ReceivedIffSent(k: Keys, nonce: nat, s: seq<byte>, message: seq<byte>, rest: seq<byte>)
    ensures Recv(k, nonce, s, None, []).result == Ok(message) && Recv(k, nonce, s, None, []).rest == rest
       <==> exists chunks :: OpensTo(k, nonce, s, chunks, rest) && Exact(chunks, message)
  {
    if Recv(k, nonce, s, None, []).result == Ok(message) && Recv(k, nonce, s, None, []).rest == rest {
      var chunks := MessageWasSent(k, nonce, s);
    }
    forall chunks | OpensTo(k, nonce, s, chunks, rest) && Exact(chunks, message)
      ensures Recv(k, nonce, s, None, []) == Received(Ok(message), nonce + |chunks|, rest)
    {
      MessageArrives(k, nonce, s, chunks, rest, message);
    }
  }

  // ---- Why receiving fails ----

  /** After `chunks`, the stream is over, or its next frame doesn't decrypt. */
  ghost predicate StuckAt(k: Keys, nonce: nat, rest: seq<byte>, e: Error) {
    match e
    case EndOfStream => ReadFrame(rest) == None
    case Undecryptable => ReadFrame(rest).Some? && k.open(nonce, ReadFrame(rest).value.0) == None
    case _ => false
  }

  lemma {:induction false} RestRefused(k: Keys, nonce: nat, s: seq<byte>, message: seq<byte>, len: nat)
    returns (chunks: seq<seq<byte>>, rest: seq<byte>)
    requires |message| < len && Recv(k, nonce, s, Some(len), message).result.Err?
    ensures OpensTo(k, nonce, s, chunks, rest)
    ensures var e := Recv(k, nonce, s, Some(len), message).result.error;
      if e == Malformed then |message + Join(chunks)| > len else StuckAt(k, nonce + |chunks|, rest, e)
    decreases |s|
  {
    var f := ReadFrame(s);
    if f.None? || k.open(nonce, f.value.0).None? {
      return [], s;
    }
    var chunk := k.open(nonce, f.value.0).value;
    if |message + chunk| > len {
      chunks, rest := [chunk], f.value.1;
      assert Join(chunks[1..]) == [] && chunks[1..] == [];
    } else {
      var tail;
      tail, rest := RestRefused(k, nonce + 1, f.value.1, message + chunk, len);
      chunks := [chunk] + tail;
      assert chunks[1..] == tail;
      assert message + Join(chunks) == message + chunk + Join(tail);
    }
  }

  /** Every refusal is for a reason, after chunks that decrypt: a length over 16 MiB, a first chunk
      without the whole length, more bytes than announced, a frame that doesn't decrypt, or the end. */
  lemma RefusedForAReason(k: Keys, nonce: nat, s: seq<byte>) returns (chunks: seq<seq<byte>>, rest: seq<byte>)
    requires Recv(k, nonce, s, None, []).result.Err?
    ensures OpensTo(k, nonce, s, chunks, rest)
    ensures match Recv(k, nonce, s, None, []).result.error
      case TooLarge(n) => |chunks| == 1 && |chunks[0]| >= 4 && n == Read32(chunks[0][..4]) > MAX_MESSAGE_BYTES
      case Malformed => chunks != [] && (|chunks[0]| < 4 || |Join(chunks)| > 4 + Read32(chunks[0][..4]))
      case e => StuckAt(k, nonce + |chunks|, rest, e)
  {
    var f := ReadFrame(s);
    if f.None? || k.open(nonce, f.value.0).None? {
      return [], s;
    }
    var chunk := k.open(nonce, f.value.0).value;
    chunks, rest := [chunk], f.value.1;
    assert Join(chunks[1..]) == [] && chunks[1..] == [];
    if |chunk| >= 4 && Read32(chunk[..4]) <= MAX_MESSAGE_BYTES && |chunk[4..]| <= Read32(chunk[..4]) {
      var tail;
      assert [] + chunk[4..] == chunk[4..];
      tail, rest := RestRefused(k, nonce + 1, f.value.1, chunk[4..], Read32(chunk[..4]));
      chunks := [chunk] + tail;
      assert chunks[1..] == tail && |Join(chunks)| == 4 + |chunk[4..] + Join(tail)|;
    }
  }

  // ---- Round trip ----

  lemma FrameReads(x: seq<byte>, rest: seq<byte>)
    requires |x| <= MAX_NOISE_MESSAGE
    ensures ReadFrame(Framed(x) + rest) == Some((x, rest))
  {
    var s := Framed(x) + rest;
    Big16Reads(|x|);
    assert s[..2] == Big16(|x|);
    assert s[2..2 + |x|] == x && s[2 + |x|..] == rest;
  }

  lemma {:induction false} SealedOpens(k: Keys, nonce: nat, chunks: seq<seq<byte>>, rest: seq<byte>)
    requires Sound(k) && Small(chunks)
    ensures OpensTo(k, nonce, Sealed(k, nonce, chunks) + rest, chunks, rest)
    decreases |chunks|
  {
    if chunks == [] {
      assert [] + rest == rest;
    } else {
      var x, tail := k.seal(nonce, chunks[0]), Sealed(k, nonce + 1, chunks[1..]);
      assert Framed(x) + tail + rest == Framed(x) + (tail + rest);
      FrameReads(x, tail + rest);
      SealedOpens(k, nonce + 1, chunks[1..], rest);
    }
  }

  /** One message, followed by anything. */
  lemma RoundTrip(k: Keys, nonce: nat, message: seq<byte>, rest: seq<byte>)
    requires Sound(k) && |message| <= MAX_MESSAGE_BYTES
    ensures Recv(k, nonce, Transmission(k, nonce, message) + rest, None, [])
        == Received(Ok(message), nonce + Count(message), rest)
  {
    var chunks := Chunks(Plain(message));
    ChunksAre(Plain(message));
    SealedOpens(k, nonce, chunks, rest);
    MessageArrives(k, nonce, Transmission(k, nonce, message) + rest, chunks, rest, message);
  }

  ghost predicate AllFit(messages: seq<seq<byte>>) {
    forall i :: 0 <= i < |messages| ==> |messages[i]| <= MAX_MESSAGE_BYTES
  }

  /** Everything one side writes when it sends these messages. */
  ghost function Conversation(k: Keys, nonce: nat, messages: seq<seq<byte>>): seq<byte>
    requires Sound(k) && AllFit(messages)
    decreases |messages|
  {
    if messages == [] then []
    else Transmission(k, nonce, messages[0]) + Conversation(k, nonce + Count(messages[0]), messages[1..])
  }

  /** The first messages received from a stream, and the error that ended them, if one did. */
  ghost function ReceiveAll(k: Keys, nonce: nat, s: seq<byte>, atMost: nat): (seq<seq<byte>>, Option<Error>)
    decreases atMost
  {
    if atMost == 0 then ([], None)
    else
      var r := Recv(k, nonce, s, None, []);
      match r.result
      case Err(e) => ([], Some(e))
      case Ok(m) =>
        var (more, error) := ReceiveAll(k, r.nonce, r.rest, atMost - 1);
        ([m] + more, error)
  }

  /** For every sequence of messages, the other side receives exactly it, then the end. */
  lemma {:induction false} ConversationArrives(k: Keys, nonce: nat, messages: seq<seq<byte>>, atMost: nat)
    requires Sound(k) && AllFit(messages) && atMost > |messages|
    ensures ReceiveAll(k, nonce, Conversation(k, nonce, messages), atMost) == (messages, Some(EndOfStream))
    decreases |messages|
  {
    if messages != [] {
      var next := nonce + Count(messages[0]);
      var tail := Conversation(k, next, messages[1..]);
      RoundTrip(k, nonce, messages[0], tail);
      assert Recv(k, nonce, Conversation(k, nonce, messages), None, []) == Received(Ok(messages[0]), next, tail);
      ConversationArrives(k, next, messages[1..], atMost - 1);
      assert messages == [messages[0]] + messages[1..];
    } else {
      assert Recv(k, nonce, [], None, []).result == Err(EndOfStream);
    }
  }

  /** How much is written: the message, its length, and 18 bytes for each encrypted message. */
  lemma {:induction false} SealedLength(k: Keys, nonce: nat, chunks: seq<seq<byte>>)
    requires Sound(k) && Small(chunks)
    ensures |Sealed(k, nonce, chunks)| == |Join(chunks)| + 18 * |chunks|
    decreases |chunks|
  {
    if chunks != [] {
      SealedLength(k, nonce + 1, chunks[1..]);
    }
  }

  lemma TransmissionLength(k: Keys, nonce: nat, message: seq<byte>)
    requires Sound(k) && |message| <= MAX_MESSAGE_BYTES
    ensures |Transmission(k, nonce, message)| == 4 + |message| + 18 * Count(message)
  {
    ChunksAre(Plain(message));
    SealedLength(k, nonce, Chunks(Plain(message)));
  }

  // ---- A connection cut off ----

  lemma CutFrame(x: seq<byte>, s: seq<byte>)
    requires |x| <= MAX_NOISE_MESSAGE && s <= Framed(x) && |s| < |Framed(x)|
    ensures ReadFrame(s) == None
  {
    if |s| >= 2 {
      assert s[..2] == Framed(x)[..2] == Big16(|x|);
      Big16Reads(|x|);
    }
  }

  /** The first frames of a message cut off inside it. */
  lemma {:induction false} CutRest(k: Keys, nonce: nat, chunks: seq<seq<byte>>, s: seq<byte>, message: seq<byte>,
                                   len: nat)
    requires Sound(k) && Small(chunks) && (chunks != [] ==> chunks[|chunks| - 1] != [])
    requires s < Sealed(k, nonce, chunks) && |message + Join(chunks)| == len
    ensures Recv(k, nonce, s, Some(len), message).result == Err(EndOfStream)
    decreases |chunks|
  {
    var x, tail := k.seal(nonce, chunks[0]), Sealed(k, nonce + 1, chunks[1..]);
    if |s| < |Framed(x)| {
      assert s <= Framed(x);
      CutFrame(x, s);
    } else {
      var s' := s[|Framed(x)|..];
      assert s == Framed(x) + s' && s' < tail;
      FrameReads(x, s');
      assert |message + chunks[0] + Join(chunks[1..])| == len;
      JoinLonger(chunks[1..]);
      CutRest(k, nonce + 1, chunks[1..], s', message + chunks[0], len);
    }
  }

  /** A message whose bytes stop short is never received, not even in part. */
  lemma CutMessage(k: Keys, nonce: nat, message: seq<byte>, s: seq<byte>)
    requires Sound(k) && |message| <= MAX_MESSAGE_BYTES && s < Transmission(k, nonce, message)
    ensures Recv(k, nonce, s, None, []).result == Err(EndOfStream)
  {
    var chunks := Chunks(Plain(message));
    ChunksAre(Plain(message));
    var x, tail := k.seal(nonce, chunks[0]), Sealed(k, nonce + 1, chunks[1..]);
    if |s| < |Framed(x)| {
      assert s <= Framed(x);
      CutFrame(x, s);
    } else {
      var s' := s[|Framed(x)|..];
      assert s == Framed(x) + s' && s' < tail;
      FrameReads(x, s');
      assert chunks[0] + Join(chunks[1..]) == Plain(message);
      assert chunks[0][..4] == Plain(message)[..4] == Big32(|message|);
      Big32Reads(|message|);
      assert |chunks[0][4..] + Join(chunks[1..])| == |message|;
      assert [] + chunks[0][4..] == chunks[0][4..];
      JoinLonger(chunks[1..]);
      CutRest(k, nonce + 1, chunks[1..], s', chunks[0][4..], |message|);
    }
  }
}
