/** Frames of the byte stream: what the handlers of src/chat.c do to their buffers and keys, as
    functions of values, and a one-shot parser of a whole stream to hold them against. */
module Frames {
  import opened Bytes
  import opened Keys

  const HEADER_SIZE := 12

  // ----- Sending

  /** The size is cut to 32 bits, as the cast in `chat_begin_send` cuts it. */
  function Header(size: nat, head: uint64): (r: seq<byte>)
    ensures |r| == HEADER_SIZE
  {
    BigEndian(4, size) + BigEndian(8, head)
  }

  datatype Outgoing = Outgoing(key: KeyState, frame: seq<byte>, failed: bool)

  /** `chat_begin_send`: when the key runs out the frame keeps the payload as it was copied in. */
  function BeginFrame(k: KeyState, payload: seq<byte>): Outgoing {
    var c := Encrypt(k, payload);
    Outgoing(c.key, Header(|payload|, k.head) + c.text, c.failed)
  }

  // ----- Receiving in pieces

  /** The receive buffer: its allocated size (0 when there is none) and the bytes in it. */
  datatype Buffer = Buffer(got: seq<byte>, size: nat)

  const EMPTY := Buffer([], 0)

  function Begin(r: Buffer): Buffer {
    if r.size == 0 then Buffer([], HEADER_SIZE) else r
  }

  predicate WellSized(r: Buffer) {
    r.size == 0 || r.size >= HEADER_SIZE
  }

  /** How many bytes the next receive asks for. */
  function Room(r: Buffer): int {
    Begin(r).size - |Begin(r).got|
  }

  datatype Event = Nothing | Hangup | Text(text: seq<byte>) | OutOfKey
  datatype Reception = Reception(buffer: Buffer, key: KeyState, event: Event)

  function FrameSize(s: seq<byte>): (n: nat)
    requires |s| >= HEADER_SIZE
    ensures n < TWO32
  {
    BigEndianOnto(s[..4]);
    Widths();
    FromBigEndian(s[..4])
  }

  function FrameHead(s: seq<byte>): uint64
    requires |s| >= HEADER_SIZE
  {
    BigEndianOnto(s[4..12]);
    Widths();
    FromBigEndian(s[4..12])
  }

  /** A full buffer: the header makes it grow, the payload is decrypted and delivered. */
  function Complete(b: Buffer, k: KeyState): Reception
    requires |b.got| == b.size >= HEADER_SIZE
  {
    if b.size == HEADER_SIZE then
      Reception(Buffer(b.got, HEADER_SIZE + FrameSize(b.got)), Seek(k, FrameHead(b.got)), Nothing)
    else
      var c := Encrypt(k, b.got[HEADER_SIZE..]);
      if c.failed then Reception(b, c.key, OutOfKey) else Reception(EMPTY, c.key, Text(c.text))
  }

  /** `chat_handle_recv` when the socket hands over `chunk`; none means the connection is gone. */
  function Receive(r: Buffer, k: KeyState, chunk: seq<byte>): Reception
    requires WellSized(r) && |chunk| <= Room(r)
  {
    var b := Buffer(Begin(r).got + chunk, Begin(r).size);
    if chunk == [] then Reception(Begin(r), k, Hangup)
    else if |b.got| < b.size then Reception(b, k, Nothing)
    else Complete(b, k)
  }

  // ----- The reference parser

  datatype Stop = More | EmptyFrame | KeyExhausted
  /** The texts of the complete frames, where the key file stands after them, the bytes not
      consumed, and why parsing ended. */
  datatype Parsed = Parsed(texts: seq<seq<byte>>, pos: nat, rest: seq<byte>, stop: Stop)

  function FrameOffset(s: seq<byte>, pos: nat): nat
    requires |s| >= HEADER_SIZE
  {
    var p := Position(FrameHead(s));
    if p.Some? then p.value else pos
  }

  /** What stands at the front of `s`: too few bytes for a frame, a frame that cannot be read, or
      a frame of `length` bytes with its text, after which the key file stands at `pos`. */
  datatype Front = Wait | Halt(stop: Stop, pos: nat) | Frame(text: seq<byte>, pos: nat, length: nat)

  function FrontOf(file: seq<byte>, pos: nat, s: seq<byte>): (f: Front)
    ensures f.Frame? ==> HEADER_SIZE < f.length <= |s|
    ensures f.Halt? ==> f.stop != More && |s| >= HEADER_SIZE
  {
    if |s| < HEADER_SIZE then Wait
    else
      var n, at := FrameSize(s), FrameOffset(s, pos);
      if n == 0 then Halt(EmptyFrame, at)
      else if |s| < HEADER_SIZE + n then Wait
      else
        var block := ReadAt(file, at, n);
        if |block| < n then Halt(KeyExhausted, at)
        else Frame(Mask(block, s[HEADER_SIZE..HEADER_SIZE + n]), at + n, HEADER_SIZE + n)
  }

  /** Reads `s` from left to right against the key file `file`, frame by frame. */
  function Parse(file: seq<byte>, pos: nat, s: seq<byte>): Parsed
    decreases |s|
  {
    match FrontOf(file, pos, s)
    case Wait => Parsed([], pos, s, More)
    case Halt(stop, at) => Parsed([], at, s, stop)
    case Frame(text, at, length) =>
      var tail := Parse(file, at, s[length..]);
      tail.(texts := [text] + tail.texts)
  }

  lemma FrontAppend(file: seq<byte>, pos: nat, a: seq<byte>, b: seq<byte>)
    requires !FrontOf(file, pos, a).Wait?
    ensures FrontOf(file, pos, a + b) == FrontOf(file, pos, a)
  {
    SameHeader(a, b);
    var n := FrameSize(a);
    if n > 0 {
      assert (a + b)[HEADER_SIZE..HEADER_SIZE + n] == a[HEADER_SIZE..HEADER_SIZE + n];
    }
  }

  /** Parsing resumes where it stopped for lack of bytes, and never otherwise. */
  lemma {:induction false} ParseAppend(file: seq<byte>, pos: nat, a: seq<byte>, b: seq<byte>)
    ensures var p, q := Parse(file, pos, a), Parse(file, pos, a + b);
      if p.stop == More then
        var t := Parse(file, p.pos, p.rest + b);
        q == t.(texts := p.texts + t.texts)
      else
        q == p.(rest := p.rest + b)
    decreases |a|
  {
    match FrontOf(file, pos, a)
    case Wait =>
    case Halt(_, _) =>
      FrontAppend(file, pos, a, b);
    case Frame(text, at, length) =>
      FrontAppend(file, pos, a, b);
      assert (a + b)[length..] == a[length..] + b;
      ParseAppend(file, at, a[length..], b);
      var p := Parse(file, at, a[length..]);
      var t := Parse(file, p.pos, p.rest + b);
      Assoc([text], p.texts, t.texts);
  }

  lemma SameHeader(a: seq<byte>, b: seq<byte>)
    requires |a| >= HEADER_SIZE
    ensures FrameSize(a + b) == FrameSize(a) && FrameHead(a + b) == FrameHead(a)
  {
    assert (a + b)[..4] == a[..4] && (a + b)[4..12] == a[4..12];
  }

  // ----- Receiving in pieces is parsing at once

  /** The buffer and key of a receiver that has taken exactly the bytes that `p` parsed. */
  predicate Tracks(r: Buffer, k: KeyState, file: seq<byte>, p: Parsed) {
    && k.stream.bytes == file
    && WellSized(r)
    && Begin(r).got == p.rest
    && match p.stop
       case More =>
         if |p.rest| < HEADER_SIZE then Begin(r).size == HEADER_SIZE && k.stream.pos == p.pos
         else
           Begin(r).size == HEADER_SIZE + FrameSize(p.rest) && |p.rest| < Begin(r).size
           && k.stream.pos == FrameOffset(p.rest, p.pos)
       case _ => Begin(r).size == |p.rest|
  }

  function TextsOf(e: Event): seq<seq<byte>> {
    if e.Text? then [e.text] else []
  }

  /** The receiver asks for zero bytes, which ends the connection, exactly when the stream so far
      holds a header of size zero or a frame beyond the key. */
  lemma StuckIffStopped(r: Buffer, k: KeyState, file: seq<byte>, p: Parsed)
    requires Tracks(r, k, file, p)
    ensures Room(r) >= 0
    ensures Room(r) == 0 <==> p.stop != More
  {
  }

  /** One receive by a receiver in the middle of a frame, whose bytes so far are `p.rest`. */
  lemma ReceiveInFrame(r: Buffer, k: KeyState, file: seq<byte>, p: Parsed, chunk: seq<byte>)
    requires p.stop == More && Tracks(r, k, file, p)
    requires 0 < |chunk| <= Room(r)
    ensures var x, q := Receive(r, k, chunk), Parse(file, p.pos, p.rest + chunk);
      Tracks(x.buffer, x.key, file, q) && q.texts == TextsOf(x.event)
  {
    var t := p.rest + chunk;
    if |p.rest| < HEADER_SIZE {
      assert |t| <= HEADER_SIZE;
      assert FrontOf(file, p.pos, t).Wait? || |t| == HEADER_SIZE;
    } else {
      SameHeader(p.rest, chunk);
      var n := FrameSize(t);
      if |t| < HEADER_SIZE + n {
        assert FrontOf(file, p.pos, t).Wait?;
      } else {
        ReceiveLast(r, k, file, p, chunk);
      }
    }
  }

  /** The receive that completes a frame. */
  lemma ReceiveLast(r: Buffer, k: KeyState, file: seq<byte>, p: Parsed, chunk: seq<byte>)
    requires p.stop == More && Tracks(r, k, file, p)
    requires |p.rest| >= HEADER_SIZE && 0 < |chunk| == Room(r)
    ensures var x, q := Receive(r, k, chunk), Parse(file, p.pos, p.rest + chunk);
      Tracks(x.buffer, x.key, file, q) && q.texts == TextsOf(x.event)
  {
    var t := p.rest + chunk;
    SameHeader(p.rest, chunk);
    var n := FrameSize(t);
    var block := ReadAt(file, k.stream.pos, n);
    assert t[HEADER_SIZE..HEADER_SIZE + n] == t[HEADER_SIZE..];
    if |block| == n {
      assert FrontOf(file, p.pos, t) == Frame(Mask(block, t[HEADER_SIZE..]), k.stream.pos + n, |t|);
      assert t[|t|..] == [];
    } else {
      assert FrontOf(file, p.pos, t) == Halt(KeyExhausted, k.stream.pos);
    }
  }

  lemma ReceiveTracks(r: Buffer, k: KeyState, file: seq<byte>, pos: nat, a: seq<byte>, chunk: seq<byte>)
    requires Tracks(r, k, file, Parse(file, pos, a))
    requires 0 < |chunk| <= Room(r)
    ensures var x := Receive(r, k, chunk);
      && Tracks(x.buffer, x.key, file, Parse(file, pos, a + chunk))
      && Parse(file, pos, a + chunk).texts == Parse(file, pos, a).texts + TextsOf(x.event)
  {
    var p := Parse(file, pos, a);
    StuckIffStopped(r, k, file, p);
    ReceiveInFrame(r, k, file, p, chunk);
    ParseAppend(file, pos, a, chunk);
  }

  datatype Receipt = Receipt(buffer: Buffer, key: KeyState, texts: seq<seq<byte>>)

  /** Every chunk is non-empty and no longer than what the receiver asks for at that moment. */
  predicate Fits(r: Buffer, k: KeyState, chunks: seq<seq<byte>>)
    decreases |chunks|
  {
    chunks != [] ==>
      && WellSized(r)
      && 0 < |chunks[0]| <= Room(r)
      && var x := Receive(r, k, chunks[0]); Fits(x.buffer, x.key, chunks[1..])
  }

  function ReceiveAll(r: Buffer, k: KeyState, chunks: seq<seq<byte>>): Receipt
    requires Fits(r, k, chunks)
    decreases |chunks|
  {
    if chunks == [] then Receipt(r, k, [])
    else
      var x := Receive(r, k, chunks[0]);
      var rest := ReceiveAll(x.buffer, x.key, chunks[1..]);
      rest.(texts := TextsOf(x.event) + rest.texts)
  }

  lemma {:induction false} ReceiveAllTracks(r: Buffer, k: KeyState, file: seq<byte>, pos: nat,
                                            a: seq<byte>, chunks: seq<seq<byte>>)
    requires Tracks(r, k, file, Parse(file, pos, a)) && Fits(r, k, chunks)
    ensures var x := ReceiveAll(r, k, chunks);
      && Tracks(x.buffer, x.key, file, Parse(file, pos, a + Concat(chunks)))
      && Parse(file, pos, a + Concat(chunks)).texts == Parse(file, pos, a).texts + x.texts
    decreases |chunks|
  {
    if chunks == [] {
      assert a + [] == a;
    } else {
      ReceiveTracks(r, k, file, pos, a, chunks[0]);
      var x := Receive(r, k, chunks[0]);
      ReceiveAllTracks(x.buffer, x.key, file, pos, a + chunks[0], chunks[1..]);
      Assoc(a, chunks[0], Concat(chunks[1..]));
      var rest := ReceiveAll(x.buffer, x.key, chunks[1..]);
      Assoc(Parse(file, pos, a).texts, TextsOf(x.event), rest.texts);
    }
  }

  /** The texts delivered from the bytes taken, and whether the receiver asks for more. */
  lemma TakenChunks(k: KeyState, chunks: seq<seq<byte>>)
    requires Fits(EMPTY, k, chunks)
    ensures var x, p := ReceiveAll(EMPTY, k, chunks), Parse(k.stream.bytes, k.stream.pos, Concat(chunks));
      x.texts == p.texts && (Room(x.buffer) == 0 <==> p.stop != More)
  {
    var file, pos := k.stream.bytes, k.stream.pos;
    ReceiveAllTracks(EMPTY, k, file, pos, [], chunks);
    assert [] + Concat(chunks) == Concat(chunks);
    var x := ReceiveAll(EMPTY, k, chunks);
    StuckIffStopped(x.buffer, x.key, file, Parse(file, pos, Concat(chunks)));
  }

  /** However the bytes of a stream are cut into received chunks, a receiver with a clean buffer
      delivers what the one-shot parser reads from them. `more` is what a receiver that has stopped
      asking for bytes leaves behind. */
  lemma ChunkingIndependence(k: KeyState, chunks: seq<seq<byte>>, more: seq<byte>)
    requires Fits(EMPTY, k, chunks)
    requires more == [] || Room(ReceiveAll(EMPTY, k, chunks).buffer) == 0
    ensures var x := ReceiveAll(EMPTY, k, chunks);
      var p := Parse(k.stream.bytes, k.stream.pos, Concat(chunks) + more);
      && x.texts == p.texts
      && (Room(x.buffer) == 0 <==> p.stop != More)
  {
    TakenChunks(k, chunks);
    if more == [] {
      assert Concat(chunks) + more == Concat(chunks);
    } else {
      ParseAppend(k.stream.bytes, k.stream.pos, Concat(chunks), more);
    }
  }
}
