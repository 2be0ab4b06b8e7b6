/** Where frames meet key files: one frame through any copy of the key, streams of frames, and key
    files created, closed and opened again (src/chat.c and src/key.c together). */
module Pads {
  import opened Bytes
  import opened Keys
  import opened Frames

  /** Two files hold the same key data; saved head, id and magic may differ. */
  predicate SamePad(f: seq<byte>, g: seq<byte>) {
    |f| == |g| && |f| >= DATA_OFFSET && f[DATA_OFFSET..] == g[DATA_OFFSET..]
  }

  lemma SamePadRead(f: seq<byte>, g: seq<byte>, pos: nat, n: nat)
    requires SamePad(f, g) && pos >= DATA_OFFSET
    ensures ReadAt(f, pos, n) == ReadAt(g, pos, n)
  {
    if pos < |f| {
      var m := Min(pos + n, |f|);
      forall i | pos <= i < m
        ensures f[i] == g[i]
      {
        assert f[i] == f[DATA_OFFSET..][i - DATA_OFFSET];
      }
      assert f[pos..m] == g[pos..m];
    }
  }

  /** The header gives back the head and the low 32 bits of the size. */
  lemma HeaderRoundTrip(size: nat, head: uint64, text: seq<byte>)
    ensures FrameSize(Header(size, head) + text) == size % TWO32
    ensures FrameHead(Header(size, head) + text) == head
  {
    var s := Header(size, head) + text;
    assert s[..4] == BigEndian(4, size) && s[4..12] == BigEndian(8, head);
    BigEndianRoundTrip(4, size);
    BigEndianRoundTrip(8, head);
    Widths();
  }

  /** The header's bytes in network order: four of the size, then eight of the head. */
  lemma HeaderBytes(size: nat, head: uint64, i: nat)
    requires i < HEADER_SIZE
    ensures Header(size, head)[i] == if i < 4 then size / Pow256(3 - i) % 256 else head / Pow256(11 - i) % 256
  {
    if i < 4 {
      BigEndianAt(4, size, i);
    } else {
      BigEndianAt(8, head, i - 4);
    }
  }

  /** Enough key bytes are left after the head to encrypt `n` bytes. */
  predicate Enough(k: KeyState, n: nat) {
    k.head + n <= |k.stream.bytes| - DATA_OFFSET
  }

  /** The front of a stream that is one frame, by the two fields of its header. */
  lemma FrontOfFrame(copy: seq<byte>, pos: nat, frame: seq<byte>, head: uint64, body: seq<byte>)
    requires 1 <= |body| < TWO32 && head + DATA_OFFSET < TWO63
    requires |frame| == HEADER_SIZE + |body| && frame[HEADER_SIZE..] == body
    requires FrameSize(frame) == |body| && FrameHead(frame) == head
    ensures var n, at := |body|, head + DATA_OFFSET;
      var block := ReadAt(copy, at, n);
      FrontOf(copy, pos, frame)
      == if |block| < n then Halt(KeyExhausted, at) else Frame(Mask(block, body), at + n, HEADER_SIZE + n)
  {
    assert FrameOffset(frame, pos) == head + DATA_OFFSET;
    assert frame[HEADER_SIZE..HEADER_SIZE + |body|] == body;
  }

  /** What a begun frame holds. */
  lemma FrameFields(k: KeyState, payload: seq<byte>)
    ensures var frame := BeginFrame(k, payload).frame;
      && |frame| == HEADER_SIZE + |payload| && frame[HEADER_SIZE..] == Encrypt(k, payload).text
      && FrameSize(frame) == |payload| % TWO32 && FrameHead(frame) == k.head
  {
    var frame, text := BeginFrame(k, payload).frame, Encrypt(k, payload).text;
    HeaderRoundTrip(|payload|, k.head, text);
    assert frame[HEADER_SIZE..] == text;
  }

  /** On the wire, bit by bit: byte `j` of the payload is masked with byte `j` of the pad, which starts
      in the key file behind the 32 bytes in front at the head that the header names. */
  lemma FrameBits(k: KeyState, payload: seq<byte>, j: nat, i: nat)
    requires Coherent(k) && !BeginFrame(k, payload).failed && j < |payload| && i < 8
    ensures MaskedBit(k.stream.bytes, BeginFrame(k, payload).frame, payload, j, i)
  {
    FrameFields(k, payload);
    EncryptBits(k, payload, j, i);
    FieldsBits(k, payload, BeginFrame(k, payload).frame, j, i);
  }

  /** The bit is set exactly when the bits of the pad, as the header names it, and of the text differ. */
  predicate MaskedBit(file: seq<byte>, frame: seq<byte>, text: seq<byte>, j: nat, i: nat) {
    && |frame| == HEADER_SIZE + |text| && j < |text| && DATA_OFFSET + FrameHead(frame) + j < |file|
    && (Bit(frame[HEADER_SIZE + j], i) == 1
        <==> Bit(file[DATA_OFFSET + FrameHead(frame) + j], i) != Bit(text[j], i))
  }

  lemma FieldsBits(k: KeyState, text: seq<byte>, frame: seq<byte>, j: nat, i: nat)
    requires Coherent(k) && j < |text| && k.stream.pos + j < |k.stream.bytes|
    requires |frame| == HEADER_SIZE + |text| && frame[HEADER_SIZE..] == Encrypt(k, text).text
    requires FrameHead(frame) == k.head
    requires Bit(Encrypt(k, text).text[j], i) == 1
        <==> Bit(k.stream.bytes[k.stream.pos + j], i) != Bit(text[j], i)
    ensures MaskedBit(k.stream.bytes, frame, text, j, i)
  {
    assert frame[HEADER_SIZE + j] == frame[HEADER_SIZE..][j];
  }

  lemma FieldsFront(k: KeyState, payload: seq<byte>, frame: seq<byte>, copy: seq<byte>, pos: nat)
    requires Coherent(k) && SamePad(k.stream.bytes, copy)
    requires |frame| == HEADER_SIZE + |payload| && frame[HEADER_SIZE..] == Encrypt(k, payload).text
    requires FrameSize(frame) == |payload| && FrameHead(frame) == k.head
    requires 1 <= |payload| && Enough(k, |payload|)
    ensures FrontOf(copy, pos, frame) == Frame(payload, k.head + DATA_OFFSET + |payload|, |frame|)
  {
    var n := |payload|;
    var block := ReadAt(k.stream.bytes, k.stream.pos, n);
    assert Encrypt(k, payload).text == Mask(block, payload);
    FrontOfFrame(copy, pos, frame, k.head, Mask(block, payload));
    SamePadRead(k.stream.bytes, copy, k.stream.pos, n);
    MaskCancels(block, payload);
  }

  lemma WholeFrame(copy: seq<byte>, pos: nat, s: seq<byte>, text: seq<byte>, at: nat)
    requires FrontOf(copy, pos, s) == Frame(text, at, |s|)
    ensures Parse(copy, pos, s) == Parsed([text], at, [], More)
  {
    assert s[|s|..] == [];
    NothingParses(copy, at);
  }

  /** A frame begun with enough key parses to its payload against any copy of the key, wherever
      that copy stood before: the header says where the pad starts. */
  lemma FrameParses(k: KeyState, payload: seq<byte>, copy: seq<byte>, pos: nat)
    requires Coherent(k) && SamePad(k.stream.bytes, copy)
    requires 1 <= |payload| < TWO32 && Enough(k, |payload|)
    ensures Parse(copy, pos, BeginFrame(k, payload).frame)
         == Parsed([payload], k.head + DATA_OFFSET + |payload|, [], More)
  {
    FrameFields(k, payload);
    var frame := BeginFrame(k, payload).frame;
    FieldsFront(k, payload, frame, copy, pos);
    WholeFrame(copy, pos, frame, payload, k.head + DATA_OFFSET + |payload|);
  }

  lemma NothingParses(copy: seq<byte>, pos: nat)
    ensures Parse(copy, pos, []) == Parsed([], pos, [], More)
  {
  }

  lemma FieldsDiffer(k: KeyState, payload: seq<byte>, frame: seq<byte>, copy: seq<byte>, pos: nat)
    requires Coherent(k) && SamePad(k.stream.bytes, copy)
    requires |frame| == HEADER_SIZE + |payload| && frame[HEADER_SIZE..] == Encrypt(k, payload).text
    requires FrameSize(frame) == |payload| % TWO32 && FrameHead(frame) == k.head
    requires !(1 <= |payload| < TWO32 && Enough(k, |payload|))
    ensures Parse(copy, pos, frame).texts != [payload]
  {
    var n := |payload|;
    if 1 <= n < TWO32 {
      FrontOfFrame(copy, pos, frame, k.head, Encrypt(k, payload).text);
      SamePadRead(k.stream.bytes, copy, k.stream.pos, n);
      assert FrontOf(copy, pos, frame).Halt?;
    } else {
      FrontIsShort(copy, pos, frame);
      FirstText(copy, pos, frame);
    }
  }

  lemma FieldsHalt(k: KeyState, payload: seq<byte>, frame: seq<byte>, copy: seq<byte>, pos: nat)
    requires Coherent(k) && SamePad(k.stream.bytes, copy) && |payload| < TWO32
    requires |frame| == HEADER_SIZE + |payload| && frame[HEADER_SIZE..] == Encrypt(k, payload).text
    requires FrameSize(frame) == |payload| && FrameHead(frame) == k.head
    requires !(1 <= |payload| && Enough(k, |payload|))
    ensures Parse(copy, pos, frame).texts == [] && Parse(copy, pos, frame).stop != More
  {
    if 1 <= |payload| {
      FrontOfFrame(copy, pos, frame, k.head, Encrypt(k, payload).text);
      SamePadRead(k.stream.bytes, copy, k.stream.pos, |payload|);
    }
    assert FrontOf(copy, pos, frame).Halt?;
  }

  /** A frame begun without enough key, or of a size that is zero or does not fit, does not parse to
      its payload. */
  lemma BadFrameDiffers(k: KeyState, payload: seq<byte>, copy: seq<byte>, pos: nat)
    requires Coherent(k) && SamePad(k.stream.bytes, copy)
    requires !(1 <= |payload| < TWO32 && Enough(k, |payload|))
    ensures Parse(copy, pos, BeginFrame(k, payload).frame).texts != [payload]
  {
    FrameFields(k, payload);
    FieldsDiffer(k, payload, BeginFrame(k, payload).frame, copy, pos);
  }

  lemma FirstText(copy: seq<byte>, pos: nat, s: seq<byte>)
    ensures var f, p := FrontOf(copy, pos, s), Parse(copy, pos, s);
      if f.Frame? then |p.texts| > 0 && p.texts[0] == f.text else p.texts == []
  {
  }

  /** No frame carries a text of zero bytes, or one of 2^32 bytes or more. */
  lemma FrontIsShort(copy: seq<byte>, pos: nat, s: seq<byte>)
    ensures var f := FrontOf(copy, pos, s); f.Frame? ==> 0 < |f.text| < TWO32
  {
  }

  /** One message sent over a clean connection, cut into any chunks, arrives as itself exactly when
      it is not empty, its size fits 32 bits and the sender had key bytes for all of it. The head of
      the receiver's copy does not matter. `more` is what a receiver that has stopped asking for
      bytes leaves behind. */
  lemma DeliveredIff(k: KeyState, payload: seq<byte>, copy: KeyState, chunks: seq<seq<byte>>, more: seq<byte>)
    requires Coherent(k) && SamePad(k.stream.bytes, copy.stream.bytes)
    requires Fits(EMPTY, copy, chunks) && Concat(chunks) + more == BeginFrame(k, payload).frame
    requires more == [] || Room(ReceiveAll(EMPTY, copy, chunks).buffer) == 0
    ensures ReceiveAll(EMPTY, copy, chunks).texts == [payload]
       <==> 1 <= |payload| < TWO32 && Enough(k, |payload|)
  {
    ChunkingIndependence(copy, chunks, more);
    if 1 <= |payload| < TWO32 && Enough(k, |payload|) {
      FrameParses(k, payload, copy.stream.bytes, copy.stream.pos);
    } else {
      BadFrameDiffers(k, payload, copy.stream.bytes, copy.stream.pos);
    }
  }

  // ----- Streams of frames

  function FramesLength(texts: seq<seq<byte>>): nat {
    if texts == [] then 0 else HEADER_SIZE + |texts[0]| + FramesLength(texts[1..])
  }

  lemma {:induction false} FramesLengthJoin(a: seq<seq<byte>>, b: seq<seq<byte>>)
    ensures FramesLength(a + b) == FramesLength(a) + FramesLength(b)
  {
    if a == [] {
      assert a + b == b;
    } else {
      assert (a + b)[1..] == a[1..] + b;
      FramesLengthJoin(a[1..], b);
    }
  }

  /** Parsing accounts for every byte: the frames of the texts, and the rest. */
  lemma {:induction false} ParsedLength(file: seq<byte>, pos: nat, s: seq<byte>)
    ensures var p := Parse(file, pos, s); |s| == FramesLength(p.texts) + |p.rest|
    decreases |s|
  {
    match FrontOf(file, pos, s)
    case Frame(text, at, length) =>
      FrontLength(file, pos, s);
      ParsedLength(file, at, s[length..]);
    case _ =>
  }

  lemma FrontLength(file: seq<byte>, pos: nat, s: seq<byte>)
    ensures var f := FrontOf(file, pos, s); f.Frame? ==> f.length == HEADER_SIZE + |f.text|
  {
  }

  lemma {:induction false} StopLeavesRest(file: seq<byte>, pos: nat, s: seq<byte>)
    ensures var p := Parse(file, pos, s); p.stop != More ==> |p.rest| >= HEADER_SIZE
    decreases |s|
  {
    match FrontOf(file, pos, s)
    case Frame(text, at, length) => StopLeavesRest(file, at, s[length..]);
    case _ =>
  }

  /** Parsing for lack of bytes stops within the first frame it has not read. */
  lemma {:induction false} RestWaits(file: seq<byte>, pos: nat, s: seq<byte>)
    ensures var p := Parse(file, pos, s); p.stop == More ==> FrontOf(file, p.pos, p.rest).Wait?
    decreases |s|
  {
    match FrontOf(file, pos, s)
    case Frame(text, at, length) => RestWaits(file, at, s[length..]);
    case _ =>
  }

  /** An incomplete frame is shorter than the frame that more bytes make of it. */
  lemma WaitingIsShort(file: seq<byte>, pos: nat, s: seq<byte>, more: seq<byte>)
    requires FrontOf(file, pos, s).Wait? && FrontOf(file, pos, s + more).Frame?
    ensures |s| < FrontOf(file, pos, s + more).length
  {
    if |s| >= HEADER_SIZE {
      SameHeader(s, more);
    }
  }

  lemma FrontOfPush<T>(front: seq<T>, back: seq<T>, all: seq<T>, last: T)
    requires front + back == all + [last]
    ensures |front| <= |all| ==> all == front + all[|front|..] && back == all[|front|..] + [last]
    ensures |front| > |all| ==> front == all + [last]
  {
    assert front == (all + [last])[..|front|] && back == (all + [last])[|front|..];
  }

  /** A front of `texts + [payload]` that is not `texts`, nor longer, leaves out some of `texts`. */
  lemma ShortFront(front: seq<seq<byte>>, back: seq<seq<byte>>, texts: seq<seq<byte>>, payload: seq<byte>)
    requires front + back == texts + [payload] && front != texts
    requires FramesLength(front) <= FramesLength(texts)
    ensures back != []
    ensures FramesLength(front) + HEADER_SIZE + |back[0]| <= FramesLength(texts)
  {
    FrontOfPush(front, back, texts, payload);
    if |front| > |texts| {
      FramesLengthJoin(texts, [payload]);
    } else {
      var missing := texts[|front|..];
      FramesLengthJoin(front, missing);
      assert missing != [] && back[0] == missing[0];
    }
  }

  /** Bytes that lack some of the texts, and do not exceed the frames of all of them, do not come to
      read as all of them and one more by adding the frame of that one. */
  lemma GapStays(copy: seq<byte>, pos: nat, gone: seq<byte>, frame: seq<byte>,
                 texts: seq<seq<byte>>, payload: seq<byte>)
    requires |gone| <= FramesLength(texts) && |frame| == HEADER_SIZE + |payload|
    requires Parse(copy, pos, gone).texts != texts
    ensures Parse(copy, pos, gone + frame).texts != texts + [payload]
  {
    var p := Parse(copy, pos, gone);
    ParsedLength(copy, pos, gone);
    ParsedLength(copy, pos, gone + frame);
    FramesLengthJoin(texts, [payload]);
    ParseAppend(copy, pos, gone, frame);
    if p.stop == More && Parse(copy, pos, gone + frame).texts == texts + [payload] {
      var t := Parse(copy, p.pos, p.rest + frame);
      ShortFront(p.texts, t.texts, texts, payload);
      RestWaits(copy, pos, gone);
      FirstText(copy, p.pos, p.rest + frame);
      FrontLength(copy, p.pos, p.rest + frame);
      WaitingIsShort(copy, p.pos, p.rest, frame);
    }
  }

  /** A new send drops what is left unsent of the frame before it. So, with `gone` the bytes already
      out and `unsent` the rest of the stream, and whatever is said before: a copy of the key reads
      all earlier lines and the new one exactly when it would have read all earlier ones, nothing was
      left unsent, the new payload is not empty and of a size that fits, and there is key for it. */
  lemma NewFrameArrivesIff(k: KeyState, texts: seq<seq<byte>>, gone: seq<byte>, unsent: seq<byte>,
                           payload: seq<byte>, copy: seq<byte>, pos: nat)
    requires Coherent(k) && SamePad(k.stream.bytes, copy)
    requires |gone + unsent| <= FramesLength(texts)
    ensures Parse(copy, pos, gone + BeginFrame(k, payload).frame).texts == texts + [payload]
       <==> && Parse(copy, pos, gone + unsent).texts == texts
            && unsent == [] && 1 <= |payload| < TWO32 && Enough(k, |payload|)
  {
    var frame, p := BeginFrame(k, payload).frame, Parse(copy, pos, gone);
    ParsedLength(copy, pos, gone);
    assert unsent == [] ==> gone + unsent == gone;
    if p.texts != texts {
      GapStays(copy, pos, gone, frame, texts, payload);
    } else {
      assert unsent == [] && p.rest == [];
      StopLeavesRest(copy, pos, gone);
      ParseAppend(copy, pos, gone, frame);
      assert p.rest + frame == frame;
      LastTextIs(k, payload, copy, p.pos);
      SameFront(texts, Parse(copy, p.pos, frame).texts, [payload]);
    }
  }

  lemma LastTextIs(k: KeyState, payload: seq<byte>, copy: seq<byte>, pos: nat)
    requires Coherent(k) && SamePad(k.stream.bytes, copy)
    ensures Parse(copy, pos, BeginFrame(k, payload).frame).texts == [payload]
       <==> 1 <= |payload| < TWO32 && Enough(k, |payload|)
  {
    if 1 <= |payload| < TWO32 && Enough(k, |payload|) {
      FrameParses(k, payload, copy, pos);
    } else {
      BadFrameDiffers(k, payload, copy, pos);
    }
  }

  lemma SameFront<T>(a: seq<T>, b: seq<T>, c: seq<T>)
    ensures a + b == a + c <==> b == c
  {
    if a + b == a + c {
      assert (a + b)[|a|..] == b && (a + c)[|a|..] == c;
    }
  }

  /** What has been parsed of a part of a stream that carries `texts`: a prefix of them, without a
      stop, and all of them exactly when no byte is missing. */
  lemma ParsedPrefix(copy: seq<byte>, pos: nat, taken: seq<byte>, missing: seq<byte>, texts: seq<seq<byte>>)
    requires |taken + missing| <= FramesLength(texts)
    requires Parse(copy, pos, taken + missing).texts == texts
    ensures Parse(copy, pos, taken).texts <= texts
    ensures Parse(copy, pos, taken).stop == More
  {
    ParseAppend(copy, pos, taken, missing);
    ParsedLength(copy, pos, taken + missing);
    StopLeavesRest(copy, pos, taken + missing);
  }

  // ----- Streams that end early

  /** What is read of a stream is a prefix of `texts`, and either all of them with nothing behind, or
      reading has stopped for good. */
  predicate Halted(p: Parsed, texts: seq<seq<byte>>) {
    p.texts <= texts && (p.stop != More || (p.texts == texts && p.rest == []))
  }

  /** A frame of size zero, or one begun without enough key, stops whoever reads it. */
  lemma BadFrameHalts(k: KeyState, payload: seq<byte>, copy: seq<byte>, pos: nat)
    requires Coherent(k) && SamePad(k.stream.bytes, copy)
    requires |payload| < TWO32 && !(1 <= |payload| && Enough(k, |payload|))
    ensures var p := Parse(copy, pos, BeginFrame(k, payload).frame); p.texts == [] && p.stop != More
  {
    FrameFields(k, payload);
    FieldsHalt(k, payload, BeginFrame(k, payload).frame, copy, pos);
  }

  /** Adding a frame to such a stream gives such a stream for one more text. */
  lemma HaltedNext(k: KeyState, payload: seq<byte>, gone: seq<byte>, texts: seq<seq<byte>>, copy: seq<byte>, pos: nat)
    requires Coherent(k) && SamePad(k.stream.bytes, copy) && |payload| < TWO32
    requires Halted(Parse(copy, pos, gone), texts)
    ensures Halted(Parse(copy, pos, gone + BeginFrame(k, payload).frame), texts + [payload])
  {
    var frame, p := BeginFrame(k, payload).frame, Parse(copy, pos, gone);
    ParseAppend(copy, pos, gone, frame);
    if p.stop == More {
      assert p.rest + frame == frame;
      if 1 <= |payload| && Enough(k, |payload|) {
        FrameParses(k, payload, copy, p.pos);
      } else {
        BadFrameHalts(k, payload, copy, p.pos);
        assert texts + [] == texts;
      }
    }
  }

  /** A part of such a stream reads as a prefix of the texts. */
  lemma HaltedPart(copy: seq<byte>, pos: nat, taken: seq<byte>, missing: seq<byte>, texts: seq<seq<byte>>)
    requires Halted(Parse(copy, pos, taken + missing), texts)
    ensures Parse(copy, pos, taken).texts <= texts
  {
    ParseAppend(copy, pos, taken, missing);
  }

  lemma MaskParts(pad: seq<byte>, a: seq<byte>, i: nat, end: seq<byte>)
    requires |pad| == |a| && i <= |a| && |end| == |a| - i
    ensures Mask(pad, a[..i] + Mask(pad[i..], end)) == Mask(pad, a)[..i] + end
  {
    var text := a[..i] + Mask(pad[i..], end);
    forall j | 0 <= j < |a|
      ensures Mask(pad, text)[j] == (Mask(pad, a)[..i] + end)[j]
    {
      if j >= i {
        XorCancels(pad[j], end[j - i]);
        assert text[j] == Xor(pad[j], end[j - i]);
      }
    }
  }

  lemma CutHeader(frame: seq<byte>, n: nat, other: seq<byte>)
    requires HEADER_SIZE <= n <= |frame|
    ensures FrameSize(frame[..n] + other) == FrameSize(frame) && FrameHead(frame[..n] + other) == FrameHead(frame)
  {
    assert frame == frame[..n] + frame[n..];
    SameHeader(frame[..n], frame[n..]);
    SameHeader(frame[..n], other);
  }

  /** As long as the missing bytes are not complete, a reader shows nothing. */
  lemma CutWaits(frame: seq<byte>, n: nat, other: seq<byte>, copy: seq<byte>, pos: nat)
    requires HEADER_SIZE <= n < |frame| == HEADER_SIZE + FrameSize(frame) && |other| < |frame| - n
    ensures Parse(copy, pos, frame[..n] + other) == Parsed([], pos, frame[..n] + other, More)
  {
    CutHeader(frame, n, other);
    assert FrontOf(copy, pos, frame[..n] + other).Wait?;
  }

  /** The text that comes out when `end` takes the place of the frame's bytes from `n` on: the text
      sent as far as it went out, and then `end` under the rest of the pad. */
  function CutShort(k: KeyState, a: seq<byte>, n: nat, end: seq<byte>): (text: seq<byte>)
    requires Coherent(k) && Enough(k, |a|) && HEADER_SIZE <= n && n + |end| == HEADER_SIZE + |a|
    ensures |text| == |a|
  {
    a[..n - HEADER_SIZE] + Mask(ReadAt(k.stream.bytes, k.stream.pos, |a|)[n - HEADER_SIZE..], end)
  }

  lemma CutBody(k: KeyState, a: seq<byte>, n: nat, end: seq<byte>)
    requires Coherent(k) && Enough(k, |a|) && HEADER_SIZE <= n && n + |end| == HEADER_SIZE + |a|
    ensures Encrypt(k, CutShort(k, a, n, end)).text == Encrypt(k, a).text[..n - HEADER_SIZE] + end
    ensures !Encrypt(k, a).failed
  {
    MaskParts(ReadAt(k.stream.bytes, k.stream.pos, |a|), a, n - HEADER_SIZE, end);
  }

  lemma CutJoin(header: seq<byte>, body: seq<byte>, n: nat, end: seq<byte>)
    requires |header| <= n <= |header| + |body|
    ensures header + (body[..n - |header|] + end) == (header + body)[..n] + end
    ensures (header + body)[n..] == body[n - |header|..]
  {
  }

  /** One pad masks different texts differently. */
  lemma SameTextIff(k: KeyState, a: seq<byte>, b: seq<byte>)
    requires |a| == |b| && !Encrypt(k, a).failed
    ensures Encrypt(k, a).text == Encrypt(k, b).text <==> a == b
  {
    var pad := ReadAt(k.stream.bytes, k.stream.pos, |a|);
    MaskCancels(pad, a);
    MaskCancels(pad, b);
  }

  lemma SameEnd(body: seq<byte>, i: nat, end: seq<byte>)
    requires i <= |body|
    ensures body[..i] + end == body <==> end == body[i..]
  {
    assert body == body[..i] + body[i..];
    SameFront(body[..i], end, body[i..]);
  }

  lemma CutTextIs(k: KeyState, a: seq<byte>, n: nat, end: seq<byte>)
    requires Coherent(k) && Enough(k, |a|) && HEADER_SIZE <= n && n + |end| == HEADER_SIZE + |a|
    ensures CutShort(k, a, n, end) == a <==> end == Encrypt(k, a).text[n - HEADER_SIZE..]
  {
    var text, body := CutShort(k, a, n, end), Encrypt(k, a).text;
    CutBody(k, a, n, end);
    assert Encrypt(k, text).text == body <==> text == a by {
      SameTextIff(k, a, text);
    }
    SameEnd(body, n - HEADER_SIZE, end);
  }

  /** When `end` follows the first `n` bytes of the frame of `a`, its header among them, instead of the
      bytes that are missing, it is as if another text had been sent: one of the same length, which is
      `a` exactly when `end` is what was missing. */
  lemma CutFrame(k: KeyState, a: seq<byte>, n: nat, end: seq<byte>)
    requires Coherent(k) && Enough(k, |a|) && HEADER_SIZE <= n && n + |end| == HEADER_SIZE + |a|
    ensures BeginFrame(k, CutShort(k, a, n, end)).frame == BeginFrame(k, a).frame[..n] + end
    ensures CutShort(k, a, n, end) == a <==> end == BeginFrame(k, a).frame[n..]
  {
    CutBody(k, a, n, end);
    CutTextIs(k, a, n, end);
    CutJoin(Header(|a|, k.head), Encrypt(k, a).text, n, end);
  }

  /** The texts a reader shows of a stream. */
  function Shows(copy: seq<byte>, pos: nat, s: seq<byte>): seq<seq<byte>> {
    Parse(copy, pos, s).texts
  }

  lemma FrontThenRest(copy: seq<byte>, pos: nat, frame: seq<byte>, rest: seq<byte>, text: seq<byte>, at: nat)
    requires FrontOf(copy, pos, frame) == Frame(text, at, |frame|)
    ensures Shows(copy, pos, frame + rest) == [text] + Shows(copy, at, rest)
  {
    FrontAppend(copy, pos, frame, rest);
    assert (frame + rest)[|frame|..] == rest;
  }

  lemma SentThenRest(k: KeyState, text: seq<byte>, rest: seq<byte>, copy: seq<byte>, pos: nat, at: nat)
    requires Coherent(k) && SamePad(k.stream.bytes, copy) && 1 <= |text| < TWO32 && Enough(k, |text|)
    requires at == k.head + DATA_OFFSET + |text|
    ensures Shows(copy, pos, BeginFrame(k, text).frame + rest) == [text] + Shows(copy, at, rest)
  {
    var frame := BeginFrame(k, text).frame;
    FrameFields(k, text);
    FieldsFront(k, text, frame, copy, pos);
    FrontThenRest(copy, pos, frame, rest, text, at);
  }

  /** When `end` and `rest` follow the first `n` bytes of the frame of `a`, its header among them, and
      `end` is as long as what is missing: the reader takes it for the end of the text, shows that as
      `shown`, and reads on behind it, with the pad from `at` on. */
  lemma PartlySent(k: KeyState, a: seq<byte>, frame: seq<byte>, n: nat, end: seq<byte>, rest: seq<byte>,
                   copy: seq<byte>, pos: nat, shown: seq<byte>, at: nat)
    requires Coherent(k) && SamePad(k.stream.bytes, copy) && Enough(k, |a|) && 1 <= |a| < TWO32
    requires frame == BeginFrame(k, a).frame && HEADER_SIZE <= n && n + |end| == |frame|
    requires shown == CutShort(k, a, n, end) && at == k.head + DATA_OFFSET + |a|
    ensures Shows(copy, pos, frame[..n] + end + rest) == [shown] + Shows(copy, at, rest)
    ensures shown == a <==> end == frame[n..]
  {
    CutFrame(k, a, n, end);
    SentThenRest(k, shown, rest, copy, pos, at);
  }

  /** A part of a stream no longer than the frames of `texts` reads as `texts` exactly when it is the
      whole stream and that does. */
  lemma ParsedAllIff(copy: seq<byte>, pos: nat, taken: seq<byte>, missing: seq<byte>, texts: seq<seq<byte>>)
    requires |taken + missing| <= FramesLength(texts)
    ensures Parse(copy, pos, taken).texts == texts
       <==> missing == [] && Parse(copy, pos, taken + missing).texts == texts
  {
    ParsedLength(copy, pos, taken);
    assert missing == [] ==> taken + missing == taken;
  }

  // ----- Closing, reopening and creating key files

  predicate KeyFile(file: seq<byte>) {
    DATA_OFFSET <= |file| < TWO63 && file[..HEAD_OFFSET] == MAGIC
  }

  function SavedHead(file: seq<byte>): uint64
    requires KeyFile(file)
  {
    LittleEndianOnto(file[HEAD_OFFSET..ID_OFFSET]);
    Widths();
    FromLittleEndian(file[HEAD_OFFSET..ID_OFFSET])
  }

  /** A key file opens at its saved head, coherently, exactly when that head's offset fits a `long`. */
  lemma OpenCoherent(file: seq<byte>)
    requires KeyFile(file)
    ensures (Open(file).Some? && Coherent(Open(file).value)) <==> SavedHead(file) + DATA_OFFSET < TWO63
    ensures Open(file).Some? ==> Open(file).value.head == SavedHead(file) && Open(file).value.stream.bytes == file
  {
  }

  /** A close rewrites the eight head bytes and nothing else. */
  lemma CloseWritesHead(k: KeyState)
    requires KeyFile(k.stream.bytes)
    ensures var file, disk := k.stream.bytes, Close(k);
      && KeyFile(disk) && SamePad(file, disk)
      && disk[..HEAD_OFFSET] == file[..HEAD_OFFSET]
      && disk[ID_OFFSET..] == file[ID_OFFSET..]
      && SavedHead(disk) == k.head
  {
    var file, disk, head := k.stream.bytes, Close(k), LittleEndian(8, k.head);
    assert disk == file[..HEAD_OFFSET] + head + file[ID_OFFSET..];
    assert disk[HEAD_OFFSET..ID_OFFSET] == head;
    assert disk[ID_OFFSET..] == file[ID_OFFSET..];
    assert disk[DATA_OFFSET..] == disk[ID_OFFSET..][16..] && file[DATA_OFFSET..] == file[ID_OFFSET..][16..];
    LittleEndianRoundTrip(8, k.head);
    Widths();
  }

  /** Reopening after a close gives the key with its head, id and size, at the position of that head;
      or nothing, when a received header has moved the head where no position is. So the key comes
      back as it was exactly when it stood at the position of its head. */
  lemma CloseThenOpen(k: KeyState)
    requires KeyFile(k.stream.bytes)
    requires k.size == |k.stream.bytes| - DATA_OFFSET && k.id == k.stream.bytes[ID_OFFSET..DATA_OFFSET]
    ensures Open(Close(k)).Some? <==> k.head + DATA_OFFSET < TWO63 || k.head + DATA_OFFSET >= TWO64
    ensures Open(Close(k)).Some? ==> Open(Close(k)).value == k.(stream := Open(Close(k)).value.stream)
    ensures Open(Close(k)) == Some(k.(stream := Stream(Close(k), k.stream.pos)))
       <==> Position(k.head) == Some(k.stream.pos)
    ensures Coherent(k) ==> Position(k.head) == Some(k.stream.pos)
  {
    CloseWritesHead(k);
    var file, disk := k.stream.bytes, Close(k);
    assert disk[ID_OFFSET..DATA_OFFSET] == disk[ID_OFFSET..][..16];
    assert file[ID_OFFSET..DATA_OFFSET] == file[ID_OFFSET..][..16];
  }

  /** A created key file, closed and opened again, is the same key with its head at zero. */
  lemma CreateThenOpen(id: seq<byte>, data: seq<byte>)
    requires |id| == 16 && |data| + DATA_OFFSET < TWO63
    ensures var k := KeyState(Stream(NewFile(id, data), DATA_OFFSET), |data|, id, 0);
      && KeyFile(NewFile(id, data)) && SavedHead(NewFile(id, data)) == 0
      && Close(k) == NewFile(id, data) && Open(Close(k)) == Some(k) && Close(k)[DATA_OFFSET..] == data
  {
    var file := NewFile(id, data);
    var k := KeyState(Stream(file, DATA_OFFSET), |data|, id, 0);
    assert file[..HEAD_OFFSET] == MAGIC;
    assert file[HEAD_OFFSET..ID_OFFSET] == LittleEndian(8, 0);
    assert file[ID_OFFSET..DATA_OFFSET] == id;
    assert file[DATA_OFFSET..] == data;
    CloseThenOpen(k);
    assert Close(k) == file;
  }

  /** All that the random source offers, in order. */
  function Offered(supply: seq<Draw>): seq<byte> {
    if supply == [] then [] else supply[0].bytes + Offered(supply[1..])
  }

  /** However the random source cuts its bytes into reads, as long as none is empty and the file takes
      each, the fill loop of `key_create` succeeds exactly when there are enough bytes, and then writes
      the first `need` of them, in order. */
  lemma {:induction false} FillTakes(supply: seq<Draw>, need: nat)
    requires forall i :: 0 <= i < |supply| ==> 0 < |supply[i].bytes| <= BUFFER_SIZE && supply[i].stored
    ensures Fill(supply, need).Some? <==> |Offered(supply)| >= need
    ensures Fill(supply, need).Some? ==> Fill(supply, need).value == Offered(supply)[..need]
  {
    if need > 0 && supply != [] {
      var first := supply[0].bytes;
      var chunk := first[..Min(|first|, need)];
      FillTakes(supply[1..], need - |chunk|);
      if |first| < need {
        assert chunk == first;
      } else {
        assert Fill(supply, need).value == chunk + [];
      }
    }
  }

  /** A read that yields nothing, or a write that fails, while bytes are still needed fails the
      creation. */
  lemma {:induction false} FillFails(supply: seq<Draw>, need: nat, bad: nat)
    requires bad < |supply| && (supply[bad].bytes == [] || !supply[bad].stored)
    requires |Offered(supply[..bad])| < need
    ensures Fill(supply, need).None?
  {
    if bad > 0 && supply[0].bytes != [] {
      assert supply[..bad][1..] == supply[1..][..bad - 1];
      var chunk := supply[0].bytes[..Min(|supply[0].bytes|, Min(BUFFER_SIZE, need))];
      FillFails(supply[1..], need - |chunk|, bad - 1);
    }
  }
}
