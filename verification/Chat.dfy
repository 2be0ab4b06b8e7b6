/** `struct chat_state` and its message handlers: src/chat.c. */
module Chat {
  import opened Bytes
  import opened Keys
  import opened Frames
  import opened Endpoints
  import opened Nodes
  import opened Scroll
  import opened Users

  /** How many bytes a receive gets that has room for `room` of the `available` ones. */
  function Taken(io: IO, room: int, available: nat): int {
    if io.Ready? then Min(io.n, Min(room, available)) else 0
  }

  /** A view that is shown at most one more message. */
  function Showing(p: Pane, shown: seq<Message>, s: Screen): Pane
    requires p.width > 0 && s.cols >= 2 && |shown| <= 1
  {
    if shown == [] then p else Push(p, shown[0], s)
  }

  /** The frame of a message in a new buffer: header and payload, the payload encrypted in place. */
  method BuildFrame(key: Key, payload: seq<byte>) returns (frame: array<byte>, failed: bool)
    requires key.stream.Some?
    modifies key
    ensures fresh(frame) && key.stream.Some?
    ensures key.State() == BeginFrame(old(key.State()), payload).key
    ensures frame[..] == BeginFrame(old(key.State()), payload).frame
    ensures failed == BeginFrame(old(key.State()), payload).failed
  {
    var header := Header(|payload|, key.head);
    frame := new byte[|payload| + HEADER_SIZE];
    forall i | 0 <= i < frame.Length {
      frame[i] := if i < HEADER_SIZE then header[i] else payload[i - HEADER_SIZE];
    }
    assert frame[..HEADER_SIZE] == header && frame[HEADER_SIZE..] == payload;
    failed := key.EncryptInPlace(frame, HEADER_SIZE);
  }

  class ChatState {
    const keys: KeyStore
    const remote: User
    const listener: Node
    const view: HistoryView
    var sending: array<byte>
    var sentSize: nat
    var receiving: array<byte>
    var receivedSize: nat
    var running: bool

    ghost predicate Valid()
      reads this, keys, keys.local, keys.remotes, remote, view
    {
      && keys.Valid() && remote.Keyed(keys) && view.Valid()
      && listener != remote.node && sending != receiving
      && (if sending.Length == 0 then sentSize == 0 else sentSize < sending.Length)
      && receivedSize <= receiving.Length && (receiving.Length == 0 || receiving.Length >= HEADER_SIZE)
      && (receiving.Length == 0 ==> receivedSize == 0)
    }

    /** The state as the two-party model sees it. */
    ghost function Side(): (e: Endpoint)
      requires Valid() && remote.key != null
      reads this, keys, keys.local, keys.remotes, remote, view, sending, receiving
      ensures WellFormed(e) && e.buffer == Received()
    {
      Endpoint(keys.local.State(), remote.key.State(), sending[..], sentSize,
               Buffer(receiving[..receivedSize], receiving.Length), view.history)
    }

    constructor (keys: KeyStore, node: Node, listener: Node, screen: Screen)
      requires keys.Valid() && node != listener && screen.cols >= 2
      ensures Valid() && this.keys == keys && remote.node == node && remote.state == NOT_CONNECTED
      ensures this.listener == listener && running && sending.Length == 0 && Received() == EMPTY
      ensures view.screen == screen && view.State() == Layout(Pane([], 0, screen.cols, 0), screen)
      ensures fresh(remote) && fresh(view) && fresh(sending) && fresh(receiving)
    {
      this.keys, this.listener := keys, listener;
      remote := new User(node);
      view := new HistoryView(screen);
      sending, sentSize := new byte[0], 0;
      receiving, receivedSize := new byte[0], 0;
      running := true;
    }

    method PushStatus(text: seq<byte>)
      requires Valid()
      modifies view
      ensures Valid() && view.history == old(view.history) + [Message(Status, text)]
      ensures view.screen == old(view.screen)
      ensures view.State() == Push(old(view.State()), Message(Status, text), view.screen)
    {
      view.PushMessage(Message(Status, text));
    }

    /** Shows `m` if something failed. */
    method ReportIf(failed: bool, m: Message)
      requires view.Valid()
      modifies view
      ensures view.Valid() && view.history == old(view.history) + if failed then [m] else []
      ensures view.screen == old(view.screen)
      ensures view.State() == Showing(old(view.State()), if failed then [m] else [], view.screen)
    {
      if failed {
        view.PushMessage(m);
      }
    }

    /** `chat_begin_send`. */
    method BeginSend(payload: seq<byte>) returns (failed: bool)
      requires Valid()
      modifies this`sending, this`sentSize, keys.local, view
      ensures Valid() && fresh(sending)
      ensures remote.key != null ==> Side() == Endpoints.BeginSend(old(Side()), payload)
      ensures sentSize == 0 && sending[..] == BeginFrame(old(keys.local.State()), payload).frame
      ensures failed == BeginFrame(old(keys.local.State()), payload).failed
      ensures view.screen == old(view.screen)
      ensures view.State() == Showing(old(view.State()), if failed then [OUT_OF_LOCAL_KEY] else [], view.screen)
    {
      sentSize := 0;
      sending, failed := BuildFrame(keys.local, payload);
      ReportIf(failed, OUT_OF_LOCAL_KEY);
    }

    /** `chat_handle_send`; `n` is how many bytes the socket took. */
    method HandleSend(io: IO) returns (n: nat)
      requires Valid()
      modifies this`sending, this`sentSize, remote.node`socket, remote.node`wire
      ensures Valid() && (sending == old(sending) || fresh(sending))
      ensures n == if io.Ready? then Min(io.n, |old(sending[sentSize..])|) else 0
      ensures remote.node.socket == if old(sending.Length) > 0 && io.Error? then -1 else old(remote.node.socket)
      ensures remote.node.wire == old(remote.node.wire) + old(sending[sentSize..])[..n]
      ensures remote.key != null ==> Side() == Flush(old(Side()), n)
    {
      if sending.Length == 0 {
        assert remote.node.wire == remote.node.wire + sending[sentSize..][..0];
        return 0;
      }
      n := remote.node.Send(sending[sentSize..], io);
      MarkSent(n);
    }

    /** Counts `n` more bytes of the frame as sent, and frees it when they are all. */
    method MarkSent(n: nat)
      requires Valid() && 0 < sending.Length && n <= sending.Length - sentSize
      modifies this`sending, this`sentSize
      ensures Valid() && (sending == old(sending) || fresh(sending))
      ensures remote.key != null ==> Side() == Flush(old(Side()), n)
    {
      sentSize := sentSize + n;
      if sentSize == sending.Length {
        sending := new byte[0];
        sentSize := 0;
      }
    }

    /** The receive buffer as the model sees it. */
    function Received(): Buffer
      requires receivedSize <= receiving.Length
      reads this, receiving
    {
      Buffer(receiving[..receivedSize], receiving.Length)
    }

    /** Puts received bytes behind those already there. */
    method Store(chunk: seq<byte>)
      requires receivedSize + |chunk| <= receiving.Length
      modifies this`receivedSize, receiving
      ensures receivedSize == old(receivedSize) + |chunk| && receivedSize <= receiving.Length
      ensures Received() == Buffer(old(Received()).got + chunk, receiving.Length)
    {
      ghost var got := receiving[..receivedSize];
      forall i | 0 <= i < |chunk| {
        receiving[receivedSize + i] := chunk[i];
      }
      receivedSize := receivedSize + |chunk|;
      assert receiving[..receivedSize] == got + chunk;
    }

    /** With the header complete: seeks the remote key and makes room for the payload. */
    method ReadHeader(key: Key)
      requires receivedSize == receiving.Length == HEADER_SIZE && key.stream.Some?
      modifies this`receiving, key
      ensures fresh(receiving) && receivedSize <= receiving.Length && key.stream.Some?
      ensures var got := old(Received()).got;
        && Received() == Buffer(got, HEADER_SIZE + FrameSize(got))
        && key.State() == Seek(old(key.State()), FrameHead(got))
    {
      var header := receiving[..];
      assert header == old(Received()).got;
      key.SeekHead(FrameHead(header));
      var grown := new byte[HEADER_SIZE + FrameSize(header)];
      forall i | 0 <= i < HEADER_SIZE {
        grown[i] := receiving[i];
      }
      assert grown[..receivedSize] == header;
      receiving := grown;
    }

    /** `chat_handle_message`: shows the decrypted payload and frees the buffer. */
    method HandleMessage()
      requires Valid() && receiving.Length >= HEADER_SIZE && receivedSize == receiving.Length
      modifies this`receiving, this`receivedSize, view
      ensures Valid() && fresh(receiving) && Received() == EMPTY
      ensures view.history == old(view.history) + [Message(Remote, old(receiving[HEADER_SIZE..]))]
      ensures view.screen == old(view.screen)
      ensures view.State() == Push(old(view.State()), Message(Remote, old(receiving[HEADER_SIZE..])), view.screen)
    {
      view.PushMessage(Message(Remote, receiving[HEADER_SIZE..]));
      receiving, receivedSize := new byte[0], 0;
    }

    /** With the payload complete: decrypts it in place and shows it, if the key has bytes for it. */
    method ReadPayload(key: Key) returns (failed: bool)
      requires Valid() && receivedSize == receiving.Length && receiving.Length > HEADER_SIZE && key in keys.remotes
      modifies this`receiving, this`receivedSize, receiving, key, view
      ensures Valid() && (receiving == old(receiving) || fresh(receiving))
      ensures var c := Encrypt(old(key.State()), old(receiving[HEADER_SIZE..]));
        && failed == c.failed && key.State() == c.key
        && Received() == (if failed then old(Received()) else EMPTY)
        && view.history == old(view.history) + [if failed then OUT_OF_REMOTE_KEY else Message(Remote, c.text)]
        && view.screen == old(view.screen)
        && view.State() == Push(old(view.State()), if failed then OUT_OF_REMOTE_KEY else Message(Remote, c.text),
                                view.screen)
    {
      failed := key.EncryptInPlace(receiving, HEADER_SIZE);
      if failed {
        view.PushMessage(OUT_OF_REMOTE_KEY);
      } else {
        HandleMessage();
      }
    }

    /** With the buffer full: grows it after a header; after a payload, decrypts that in place and
        shows it, if the key has bytes for it. */
    method CompleteFrame(key: Key) returns (failed: bool)
      requires Valid() && receivedSize == receiving.Length && receiving.Length >= HEADER_SIZE && key in keys.remotes
      modifies this`receiving, this`receivedSize, receiving, key, view
      ensures Valid() && (receiving == old(receiving) || fresh(receiving))
      ensures var x := Complete(old(Received()), old(key.State()));
        && Received() == x.buffer && key.State() == x.key
        && view.history == old(view.history) + Shown(x.event)
        && view.screen == old(view.screen)
        && view.State() == Showing(old(view.State()), Shown(x.event), view.screen)
        && failed == x.event.OutOfKey?
    {
      if receiving.Length == HEADER_SIZE {
        ReadHeader(key);
        assert view.history == view.history + [];
        failed := false;
      } else {
        assert Received().got[HEADER_SIZE..] == receiving[HEADER_SIZE..];
        failed := ReadPayload(key);
      }
    }

    /** Asks the socket for as many bytes as the buffer has room for. */
    method FillBuffer(io: IO) returns (chunk: seq<byte>)
      requires Valid()
      modifies this`receiving, this`receivedSize, receiving, remote.node`socket, remote.node`incoming
      ensures Valid() && (receiving == old(receiving) || fresh(receiving))
      ensures old(remote.node.incoming) == chunk + remote.node.incoming
      ensures var b := Begin(old(Received()));
        |chunk| <= b.size - |b.got| && Received() == Buffer(b.got + chunk, b.size)
      ensures |chunk| == Taken(io, Room(old(Received())), |old(remote.node.incoming)|)
      ensures remote.node.socket == if chunk == [] then -1 else old(remote.node.socket)
    {
      if receiving.Length == 0 {
        receiving, receivedSize := new byte[HEADER_SIZE], 0;
      }
      chunk := remote.node.Recv(receiving.Length - receivedSize, io);
      Store(chunk);
    }

    /** `chat_handle_recv`; `chunk` is what the socket handed over. Without a key it must hand over
        nothing: the key is used as soon as a header is complete. */
    method HandleRecv(io: IO) returns (failed: bool, chunk: seq<byte>)
      requires Valid() && (remote.key == null ==> !io.Ready?)
      modifies this`receiving, this`receivedSize, receiving, remote.key, view
      modifies remote.node`socket, remote.node`incoming
      ensures Valid() && (receiving == old(receiving) || fresh(receiving))
      ensures old(remote.node.incoming) == chunk + remote.node.incoming
      ensures |chunk| == Taken(io, Room(old(Received())), |old(remote.node.incoming)|)
      ensures remote.node.socket == if chunk == [] then -1 else old(remote.node.socket)
      ensures if remote.key == null then Received() == Begin(old(Received())) && view.history == old(view.history)
              else |chunk| <= Room(old(Side()).buffer) && Side() == Take(old(Side()), chunk)
      ensures view.screen == old(view.screen)
      ensures remote.key != null ==>
        var event := Receive(old(Side()).buffer, old(Side()).remote, chunk).event;
          view.State() == Showing(old(view.State()), Shown(event), view.screen)
      ensures chunk == [] ==> unchanged(view) && (remote.key != null ==> unchanged(remote.key))
      ensures failed <==>
        (chunk == [] || (remote.key != null && Receive(old(Side()).buffer, old(Side()).remote, chunk).event.OutOfKey?))
    {
      chunk := FillBuffer(io);
      failed := chunk == [];
      if !failed && receivedSize == receiving.Length {
        failed := CompleteFrame(remote.key);
      } else {
        assert view.history == view.history + [];
        assert chunk == [] ==> Begin(old(Received())).got + chunk == Begin(old(Received())).got;
      }
    }

    /** A line typed while connected: shown, then sent. */
    method SayLine(payload: seq<byte>)
      requires Valid() && remote.key != null
      modifies this`sending, this`sentSize, keys.local, view
      ensures Valid() && fresh(sending)
      ensures Side() == Say(old(Side()), payload)
      ensures view.screen == old(view.screen)
      ensures var p := Push(old(view.State()), Message(Local, payload), view.screen);
        view.State() == Showing(p, if BeginFrame(old(keys.local.State()), payload).failed
                                   then [OUT_OF_LOCAL_KEY] else [], view.screen)
    {
      view.PushMessage(Message(Local, payload));
      var failed := BeginSend(payload);
    }
  }
}
