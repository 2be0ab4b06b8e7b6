/** One side of a connection: the fields of `struct chat_state` that carry messages, and what the
    handlers of src/chat.c do to them, as functions of values. */
module Endpoints {
  import opened Bytes
  import opened Keys
  import opened Frames

  datatype Author = Status | Local | Remote
  datatype Message = Message(author: Author, text: seq<byte>)

  const OUT_OF_LOCAL_KEY := Message(Status, Ascii("Out of local key data!"))
  const OUT_OF_REMOTE_KEY := Message(Status, Ascii("Out of remote key data!"))

  /** `sending` is empty when there is no frame to send, and otherwise the frame of which `sent`
      bytes are already gone. */
  datatype Endpoint = Endpoint(
    local: KeyState, remote: KeyState,
    sending: seq<byte>, sent: nat,
    buffer: Buffer,
    history: seq<Message>)

  predicate WellFormed(e: Endpoint) {
    && WellSized(e.buffer) && Room(e.buffer) >= 0
    && (if e.sending == [] then e.sent == 0 else e.sent < |e.sending|)
  }

  function Unsent(e: Endpoint): seq<byte> {
    e.sending[Min(e.sent, |e.sending|)..]
  }

  /** `chat_begin_send`. */
  function BeginSend(e: Endpoint, payload: seq<byte>): Endpoint {
    var out := BeginFrame(e.local, payload);
    e.(local := out.key, sending := out.frame, sent := 0,
       history := e.history + if out.failed then [OUT_OF_LOCAL_KEY] else [])
  }

  /** A line typed by the user while connected: shown, then sent. */
  function Say(e: Endpoint, payload: seq<byte>): Endpoint {
    BeginSend(e.(history := e.history + [Message(Local, payload)]), payload)
  }

  /** `chat_handle_send` when the socket takes `n` bytes. */
  function Flush(e: Endpoint, n: nat): (r: Endpoint)
    requires WellFormed(e) && n <= |Unsent(e)|
    ensures WellFormed(r) && Unsent(r) == Unsent(e)[n..]
  {
    if e.sending == [] then e
    else if e.sent + n == |e.sending| then e.(sending := [], sent := 0)
    else e.(sent := e.sent + n)
  }

  function Shown(ev: Event): seq<Message> {
    match ev
    case Text(text) => [Message(Remote, text)]
    case OutOfKey => [OUT_OF_REMOTE_KEY]
    case _ => []
  }

  /** `chat_handle_recv` when the socket hands over `chunk`. */
  function Take(e: Endpoint, chunk: seq<byte>): (r: Endpoint)
    requires WellFormed(e) && |chunk| <= Room(e.buffer)
    ensures WellFormed(r)
  {
    var x := Receive(e.buffer, e.remote, chunk);
    e.(buffer := x.buffer, remote := x.key, history := e.history + Shown(x.event))
  }

  /** The texts of one author, in order. */
  function Texts(history: seq<Message>, author: Author): seq<seq<byte>> {
    if history == [] then []
    else
      var last := history[|history| - 1];
      Texts(history[..|history| - 1], author) + if last.author == author then [last.text] else []
  }

  lemma TextsPush(history: seq<Message>, m: Message, author: Author)
    ensures Texts(history + [m], author)
         == Texts(history, author) + if m.author == author then [m.text] else []
  {
    assert (history + [m])[..|history|] == history;
  }

  /** A line is shown, and a status line exactly when the key runs out. */
  lemma SayTexts(e: Endpoint, payload: seq<byte>)
    ensures Texts(Say(e, payload).history, Local) == Texts(e.history, Local) + [payload]
    ensures Texts(Say(e, payload).history, Remote) == Texts(e.history, Remote)
    ensures Texts(Say(e, payload).history, Status) == Texts(e.history, Status)
         + if BeginFrame(e.local, payload).failed then [OUT_OF_LOCAL_KEY.text] else []
  {
    SayTextsOf(e, payload, Local);
    SayTextsOf(e, payload, Remote);
    SayTextsOf(e, payload, Status);
  }

  lemma SayTextsOf(e: Endpoint, payload: seq<byte>, author: Author)
    ensures Texts(Say(e, payload).history, author) == Texts(e.history, author)
         + if author == Local then [payload]
           else if author == Status && BeginFrame(e.local, payload).failed then [OUT_OF_LOCAL_KEY.text] else []
  {
    var h := e.history + [Message(Local, payload)];
    TextsPush(e.history, Message(Local, payload), author);
    if BeginFrame(e.local, payload).failed {
      TextsPush(h, OUT_OF_LOCAL_KEY, author);
    } else {
      assert h + [] == h;
    }
  }

  /** So are received texts. */
  lemma TakeTexts(e: Endpoint, chunk: seq<byte>)
    requires WellFormed(e) && |chunk| <= Room(e.buffer)
    ensures Texts(Take(e, chunk).history, Local) == Texts(e.history, Local)
    ensures Texts(Take(e, chunk).history, Remote)
         == Texts(e.history, Remote) + TextsOf(Receive(e.buffer, e.remote, chunk).event)
    ensures Texts(Take(e, chunk).history, Status) == Texts(e.history, Status)
         + if Receive(e.buffer, e.remote, chunk).event.OutOfKey? then [OUT_OF_REMOTE_KEY.text] else []
  {
    var shown := Shown(Receive(e.buffer, e.remote, chunk).event);
    if shown == [] {
      assert e.history + shown == e.history;
    } else {
      assert shown == [shown[0]];
      TextsPush(e.history, shown[0], Local);
      TextsPush(e.history, shown[0], Remote);
      TextsPush(e.history, shown[0], Status);
    }
  }
}
