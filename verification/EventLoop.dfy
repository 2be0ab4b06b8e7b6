/** The event loop of src/chat.c around the connection state of src/user.c. */
module EventLoop {
  import opened Bytes
  import opened Keys
  import opened Frames
  import opened Endpoints
  import opened Nodes
  import opened Users
  import opened Chat
  import opened Commands
  import Connection
  import Scroll

  /** How `select` returns: interrupted by a signal, failed, or with descriptors that are ready. It
      reports none but those it was asked for. */
  datatype Selection = SelectInterrupted | SelectFailed | Reported(readable: set<int>, writable: set<int>)

  /** What the world does during one turn of the event loop: what `select` says, and how the calls on
      the ready sockets go. */
  datatype Events = Events(
    selection: Selection,
    recv: IO, send: IO,
    connectError: bool, handshake: seq<Turn>,
    accepted: Option<(int, seq<byte>)>,
    command: Command,
    remoteError: bool)

  predicate Plausible(ev: Events) {
    && (ev.accepted.Some? ==> ev.accepted.value.0 != -1)
    && (ev.command.Connect? && ev.command.opening.UnderWay? ==> ev.command.opening.socket != -1)
    && (ev.command.SendLine? ==> ev.command.payload != [])
  }

  /** Between turns of the loop, a user who is connecting or connected has a socket to watch. */
  predicate Watchable(l: Link) {
    l.state != NOT_CONNECTED ==> l.socket != -1
  }

  /** Within a turn, only a connected user may have just lost the socket. */
  predicate Dialing(l: Link) {
    l.state == CONNECTING ==> l.socket != -1
  }

  const JOINED := Message(Status, Ascii("Connected!"))
  const NOT_JOINED := Message(Status, Ascii("Connection failed"))
  const NOT_ACCEPTED := Message(Status, Ascii("Incoming connection failed"))
  const LOST := Message(Status, Ascii("Remote disconnected"))

  // ----- What a turn makes of a connected user

  /** What the sockets do to a connected user: whether the receive handler runs, what it receives, how
      many bytes are sent, and whether the socket gets closed. */
  datatype Passing = Passing(served: bool, chunk: seq<byte>, sent: nat, closed: bool)

  /** The receive handler closes the socket when it receives nothing; otherwise the sending handler
      runs if there is anything to send. */
  function Pass(e: Endpoint, incoming: seq<byte>, socket: int, ev: Events): (x: Passing)
    requires WellFormed(e) && ev.selection.Reported?
    ensures |x.chunk| <= Room(e.buffer) && x.chunk <= incoming && x.sent <= |Unsent(e)|
  {
    var served := socket in ev.selection.readable;
    var chunk := if served then incoming[..Taken(ev.recv, Room(e.buffer), |incoming|)] else [];
    var sending := !(served && chunk == []) && Unsent(e) != [] && socket in ev.selection.writable;
    Passing(served, chunk, if sending then Accepted(ev.send, |Unsent(e)|) else 0,
            (served && chunk == []) || (sending && ev.send.Error?))
  }

  /** How many of `available` bytes a socket takes. */
  function Accepted(io: IO, available: nat): nat {
    if io.Ready? then Min(io.n, available) else 0
  }

  function Heard(e: Endpoint, chunk: seq<byte>, reading: bool): (r: Endpoint)
    requires WellFormed(e) && |chunk| <= Room(e.buffer)
    ensures WellFormed(r) && Unsent(r) == Unsent(e)
  {
    if reading then Take(e, chunk) else e
  }

  /** The link after the sockets have been served. When the listening socket has the same number
      (`aliased`), it counts as ready, too, and accepting on it fails and drops the socket. */
  function Passed(socket: int, x: Passing, aliased: bool): Link {
    Link(CONNECTED, if x.closed || (x.served && aliased) then -1 else socket)
  }

  function Rejected(e: Endpoint, ready: bool): Endpoint {
    e.(history := e.history + if ready then [NOT_ACCEPTED] else [])
  }

  /** The endpoint then. */
  function Handled(e: Endpoint, x: Passing, aliased: bool): Endpoint
    requires WellFormed(e) && |x.chunk| <= Room(e.buffer) && x.sent <= |Unsent(e)|
  {
    Rejected(Flush(Heard(e, x.chunk, x.served), x.sent), x.served && aliased)
  }

  // ----- What it makes of any other user

  /** A socket error or a failing handshake end the attempt. */
  predicate Succeeds(known: seq<KeyState>, incoming: seq<byte>, ev: Events) {
    !ev.connectError && HandshakeCode(known, incoming, ev.handshake) == 0
  }

  /** A user who is connecting, once the socket is writable. */
  function Dialed(l: Link, known: seq<KeyState>, incoming: seq<byte>, ev: Events): Link {
    if Succeeds(known, incoming, ev) then Link(CONNECTED, l.socket) else Link(NOT_CONNECTED, -1)
  }

  /** A user without a connection, when the listening socket is ready. */
  function Welcomed(l: Link, aliased: bool, known: seq<KeyState>, ev: Events): Link {
    if aliased || ev.accepted.None? then Link(l.state, -1)
    else if ev.connectError then Link(l.state, ev.accepted.value.0)
    else if Succeeds(known, ev.accepted.value.1, ev) then Link(CONNECTED, ev.accepted.value.0)
    else Link(NOT_CONNECTED, -1)
  }

  /** What a waiting user is told. */
  function Answered(ready: bool, after: Link): seq<Message> {
    if !ready then [] else [if after.state == CONNECTED then JOINED else NOT_ACCEPTED]
  }

  /** The id in the peer's hello. */
  function PeerId(stream: seq<byte>): seq<byte>
    requires |stream| >= Connection.HELLO_SIZE
  {
    stream[8..Connection.HELLO_SIZE]
  }

  /** What a successful handshake writes. */
  function Introduced(id: seq<byte>): seq<byte> {
    Connection.HelloOf(id) + [1]
  }

  /** A user who has just been connected: the key is the stored one with the peer's id, and of the
      peer's stream exactly the 25 bytes of the handshake are gone. */
  ghost predicate Met(c: ChatState, known: seq<KeyState>, stream: seq<byte>, wire: seq<byte>)
    reads c.remote, c.remote.node, c.keys
  {
    && |known| == |c.keys.remotes| && |stream| >= Connection.HANDSHAKE_SIZE && Find(known, PeerId(stream)).Some?
    && c.remote.key == c.keys.remotes[Find(known, PeerId(stream)).value]
    && c.remote.node.incoming == stream[Connection.HANDSHAKE_SIZE..] && c.remote.node.wire == wire
  }

  /** The endpoint of a user just connected, by the peer's stream: with buffers as they were. */
  function Joined(known: seq<KeyState>, stream: seq<byte>, local: KeyState,
                  sending: seq<byte>, sent: nat, buffer: Buffer, history: seq<Message>): Endpoint
    requires |stream| >= Connection.HELLO_SIZE && Find(known, PeerId(stream)).Some?
  {
    Endpoint(local, known[Find(known, PeerId(stream)).value], sending, sent, buffer, history + [JOINED])
  }

  // ----- The end of a turn: the command, then the check on the connection

  predicate Drops(l: Link, ev: Events) {
    l.state == CONNECTED && (ev.remoteError || l.socket == -1)
  }

  function Checked(l: Link, ev: Events): Link {
    if Drops(l, ev) then Link(NOT_CONNECTED, -1) else l
  }

  function Concluded(l: Link, ev: Events): Link {
    Checked(Ordered(l, ev.command), ev)
  }

  /** What is added to the history. */
  function Remarks(l: Link, listener: int, local: KeyState, ev: Events): seq<Message> {
    Added(ev.command, l.state, listener, local) + if Drops(Ordered(l, ev.command), ev) then [LOST] else []
  }

  /** Disconnects the user, forgets the key and says why. */
  method DropRemote(c: ChatState, text: seq<byte>)
    requires c.Valid()
    modifies c.remote, c.remote.node`socket, c.view
    ensures c.Valid() && LinkOf(c) == Link(NOT_CONNECTED, -1) && c.remote.key == null && Reports(c, text)
  {
    c.remote.Disconnect();
    c.remote.key := null;
    c.PushStatus(text);
  }

  /** A connected user whose socket is closed or reports an error is disconnected and loses the key. */
  method CheckRemote(c: ChatState, ev: Events)
    requires c.Valid() && Dialing(LinkOf(c))
    modifies c.remote, c.remote.node`socket, c.view
    ensures c.Valid() && Watchable(LinkOf(c)) && LinkOf(c) == Checked(old(LinkOf(c)), ev)
    ensures c.remote.key == if Drops(old(LinkOf(c)), ev) then null else old(c.remote.key)
    ensures c.view.history == old(c.view.history) + if Drops(old(LinkOf(c)), ev) then [LOST] else []
    ensures c.remote.state == CONNECTED ==> c.Side() == old(c.Side())
    ensures !Drops(old(LinkOf(c)), ev) ==> unchanged(c.view)
  {
    if c.remote.state == CONNECTED && (ev.remoteError || !c.remote.node.Open()) {
      DropRemote(c, Ascii("Remote disconnected"));
    } else {
      assert c.view.history + [] == c.view.history;
    }
  }

  method Conclude(c: ChatState, ev: Events)
    requires c.Valid() && Dialing(LinkOf(c)) && Plausible(ev)
    modifies c`sending, c`sentSize, c`running, c.keys.local, c.remote, c.remote.node, c.listener`socket, c.view
    ensures c.Valid() && (c.sending == old(c.sending) || fresh(c.sending))
    ensures LinkOf(c) == Concluded(old(LinkOf(c)), ev) && Watchable(LinkOf(c))
    ensures c.remote.key == if Drops(Ordered(old(LinkOf(c)), ev.command), ev) then null else old(c.remote.key)
    ensures c.listener.socket == Listening(ev.command, old(c.listener.socket))
    ensures c.running == (old(c.running) && !ev.command.Quit?)
    ensures if ev.command.Connect? && ev.command.opening.UnderWay?
            then c.remote.node.incoming == ev.command.opening.incoming && c.remote.node.wire == []
            else c.remote.node.incoming == old(c.remote.node.incoming) && c.remote.node.wire == old(c.remote.node.wire)
    ensures c.view.history
         == old(c.view.history) + Remarks(old(LinkOf(c)), old(c.listener.socket), old(c.keys.local.State()), ev)
    ensures c.remote.state == CONNECTED ==> c.Side() == Obeyed(old(c.Side()), ev.command, old(c.listener.socket))
  {
    ghost var h := c.view.history;
    ghost var added := Added(ev.command, c.remote.state, c.listener.socket, c.keys.local.State());
    Obey(c, ev.command);
    Assoc(h, added, if Drops(LinkOf(c), ev) then [LOST] else []);
    CheckRemote(c, ev);
  }

  // ----- Serving the sockets. A test of socket -1 for readiness is false.

  /** Receives into the buffer. Unless the user is connected, the descriptor is that of a listening
      socket, and the receive fails. Receiving nothing closes the socket. */
  method ReadRemote(c: ChatState, ev: Events) returns (chunk: seq<byte>)
    requires c.Valid()
    modifies c`receiving, c`receivedSize, c.receiving, c.remote.key, c.view
    modifies c.remote.node`socket, c.remote.node`incoming
    ensures c.Valid() && (c.receiving == old(c.receiving) || fresh(c.receiving))
    ensures |chunk| == if c.remote.state == CONNECTED
      then Taken(ev.recv, Room(old(c.Received())), |old(c.remote.node.incoming)|) else 0
    ensures old(c.remote.node.incoming) == chunk + c.remote.node.incoming
    ensures c.remote.node.socket == if chunk == [] then -1 else old(c.remote.node.socket)
    ensures c.remote.state == CONNECTED ==>
      |chunk| <= Room(old(c.Side()).buffer) && c.Side() == Take(old(c.Side()), chunk)
    ensures c.remote.state != CONNECTED ==>
      && c.Received() == Begin(old(c.Received())) && unchanged(c.view)
      && (c.remote.key != null ==> unchanged(c.remote.key))
  {
    var failed;
    failed, chunk := c.HandleRecv(if c.remote.state == CONNECTED then ev.recv else Error);
  }

  /** The receive handler of a connected user, if it runs. */
  method ReadIf(c: ChatState, ev: Events, reading: bool) returns (chunk: seq<byte>)
    requires c.Valid() && c.remote.state == CONNECTED
    modifies c`receiving, c`receivedSize, c.receiving, c.remote.key, c.view
    modifies c.remote.node`socket, c.remote.node`incoming
    ensures c.Valid() && (c.receiving == old(c.receiving) || fresh(c.receiving))
    ensures |chunk| == if reading
      then Taken(ev.recv, Room(old(c.Received())), |old(c.remote.node.incoming)|) else 0
    ensures old(c.remote.node.incoming) == chunk + c.remote.node.incoming
    ensures c.remote.node.socket == if reading && chunk == [] then -1 else old(c.remote.node.socket)
    ensures |chunk| <= Room(old(c.Side()).buffer) && c.Side() == Heard(old(c.Side()), chunk, reading)
  {
    if reading {
      chunk := ReadRemote(c, ev);
    } else {
      chunk := [];
      assert c.remote.node.incoming == [] + c.remote.node.incoming;
    }
  }

  method FinishConnecting(c: ChatState, ghost known: seq<KeyState>, ev: Events)
    requires c.Valid() && c.keys.ListedBy(known) && c.remote.state == CONNECTING && c.remote.node.Open()
    modifies c.remote, c.remote.node, c.view
    ensures c.Valid()
    ensures if Succeeds(known, old(c.remote.node.incoming), ev)
      then LinkOf(c) == Link(CONNECTED, old(c.remote.node.socket)) && Reports(c, JOINED.text)
           && Met(c, known, old(c.remote.node.incoming), old(c.remote.node.wire) + Introduced(old(c.keys.local.id)))
      else LinkOf(c) == Link(NOT_CONNECTED, -1) && Reports(c, NOT_JOINED.text) && c.remote.key == null
  {
    ghost var had, was := c.remote.node.incoming, c.remote.node.wire;
    var failed;
    ghost var code, input, output;
    failed, code, input, output := c.remote.FinishConnect(c.keys, known, ev.connectError, ev.handshake);
    if failed {
      DropRemote(c, Ascii("Connection failed"));
    } else {
      SuccessBytes(known, c.keys.local.id, input, output, had, c.remote.node.incoming);
      assert Met(c, known, had, was + output);
      c.PushStatus(Ascii("Connected!"));
    }
  }

  /** `sent` is how many bytes a connected user's socket took. */
  method WriteRemote(c: ChatState, ghost known: seq<KeyState>, ev: Events) returns (sent: nat)
    requires c.Valid() && c.remote.state != NOT_CONNECTED && c.remote.node.Open()
    requires c.remote.state == CONNECTING ==> c.keys.ListedBy(known)
    modifies c`sending, c`sentSize, c.remote, c.remote.node, c.view
    ensures c.Valid() && (c.sending == old(c.sending) || fresh(c.sending))
    ensures old(c.remote.state) == CONNECTED ==>
      && sent == Accepted(ev.send, |Unsent(old(c.Side()))|)
      && LinkOf(c) == Link(CONNECTED, if Unsent(old(c.Side())) != [] && ev.send.Error? then -1
                                      else old(c.remote.node.socket))
      && c.Side() == Flush(old(c.Side()), sent) && c.remote.key == old(c.remote.key)
      && c.remote.node.wire == old(c.remote.node.wire) + Unsent(old(c.Side()))[..sent]
      && c.remote.node.incoming == old(c.remote.node.incoming) && unchanged(c.view)
    ensures old(c.remote.state) == CONNECTING ==>
      var ok := Succeeds(known, old(c.remote.node.incoming), ev);
      && unchanged(c`sending, c`sentSize)
      && LinkOf(c) == Dialed(old(LinkOf(c)), known, old(c.remote.node.incoming), ev)
      && c.view.history == old(c.view.history) + [if ok then JOINED else NOT_JOINED]
      && if ok then Met(c, known, old(c.remote.node.incoming),
                        old(c.remote.node.wire) + Introduced(old(c.keys.local.id)))
         else c.remote.key == null
  {
    if c.remote.state == CONNECTING {
      FinishConnecting(c, known, ev);
      sent := 0;
    } else {
      sent := c.HandleSend(ev.send);
    }
  }

  /** The handler for a connected user's writable socket, if it runs. */
  method WriteIf(c: ChatState, ev: Events, writing: bool) returns (sent: nat)
    requires c.Valid() && c.remote.state == CONNECTED && (writing ==> c.remote.node.Open())
    modifies c`sending, c`sentSize, c.remote, c.remote.node, c.view
    ensures c.Valid() && (c.sending == old(c.sending) || fresh(c.sending))
    ensures sent == if writing then Accepted(ev.send, |Unsent(old(c.Side()))|) else 0
    ensures LinkOf(c) == Link(CONNECTED, if writing && Unsent(old(c.Side())) != [] && ev.send.Error? then -1
                                         else old(c.remote.node.socket))
    ensures c.Side() == Flush(old(c.Side()), sent) && c.remote.key == old(c.remote.key)
    ensures c.remote.node.wire == old(c.remote.node.wire) + Unsent(old(c.Side()))[..sent]
    ensures c.remote.node.incoming == old(c.remote.node.incoming) && unchanged(c.view)
  {
    if writing {
      sent := WriteRemote(c, [], ev);
    } else {
      sent := 0;
      assert c.remote.node.wire == c.remote.node.wire + Unsent(c.Side())[..0];
      assert Flush(c.Side(), 0) == c.Side();
    }
  }

  method TakeConnection(c: ChatState, ghost known: seq<KeyState>, ev: Events, aliased: bool) returns (failed: bool)
    requires c.Valid() && Plausible(ev) && (aliased || c.remote.state == NOT_CONNECTED)
    requires c.remote.state != CONNECTING && (aliased || c.keys.ListedBy(known))
    modifies c.remote, c.remote.node
    ensures c.Valid() && LinkOf(c) == Welcomed(old(LinkOf(c)), aliased, known, ev)
    ensures !failed <==> old(c.remote.state) == NOT_CONNECTED && c.remote.state == CONNECTED
    ensures !failed ==> Met(c, known, ev.accepted.value.1, Introduced(old(c.keys.local.id)))
    ensures aliased || ev.accepted.None? ==>
      && c.remote.key == old(c.remote.key)
      && c.remote.node.wire == old(c.remote.node.wire) && c.remote.node.incoming == old(c.remote.node.incoming)
    ensures ev.connectError ==> c.remote.key == old(c.remote.key)
  {
    ghost var code, input, output;
    failed, code, input, output :=
      c.remote.Accept(c.keys, known, if aliased then None else ev.accepted, ev.connectError, ev.handshake);
    if !failed {
      SuccessBytes(known, c.keys.local.id, input, output, ev.accepted.value.1, c.remote.node.incoming);
    }
  }

  /** Accepting an incoming connection, which fails on a number that is no listening socket's any more. */
  method AcceptConnection(c: ChatState, ghost known: seq<KeyState>, ev: Events, aliased: bool)
    requires c.Valid() && Plausible(ev) && (aliased || c.remote.state == NOT_CONNECTED)
    requires c.remote.state != CONNECTING && (aliased || c.keys.ListedBy(known))
    modifies c.remote, c.remote.node, c.view
    ensures c.Valid() && LinkOf(c) == Welcomed(old(LinkOf(c)), aliased, known, ev)
    ensures var ok := old(c.remote.state) == NOT_CONNECTED && c.remote.state == CONNECTED;
      && c.view.history == old(c.view.history) + [if ok then JOINED else NOT_ACCEPTED]
      && (ok ==> Met(c, known, ev.accepted.value.1, Introduced(old(c.keys.local.id)))
                 && c.Side() == Joined(known, ev.accepted.value.1, c.keys.local.State(), c.sending[..], c.sentSize,
                                       c.Received(), old(c.view.history)))
    ensures aliased || ev.accepted.None? ==>
      && c.remote.key == old(c.remote.key)
      && c.remote.node.wire == old(c.remote.node.wire) && c.remote.node.incoming == old(c.remote.node.incoming)
    ensures ev.connectError ==> c.remote.key == old(c.remote.key)
  {
    var failed := TakeConnection(c, known, ev, aliased);
    if failed {
      c.PushStatus(Ascii("Incoming connection failed"));
    } else {
      c.PushStatus(Ascii("Connected!"));
    }
  }

  /** The connected user's socket: receiving, then sending. */
  method ServeConnected(c: ChatState, ev: Events, reading: bool, writeReady: set<int>)
    returns (chunk: seq<byte>, sent: nat)
    requires c.Valid() && c.remote.state == CONNECTED
    requires ev.selection.Reported? && -1 !in writeReady
    requires reading <==> c.remote.node.socket in ev.selection.readable
    requires c.remote.node.socket in writeReady
        <==> Unsent(c.Side()) != [] && c.remote.node.socket in ev.selection.writable
    modifies c`sending, c`sentSize, c`receiving, c`receivedSize, c.receiving
    modifies c.remote.key, c.remote, c.remote.node, c.view
    ensures c.Valid() && NewBuffers(c)
    ensures
      var e, x := old(c.Side()), Pass(old(c.Side()), old(c.remote.node.incoming), old(c.remote.node.socket), ev);
      && chunk == x.chunk && sent == x.sent
      && LinkOf(c) == Link(CONNECTED, if x.closed then -1 else old(c.remote.node.socket))
      && c.remote.key == old(c.remote.key) && c.Side() == Flush(Heard(e, chunk, reading), sent)
      && old(c.remote.node.incoming) == chunk + c.remote.node.incoming
      && c.remote.node.wire == old(c.remote.node.wire) + Unsent(e)[..sent]
  {
    ghost var e, had := c.Side(), c.remote.node.incoming;
    ghost var x := Pass(e, had, c.remote.node.socket, ev);
    chunk := ReadIf(c, ev, reading);
    assert chunk == had[..|chunk|];
    assert chunk == x.chunk && Unsent(c.Side()) == Unsent(e);
    sent := WriteIf(c, ev, c.remote.node.socket in writeReady);
    assert sent == x.sent;
  }

  /** The descriptors watched for reading: the remote user's when connected, the listening one when
      waiting for a connection. */
  function WatchedForReading(c: ChatState, waitForRemote: bool): set<int>
    reads c.remote, c.remote.node, c.listener
  {
    if c.remote.state == CONNECTED then {c.remote.node.socket}
    else if waitForRemote && c.remote.state == NOT_CONNECTED then {c.listener.socket}
    else {}
  }

  /** The one watched for writing: that of a user who is connecting, or has a frame to send. */
  function WatchedForWriting(c: ChatState): set<int>
    reads c, c.remote, c.remote.node
  {
    if c.remote.state == CONNECTING
       || (c.remote.state == CONNECTED && c.sending.Length != c.sentSize && c.sending.Length != 0)
    then {c.remote.node.socket} else {}
  }

  /** Accepting on the number of a connection, or of one closed on failing to receive. */
  method RejectIf(c: ChatState, ev: Events, ready: bool)
    requires c.Valid() && Plausible(ev) && c.remote.state == CONNECTED
    modifies c.remote, c.remote.node, c.view
    ensures c.Valid() && LinkOf(c) == Link(CONNECTED, if ready then -1 else old(c.remote.node.socket))
    ensures c.Side() == Rejected(old(c.Side()), ready) && c.remote.key == old(c.remote.key)
    ensures c.remote.node.incoming == old(c.remote.node.incoming) && c.remote.node.wire == old(c.remote.node.wire)
  {
    if ready {
      AcceptConnection(c, [], ev, true);
    } else {
      assert c.Side().history + [] == c.Side().history;
    }
  }

  /** The sockets of a connected user. When the listening socket has the same number, it counts as
      ready, too, and accepting on it fails. */
  method ServeUser(c: ChatState, ev: Events, readReady: set<int>, writeReady: set<int>)
    returns (served: bool, chunk: seq<byte>, sent: nat)
    requires c.Valid() && Plausible(ev) && ev.selection.Reported?
    requires c.remote.state == CONNECTED && c.remote.node.socket != -1
    requires readReady == {c.remote.node.socket} * ev.selection.readable && -1 !in writeReady
    requires c.remote.node.socket in writeReady
        <==> Unsent(c.Side()) != [] && c.remote.node.socket in ev.selection.writable
    modifies c`sending, c`sentSize, c`receiving, c`receivedSize, c.receiving
    modifies c.remote.key, c.remote, c.remote.node, c.view
    ensures c.Valid() && NewBuffers(c)
    ensures
      var s, aliased := old(c.remote.node.socket), old(c.remote.node.socket == c.listener.socket);
      var e, x := old(c.Side()), Pass(old(c.Side()), old(c.remote.node.incoming), old(c.remote.node.socket), ev);
      && served == x.served && chunk == x.chunk && sent == x.sent
      && LinkOf(c) == Passed(s, x, aliased)
      && c.remote.key == old(c.remote.key) && c.Side() == Handled(e, x, aliased)
      && old(c.remote.node.incoming) == chunk + c.remote.node.incoming
      && c.remote.node.wire == old(c.remote.node.wire) + Unsent(e)[..sent]
  {
    served := c.remote.node.socket in readReady;
    chunk, sent := ServeConnected(c, ev, served, writeReady);
    RejectIf(c, ev, c.listener.socket in readReady);
  }

  /** The socket of a user who is connecting. */
  method ServeDialing(c: ChatState, ghost known: seq<KeyState>, ev: Events, writeReady: set<int>)
    requires c.Valid() && c.keys.ListedBy(known)
    requires c.remote.state == CONNECTING && c.remote.node.socket != -1
    modifies c`sending, c`sentSize, c.remote, c.remote.node, c.view
    ensures c.Valid() && (c.sending == old(c.sending) || fresh(c.sending))
    ensures
      var at, had := old(LinkOf(c)), old(c.remote.node.incoming);
      if at.socket in writeReady
      then LinkOf(c) == Dialed(at, known, had, ev)
           && c.view.history == old(c.view.history) + [if c.remote.state == CONNECTED then JOINED else NOT_JOINED]
           && (if c.remote.state == CONNECTED
               then Met(c, known, had, old(c.remote.node.wire) + Introduced(old(c.keys.local.id)))
                    && c.Side() == Joined(known, had, old(c.keys.local.State()), old(c.sending[..]),
                                          old(c.sentSize), old(c.Received()), old(c.view.history))
               else c.remote.key == null)
      else LinkOf(c) == at && c.remote.key == old(c.remote.key) && unchanged(c.view)
           && c.remote.node.incoming == had && c.remote.node.wire == old(c.remote.node.wire)
  {
    if c.remote.node.socket in writeReady {
      var sent := WriteRemote(c, known, ev);
    }
  }

  /** The receive handler of a user who is not connected, if it runs: it closes the socket, and at most
      makes the receive buffer ready for a header. */
  method ReadListenerIf(c: ChatState, ghost known: seq<KeyState>, ev: Events, reading: bool)
    requires c.Valid() && c.keys.ListedBy(known) && c.remote.state == NOT_CONNECTED
    modifies c`receiving, c`receivedSize, c.receiving, c.remote.key, c.view
    modifies c.remote.node`socket, c.remote.node`incoming
    ensures c.Valid() && c.keys.ListedBy(known) && (c.receiving == old(c.receiving) || fresh(c.receiving))
    ensures c.remote.node.socket == if reading then -1 else old(c.remote.node.socket)
    ensures c.remote.node.incoming == old(c.remote.node.incoming) && unchanged(c.view)
    ensures c.Received() == if reading then Begin(old(c.Received())) else old(c.Received())
  {
    if reading {
      var chunk := ReadRemote(c, ev);
      assert chunk == [] && c.remote.node.incoming == [] + c.remote.node.incoming;
    }
  }

  /** Accepting, if the listening socket is ready. */
  method AcceptIf(c: ChatState, ghost known: seq<KeyState>, ev: Events, ready: bool, aliased: bool)
    requires c.Valid() && c.keys.ListedBy(known) && Plausible(ev) && c.remote.state == NOT_CONNECTED
    modifies c.remote, c.remote.node, c.view
    ensures c.Valid()
    ensures LinkOf(c) == if ready then Welcomed(old(LinkOf(c)), aliased, known, ev) else old(LinkOf(c))
    ensures c.view.history == old(c.view.history) + Answered(ready, LinkOf(c))
    ensures c.remote.state == CONNECTED ==>
      && Met(c, known, ev.accepted.value.1, Introduced(old(c.keys.local.id)))
      && c.Side() == Joined(known, ev.accepted.value.1, c.keys.local.State(), c.sending[..], c.sentSize,
                            c.Received(), old(c.view.history))
    ensures !ready || aliased || ev.accepted.None? || ev.connectError ==> c.remote.key == old(c.remote.key)
    ensures !ready ==>
      c.remote.node.incoming == old(c.remote.node.incoming) && c.remote.node.wire == old(c.remote.node.wire)
  {
    if ready {
      AcceptConnection(c, known, ev, aliased);
    } else {
      assert c.view.history + [] == c.view.history;
    }
  }

  /** The sockets of a user who waits for a connection; accepting comes last. The receive handler runs
      before (`served`) if the remote user's socket has the number of the listening one. */
  method ServeWaiting(c: ChatState, ghost known: seq<KeyState>, ev: Events, readReady: set<int>)
    returns (served: bool)
    requires c.Valid() && c.keys.ListedBy(known) && Plausible(ev) && c.remote.state == NOT_CONNECTED
    requires readReady <= {c.listener.socket} && -1 !in readReady
    modifies c`receiving, c`receivedSize, c.receiving, c.remote.key, c.remote, c.remote.node, c.view
    ensures c.Valid() && (c.receiving == old(c.receiving) || fresh(c.receiving))
    ensures served == old(c.remote.node.socket in readReady)
    ensures c.Received() == if served then Begin(old(c.Received())) else old(c.Received())
    ensures
      var at, ready := old(LinkOf(c)), old(c.listener.socket) in readReady;
      var aliased := at.socket == old(c.listener.socket);
      && LinkOf(c) == (if ready then Welcomed(at, aliased, known, ev) else at)
      && c.view.history == old(c.view.history) + Answered(ready, LinkOf(c))
      && (c.remote.state == CONNECTED ==>
            var stream := ev.accepted.value.1;
            && Met(c, known, stream, Introduced(old(c.keys.local.id)))
            && c.Side() == Joined(known, stream, old(c.keys.local.State()), old(c.sending[..]), old(c.sentSize),
                                  old(c.Received()), old(c.view.history)))
      && (!ready || aliased || ev.accepted.None? || ev.connectError ==> c.remote.key == old(c.remote.key))
      && (!ready ==>
            c.remote.node.incoming == old(c.remote.node.incoming) && c.remote.node.wire == old(c.remote.node.wire))
  {
    var aliased := c.remote.node.socket == c.listener.socket;
    served := c.remote.node.socket in readReady;
    ReadListenerIf(c, known, ev, served);
    AcceptIf(c, known, ev, c.listener.socket in readReady, aliased);
  }

  // ----- What a turn leaves for the next

  /** What the loop goes by from turn to turn. */
  datatype Snapshot = Snapshot(link: Link, listener: int, keyed: bool)

  function SnapshotOf(c: ChatState): Snapshot
    reads c.remote, c.remote.node, c.listener
  {
    Snapshot(LinkOf(c), c.listener.socket, c.remote.key != null)
  }

  /** A socket is ready for the next step: of a user who is connecting, writable; of one who waits for a
      connection, the listening socket. */
  predicate Knocks(s: Snapshot, waitForRemote: bool, ev: Events)
    requires ev.selection.Reported?
  {
    match s.link.state
    case CONNECTED => false
    case CONNECTING => s.link.socket in ev.selection.writable
    case NOT_CONNECTED => waitForRemote && s.listener != -1 && s.listener in ev.selection.readable
  }

  /** The receive handler runs exactly when the number of the remote user's socket is watched for
      reading and ready, be it the listening socket that is watched. */
  predicate Serves(s: Snapshot, waitForRemote: bool, ev: Events) {
    && ev.selection.Reported? && s.link.socket in ev.selection.readable && s.link.socket != -1
    && (s.link.state == CONNECTED
        || (s.link.state == NOT_CONNECTED && Knocks(s, waitForRemote, ev) && s.link.socket == s.listener))
  }

  /** What is sure after a turn without looking at the streams. */
  predicate Follows(s: Snapshot, t: Snapshot, knocked: bool, command: Command) {
    && Watchable(t.link) && (t.link.state == CONNECTED ==> t.keyed)
    && t.listener == Listening(command, s.listener)
    && (s.link.state == CONNECTED ==>
          t.link == Ordered(s.link, command) || t.link == Ordered(Link(NOT_CONNECTED, -1), command))
    && (s.link.state != CONNECTED && !knocked ==> t.link == Ordered(s.link, command) && t.keyed == s.keyed)
  }

  // ----- A turn

  /** A turn of a connected user: the received bytes are taken in, the next ones sent, and the command
      obeyed, in this order; then the user is disconnected if the socket is closed or reports an error. */
  twostate predicate ConnectedTurn(c: ChatState, ev: Events, served: bool, chunk: seq<byte>, sent: nat)
    requires c.Valid() && old(c.Valid()) && old(c.remote.state) == CONNECTED && ev.selection.Reported?
    reads c, c.keys, c.keys.local, c.keys.remotes, c.remote, c.remote.node, c.listener
    reads c.view, c.sending, c.receiving
  {
    var e, x := old(c.Side()), Pass(old(c.Side()), old(c.remote.node.incoming), old(c.remote.node.socket), ev);
    var aliased, listener := old(c.remote.node.socket == c.listener.socket), old(c.listener.socket);
    var f, l := Handled(e, x, aliased), Passed(old(c.remote.node.socket), x, aliased);
    && served == x.served && chunk == x.chunk && sent == x.sent
    && Follows(old(SnapshotOf(c)), SnapshotOf(c), false, ev.command)
    && LinkOf(c) == Concluded(l, ev) && c.view.history == f.history + Remarks(l, listener, e.local, ev)
    && (c.remote.state == CONNECTED ==>
          && c.remote.key == old(c.remote.key) && c.Side() == Obeyed(f, ev.command, listener)
          && old(c.remote.node.incoming) == chunk + c.remote.node.incoming
          && c.remote.node.wire == old(c.remote.node.wire) + Unsent(e)[..sent])
  }

  /** A turn of a user who is connecting: once the socket is writable (`tried`), the attempt succeeds
      or fails. */
  twostate predicate DialingTurn(c: ChatState, known: seq<KeyState>, ev: Events, tried: bool)
    requires c.Valid() && old(c.Valid())
    reads c, c.keys, c.keys.local, c.keys.remotes, c.remote, c.remote.node, c.listener
    reads c.view, c.sending, c.receiving
  {
    var at, listener, had := old(LinkOf(c)), old(c.listener.socket), old(c.remote.node.incoming);
    var ok := Succeeds(known, had, ev);
    var l := if tried then Dialed(at, known, had, ev) else at;
    && Follows(old(SnapshotOf(c)), SnapshotOf(c), tried, ev.command)
    && LinkOf(c) == Concluded(l, ev)
    && c.view.history == old(c.view.history) + (if tried then [if ok then JOINED else NOT_JOINED] else [])
                         + Remarks(l, listener, old(c.keys.local.State()), ev)
    && (c.remote.state == CONNECTED ==>
          && Met(c, known, had, old(c.remote.node.wire) + Introduced(old(c.keys.local.id)))
          && c.Side() == Obeyed(Joined(known, had, old(c.keys.local.State()), old(c.sending[..]), old(c.sentSize),
                                       old(c.Received()), old(c.view.history)), ev.command, listener))
    && (tried && !ok ==> c.remote.key == null) && (!tried ==> c.remote.key == old(c.remote.key))
    && (!tried && !ev.command.Connect? ==>
          c.remote.node.incoming == had && c.remote.node.wire == old(c.remote.node.wire))
  }

  /** A turn of a user who has no connection: once the listening socket is ready, one is accepted. */
  twostate predicate WaitingTurn(c: ChatState, known: seq<KeyState>, ev: Events, ready: bool)
    requires c.Valid() && old(c.Valid()) && Plausible(ev)
    reads c, c.keys, c.keys.local, c.keys.remotes, c.remote, c.remote.node, c.listener
    reads c.view, c.sending, c.receiving
  {
    var at, listener := old(LinkOf(c)), old(c.listener.socket);
    var aliased := at.socket == listener;
    var l := if ready then Welcomed(at, aliased, known, ev) else at;
    && Follows(old(SnapshotOf(c)), SnapshotOf(c), ready, ev.command)
    && LinkOf(c) == Concluded(l, ev)
    && c.view.history == old(c.view.history) + Answered(ready, l)
                         + Remarks(l, listener, old(c.keys.local.State()), ev)
    && (at.state == NOT_CONNECTED && c.remote.state == CONNECTED ==>
          var stream := ev.accepted.value.1;
          && Met(c, known, stream, Introduced(old(c.keys.local.id)))
          && c.Side() == Obeyed(Joined(known, stream, old(c.keys.local.State()), old(c.sending[..]), old(c.sentSize),
                                       old(c.Received()), old(c.view.history)), ev.command, listener))
    && (!ready || aliased || ev.accepted.None? || ev.connectError ==> c.remote.key == old(c.remote.key))
  }

  method TurnConnected(c: ChatState, ev: Events, readReady: set<int>, writeReady: set<int>)
    returns (served: bool, chunk: seq<byte>, sent: nat)
    requires c.Valid() && Plausible(ev) && ev.selection.Reported?
    requires c.remote.state == CONNECTED && c.remote.node.socket != -1
    requires readReady == {c.remote.node.socket} * ev.selection.readable && -1 !in writeReady
    requires c.remote.node.socket in writeReady
        <==> Unsent(c.Side()) != [] && c.remote.node.socket in ev.selection.writable
    modifies c`sending, c`sentSize, c`receiving, c`receivedSize, c`running, c.receiving
    modifies c.keys.local, c.remote.key, c.remote, c.remote.node, c.listener`socket, c.view
    ensures c.Valid() && NewBuffers(c)
    ensures c.running == (old(c.running) && !ev.command.Quit?)
    ensures ConnectedTurn(c, ev, served, chunk, sent)
  {
    served, chunk, sent := ServeUser(c, ev, readReady, writeReady);
    Conclude(c, ev);
  }

  method TurnDialing(c: ChatState, ghost known: seq<KeyState>, ev: Events, writeReady: set<int>)
    requires c.Valid() && c.keys.ListedBy(known) && Plausible(ev)
    requires c.remote.state == CONNECTING && c.remote.node.socket != -1
    modifies c`sending, c`sentSize, c`running, c.keys.local, c.remote, c.remote.node, c.listener`socket, c.view
    ensures c.Valid() && (c.sending == old(c.sending) || fresh(c.sending))
    ensures c.running == (old(c.running) && !ev.command.Quit?)
    ensures DialingTurn(c, known, ev, old(c.remote.node.socket) in writeReady)
  {
    ServeDialing(c, known, ev, writeReady);
    Conclude(c, ev);
  }

  method TurnWaiting(c: ChatState, ghost known: seq<KeyState>, ev: Events, readReady: set<int>)
    returns (served: bool)
    requires c.Valid() && c.keys.ListedBy(known) && Plausible(ev) && c.remote.state == NOT_CONNECTED
    requires readReady <= {c.listener.socket} && -1 !in readReady
    modifies c`sending, c`sentSize, c`receiving, c`receivedSize, c`running, c.receiving
    modifies c.keys.local, c.remote.key, c.remote, c.remote.node, c.listener`socket, c.view
    ensures c.Valid() && NewBuffers(c)
    ensures c.running == (old(c.running) && !ev.command.Quit?)
    ensures served == old(c.remote.node.socket in readReady)
    ensures WaitingTurn(c, known, ev, old(c.listener.socket) in readReady)
  {
    served := ServeWaiting(c, known, ev, readReady);
    Conclude(c, ev);
  }

  /** The turn, by the state of the user. */
  twostate predicate Turned(c: ChatState, known: seq<KeyState>, waitForRemote: bool, ev: Events,
                            served: bool, chunk: seq<byte>, sent: nat)
    requires c.Valid() && old(c.Valid()) && Plausible(ev) && ev.selection.Reported?
    reads c, c.keys, c.keys.local, c.keys.remotes, c.remote, c.remote.node, c.listener
    reads c.view, c.sending, c.receiving
  {
    match old(c.remote.state)
    case CONNECTED => ConnectedTurn(c, ev, served, chunk, sent)
    case CONNECTING => DialingTurn(c, known, ev, old(c.remote.node.socket) in ev.selection.writable)
    case NOT_CONNECTED => WaitingTurn(c, known, ev, Knocks(old(SnapshotOf(c)), waitForRemote, ev))
  }

  /** What `select` reports is served: the handlers that run depend on which descriptors are watched. */
  method TakeReported(c: ChatState, ghost known: seq<KeyState>, waitForRemote: bool, ev: Events)
    returns (served: bool, chunk: seq<byte>, sent: nat)
    requires c.Valid() && c.keys.ListedBy(known) && Watchable(LinkOf(c)) && Plausible(ev) && ev.selection.Reported?
    modifies c, c.receiving, c.keys.local, c.remote.key, c.remote, c.remote.node, c.listener, c.view
    ensures c.Valid() && NewBuffers(c)
    ensures c.running == (old(c.running) && !ev.command.Quit?)
    ensures served <==> Serves(old(SnapshotOf(c)), waitForRemote, ev)
    ensures Turned(c, known, waitForRemote, ev, served, chunk, sent)
  {
    var readReady := WatchedForReading(c, waitForRemote) * ev.selection.readable - {-1};
    var writeReady := WatchedForWriting(c) * ev.selection.writable - {-1};
    served, chunk, sent := false, [], 0;
    match c.remote.state
    case CONNECTED => served, chunk, sent := TurnConnected(c, ev, readReady, writeReady);
    case CONNECTING => TurnDialing(c, known, ev, writeReady);
    case NOT_CONNECTED => served := TurnWaiting(c, known, ev, readReady);
  }

  /** One turn; `going` says whether the loop goes on. */
  method TakeTurn(c: ChatState, ghost known: seq<KeyState>, waitForRemote: bool, ev: Events)
    returns (going: bool, served: bool, chunk: seq<byte>, sent: nat)
    requires c.Valid() && c.keys.ListedBy(known) && Watchable(LinkOf(c)) && Plausible(ev)
    modifies c, c.receiving, c.keys.local, c.remote.key, c.remote, c.remote.node, c.listener, c.view
    ensures c.Valid() && Watchable(LinkOf(c)) && NewBuffers(c)
    ensures going <==> !ev.selection.SelectFailed?
    ensures c.running == (old(c.running) && !Quits(ev))
    ensures served <==> Serves(old(SnapshotOf(c)), waitForRemote, ev)
    ensures ev.selection.Reported? ==> Turned(c, known, waitForRemote, ev, served, chunk, sent)
    ensures !ev.selection.Reported? ==>
      && unchanged(c) && unchanged(c.remote) && unchanged(c.remote.node) && unchanged(c.listener)
      && unchanged(c.keys.local) && c.view.screen == old(c.view.screen)
      && c.view.State() == if ev.selection.SelectFailed? then old(c.view.State())
                           else Scroll.Layout(old(c.view.State()), c.view.screen)
  {
    served, chunk, sent := false, [], 0;
    going := !ev.selection.SelectFailed?;
    match ev.selection
    case SelectInterrupted => c.view.Update();
    case SelectFailed =>
    case Reported(readable, writable) => served, chunk, sent := TakeReported(c, known, waitForRemote, ev);
  }

  predicate Goes(s: Snapshot, t: Snapshot, waitForRemote: bool, ev: Events) {
    if ev.selection.Reported? then Follows(s, t, Knocks(s, waitForRemote, ev), ev.command) else t == s
  }

  predicate Quits(ev: Events) {
    ev.selection.Reported? && ev.command.Quit?
  }

  /** The turns after which the loop ends. */
  predicate Ends(ev: Events) {
    ev.selection.SelectFailed? || Quits(ev)
  }

  /** A turn as `Run` sees it; `bare` says that the receive handler ran without a key. */
  method Step(c: ChatState, waitForRemote: bool, ev: Events) returns (going: bool, bare: bool)
    requires c.Valid() && Watchable(LinkOf(c)) && Plausible(ev)
    modifies c, c.receiving, c.keys.local, c.remote.key, c.remote, c.remote.node, c.listener, c.view
    ensures c.Valid() && Watchable(LinkOf(c)) && NewBuffers(c)
    ensures going <==> !ev.selection.SelectFailed?
    ensures c.running == (old(c.running) && !Quits(ev))
    ensures Goes(old(SnapshotOf(c)), SnapshotOf(c), waitForRemote, ev)
    ensures bare <==> Serves(old(SnapshotOf(c)), waitForRemote, ev) && old(c.remote.key) == null
  {
    var keyed := c.remote.key != null;
    var served, chunk, sent;
    going, served, chunk, sent := TakeTurn(c, c.keys.States(), waitForRemote, ev);
    bare := served && !keyed;
  }

  /** Runs the loop for `used` of the turns; `trace` is what it went by, before each of them and at the
      end. In every turn a connected user has a key, and it is one of the key store. So the receive
      handler runs without a key (`bare`) only while waiting for a connection, when the listening
      socket has the number that the remote user's had; see `ServedWithoutKey`. */
  method Run(c: ChatState, waitForRemote: bool, turns: seq<Events>)
    returns (bare: bool, used: nat, ghost trace: seq<Snapshot>)
    requires c.Valid() && Watchable(LinkOf(c)) && forall i :: 0 <= i < |turns| ==> Plausible(turns[i])
    modifies c, c.receiving, c.keys.local, c.keys.remotes, c.remote, c.remote.node, c.listener, c.view
    ensures c.Valid() && Watchable(LinkOf(c))
    ensures c.remote.state == CONNECTED ==> c.remote.key != null && c.remote.key in c.keys.remotes
    ensures used <= |turns| && forall i :: 0 <= i < used - 1 ==> !Ends(turns[i])
    ensures used < |turns| ==> !old(c.running) || (used > 0 && Ends(turns[used - 1]))
    ensures used > 0 ==> old(c.running)
    ensures c.running <==> old(c.running) && (used > 0 ==> !Quits(turns[used - 1]))
    ensures |trace| == used + 1 && trace[0] == old(SnapshotOf(c)) && trace[used] == SnapshotOf(c)
    ensures forall i :: 0 <= i < used ==> Goes(trace[i], trace[i + 1], waitForRemote, turns[i])
    ensures bare <==> exists i :: 0 <= i < used && Serves(trace[i], waitForRemote, turns[i]) && !trace[i].keyed
    ensures bare ==> waitForRemote
  {
    bare, used, trace := false, 0, [SnapshotOf(c)];
    var going := true;
    while going && c.running && used < |turns|
      invariant c.Valid() && Watchable(LinkOf(c)) && NewBuffers(c)
      invariant used <= |turns| && forall i :: 0 <= i < used - 1 ==> !Ends(turns[i])
      invariant used > 0 ==> old(c.running) && going == !turns[used - 1].selection.SelectFailed?
      invariant used == 0 ==> going
      invariant c.running <==> old(c.running) && (used > 0 ==> !Quits(turns[used - 1]))
      invariant |trace| == used + 1 && trace[0] == old(SnapshotOf(c)) && trace[used] == SnapshotOf(c)
      invariant forall i :: 0 <= i < used ==> Goes(trace[i], trace[i + 1], waitForRemote, turns[i])
      invariant bare <==> exists i :: 0 <= i < used && Serves(trace[i], waitForRemote, turns[i]) && !trace[i].keyed
      invariant bare ==> waitForRemote
      decreases |turns| - used
    {
      var now;
      going, now := Step(c, waitForRemote, turns[used]);
      bare := bare || now;
      trace := trace + [SnapshotOf(c)];
      used := used + 1;
    }
  }

  /** The user stops listening, tries a connection that is refused at once, and listens again; the
      new listening socket gets the number of the refused one. The next incoming connection makes the
      receive handler run without a key. */
  method ServedWithoutKey(c: ChatState, number: int, name: seq<byte>, quiet: Events) returns (bare: bool)
    requires c.Valid() && c.running && c.remote.state == NOT_CONNECTED && c.remote.key == null && number != -1
    requires Plausible(quiet) && quiet.selection == Reported({}, {})
    modifies c, c.receiving, c.keys.local, c.keys.remotes, c.remote, c.remote.node, c.listener, c.view
    ensures bare && c.Valid()
  {
    var turns := [quiet.(command := EndListen), quiet.(command := Connect(Refused(number), name)),
                  quiet.(command := Listen(number, name)),
                  quiet.(command := Command.Nothing, selection := Reported({number}, {}))];
    var used;
    ghost var trace;
    bare, used, trace := Run(c, true, turns);
    assert used == 4;
    assert Goes(trace[0], trace[1], true, turns[0]) && Goes(trace[1], trace[2], true, turns[1]);
    assert Goes(trace[2], trace[3], true, turns[2]);
    assert Serves(trace[3], true, turns[3]) && !trace[3].keyed;
  }

  // ----- A turn is a run of the two-party model

  /** What received bytes do to the endpoint of a connected user. */
  function TookIn(e: Endpoint, chunk: seq<byte>): Endpoint
    requires WellFormed(e) && |chunk| <= Room(e.buffer)
  {
    if chunk == [] then e else Take(e, chunk)
  }

  function Spoken(e: Endpoint, command: Command): Endpoint {
    if command.SendLine? then Say(e, command.payload) else e
  }

  /** A user stays connected exactly when the turn met no error, received something if it tried to,
      and did not take the socket for the listening one. */
  lemma StaysConnectedIff(e: Endpoint, incoming: seq<byte>, socket: int, aliased: bool, ev: Events)
    requires WellFormed(e) && ev.selection.Reported? && Calm(ev.command) && socket != -1
    ensures var x := Pass(e, incoming, socket, ev);
      (Concluded(Passed(socket, x, aliased), ev).state == CONNECTED)
      == (!ev.remoteError && (x.served ==> x.chunk != [] && !aliased)
          && (ev.send.Error? ==> Unsent(e) == [] || socket !in ev.selection.writable))
  {
    var x := Pass(e, incoming, socket, ev);
    assert Concluded(Passed(socket, x, aliased), ev)
        == Checked(Link(CONNECTED, if x.closed || (x.served && aliased) then -1 else socket), ev);
  }

  /** Then the endpoint takes in what was received, sends the next bytes, and says the line. */
  lemma TurnSpoken(e: Endpoint, x: Passing, listener: int, command: Command)
    requires WellFormed(e) && |x.chunk| <= Room(e.buffer) && x.sent <= |Unsent(e)| && Calm(command)
    requires x.served <==> x.chunk != []
    ensures Obeyed(Handled(e, x, false), command, listener) == Spoken(Flush(TookIn(e, x.chunk), x.sent), command)
  {
    var f := Flush(Heard(e, x.chunk, x.served), x.sent);
    assert f.history + [] == f.history;
  }

  function SayMoves(command: Command): seq<Connection.Move> {
    if command.SendLine? then [Connection.Move(true, Connection.Talk(command.payload))] else []
  }

  function SendMoves(sent: nat, command: Command): seq<Connection.Move> {
    (if sent == 0 then [] else [Connection.Move(true, Connection.Write(sent))]) + SayMoves(command)
  }

  /** The steps of a connected party that a turn consists of. */
  function TurnMoves(received: nat, sent: nat, command: Command): seq<Connection.Move> {
    (if received == 0 then [] else [Connection.Move(true, Connection.Read(received))]) + SendMoves(sent, command)
  }

  predicate ConnectedA(w: Connection.World) {
    Connection.Steady(w.a) && w.a.phase == Connection.Connected
  }

  /** `v` is what `w` becomes when A's endpoint becomes `e`, having taken in `received` bytes and
      written `out`. */
  predicate Became(v: Connection.World, w: Connection.World, e: Endpoint, received: nat, out: seq<byte>) {
    && ConnectedA(v) && v.b == w.b && v.a.chat == e
    && received <= |w.ba| && v.ba == w.ba[received..] && v.ab == w.ab + out
  }

  lemma SayIsRun(w: Connection.World, capacity: nat, command: Command)
    requires ConnectedA(w)
    ensures Connection.IsRun(w, capacity, SayMoves(command))
    ensures Became(Connection.Final(w, capacity, SayMoves(command)), w, Spoken(w.a.chat, command), 0, [])
  {
    assert w.ab + [] == w.ab && w.ba[0..] == w.ba;
    if command.SendLine? {
      Connection.RunCons(w, capacity, SayMoves(command)[0], []);
      assert SayMoves(command) == [SayMoves(command)[0]] + [];
    }
  }

  lemma SendIsRun(w: Connection.World, capacity: nat, sent: nat, command: Command)
    requires ConnectedA(w) && sent <= |Unsent(w.a.chat)| && |w.ab| + sent <= capacity
    ensures Connection.IsRun(w, capacity, SendMoves(sent, command))
    ensures Became(Connection.Final(w, capacity, SendMoves(sent, command)), w,
                   Spoken(Flush(w.a.chat, sent), command), 0, Unsent(w.a.chat)[..sent])
  {
    var m := Connection.Move(true, Connection.Write(sent));
    assert w.ba[0..] == w.ba;
    if sent == 0 {
      assert SendMoves(sent, command) == SayMoves(command);
      assert Flush(w.a.chat, 0) == w.a.chat;
      SayIsRun(w, capacity, command);
    } else {
      var v := Connection.Next(w, capacity, m);
      SayIsRun(v, capacity, command);
      Connection.RunCons(w, capacity, m, SayMoves(command));
    }
  }

  /** What `TakeTurn` does to the endpoint of a connected user is a run of the two-party model: a read,
      a write, a line, as far as they took place. */
  lemma TurnIsRun(w: Connection.World, capacity: nat, chunk: seq<byte>, sent: nat, command: Command)
    requires ConnectedA(w) && chunk <= w.ba && |chunk| <= Room(w.a.chat.buffer)
    requires sent <= |Unsent(TookIn(w.a.chat, chunk))| && |w.ab| + sent <= capacity
    ensures Connection.IsRun(w, capacity, TurnMoves(|chunk|, sent, command))
    ensures var e := TookIn(w.a.chat, chunk);
      Became(Connection.Final(w, capacity, TurnMoves(|chunk|, sent, command)), w,
             Spoken(Flush(e, sent), command), |chunk|, Unsent(e)[..sent])
  {
    if chunk == [] {
      assert TurnMoves(0, sent, command) == SendMoves(sent, command);
      SendIsRun(w, capacity, sent, command);
    } else {
      var m := Connection.Move(true, Connection.Read(|chunk|));
      var v := Connection.Next(w, capacity, m);
      assert w.ba[..|chunk|] == chunk;
      SendIsRun(v, capacity, sent, command);
      Connection.RunCons(w, capacity, m, SendMoves(sent, command));
    }
  }
}
