/** What a user orders at the keyboard, as far as it reaches beyond the input line: the commands of
    src/command.c and the keys of src/ui.c, carried out by src/chat.c. */
module Commands {
  import opened Bytes
  import opened Keys
  import opened Frames
  import opened Endpoints
  import opened Nodes
  import opened Users
  import opened Chat
  import Scroll

  datatype Command =
    | Nothing
    | SendLine(payload: seq<byte>)
    | Connect(opening: Opening, name: seq<byte>)
    | Disconnect
    | Listen(socket: int, name: seq<byte>)
    | EndListen
    | Quit
    | ScrollUp
    | ScrollDown

  /** Commands that leave the sockets alone. */
  predicate Calm(command: Command) {
    !command.Connect? && !command.Disconnect? && !command.Listen? && !command.EndListen?
  }

  /** The connection to the remote user, as the event loop sees it. */
  datatype Link = Link(state: ConnectionState, socket: int)

  function LinkOf(c: ChatState): Link
    reads c.remote, c.remote.node
  {
    Link(c.remote.state, c.remote.node.socket)
  }

  /** Buffers are only ever kept or replaced by new ones. */
  twostate predicate NewBuffers(c: ChatState)
    reads c
  {
    && (c.receiving == old(c.receiving) || fresh(c.receiving))
    && (c.sending == old(c.sending) || fresh(c.sending))
  }

  /** A status line has been added, and nothing else done to the view. */
  twostate predicate Reports(c: ChatState, text: seq<byte>)
    reads c.view
  {
    && c.view.screen == old(c.view.screen) && c.view.Valid() && old(c.view.Valid())
    && c.view.history == old(c.view.history) + [Message(Status, text)]
    && c.view.State() == Scroll.Push(old(c.view.State()), Message(Status, text), c.view.screen)
  }

  // ----- What a command does

  /** What a command makes of the link. */
  function Ordered(l: Link, command: Command): Link {
    if command.Connect? then Link(if command.opening.UnderWay? then CONNECTING else NOT_CONNECTED,
                                  NumberOf(command.opening))
    else if command.Disconnect? && l.state != NOT_CONNECTED then Link(NOT_CONNECTED, -1)
    else l
  }

  /** The number an attempt to connect leaves in place. */
  function NumberOf(opening: Opening): int {
    if opening.UnderWay? || opening.Refused? then opening.socket else -1
  }

  /** What a command makes of the number of the listening socket. */
  function Listening(command: Command, socket: int): int {
    if command.Listen? then command.socket else if command.EndListen? then -1 else socket
  }

  /** The status lines that answer a command, given the listening socket's number. */
  function Announced(command: Command, state: ConnectionState, listener: int): seq<Message> {
    match command
    case Connect(opening, name) =>
      [Message(Status, Ascii("Connecting to ") + name + if opening.UnderWay? then [] else Ascii(" failed"))]
    case Disconnect => if state == NOT_CONNECTED then [] else [Message(Status, Ascii("Disconnected"))]
    case Listen(socket, name) =>
      [Message(Status, Ascii("Listening on port ") + name + if socket == -1 then Ascii(" failed") else [])]
    case EndListen => if listener == -1 then [] else [Message(Status, Ascii("Stopped listening for connections"))]
    case _ => []
  }

  /** What a command adds to the history: a line is shown to a connected user alone. */
  function Added(command: Command, state: ConnectionState, listener: int, local: KeyState): seq<Message> {
    if !command.SendLine? then Announced(command, state, listener)
    else if state != CONNECTED then []
    else [Message(Local, command.payload)]
         + if BeginFrame(local, command.payload).failed then [OUT_OF_LOCAL_KEY] else []
  }

  /** What a command does to the endpoint of a connected user. */
  function Obeyed(e: Endpoint, command: Command, listener: int): Endpoint {
    if command.SendLine? then Say(e, command.payload)
    else e.(history := e.history + Announced(command, CONNECTED, listener))
  }

  lemma ObeyedHistory(e: Endpoint, command: Command, listener: int)
    ensures Obeyed(e, command, listener).history == e.history + Added(command, CONNECTED, listener, e.local)
  {
    if command.SendLine? {
      assert e.history + [] == e.history;
    }
  }

  // ----- The handlers

  method BeginConnect(c: ChatState, opening: Opening, name: seq<byte>)
    requires c.Valid() && (opening.UnderWay? ==> opening.socket != -1)
    modifies c.remote`state, c.remote.node, c.view
    ensures c.Valid() && LinkOf(c) == Ordered(old(LinkOf(c)), Connect(opening, name))
    ensures opening.UnderWay? ==> c.remote.node.incoming == opening.incoming && c.remote.node.wire == []
    ensures !opening.UnderWay? ==>
      c.remote.node.incoming == old(c.remote.node.incoming) && c.remote.node.wire == old(c.remote.node.wire)
    ensures Reports(c, Ascii("Connecting to ") + name + if opening.UnderWay? then [] else Ascii(" failed"))
  {
    var failed := c.remote.BeginConnect(opening);
    c.PushStatus(Ascii("Connecting to ") + name + if failed then Ascii(" failed") else []);
  }

  method DisconnectUser(c: ChatState)
    requires c.Valid()
    modifies c.remote`state, c.remote.node`socket, c.view
    ensures c.Valid() && LinkOf(c) == Ordered(old(LinkOf(c)), Disconnect)
    ensures if old(c.remote.state) == NOT_CONNECTED then unchanged(c.view) else Reports(c, Ascii("Disconnected"))
  {
    if c.remote.state != NOT_CONNECTED {
      c.remote.Disconnect();
      c.PushStatus(Ascii("Disconnected"));
    }
  }

  method BeginListen(c: ChatState, socket: int, name: seq<byte>)
    requires c.Valid()
    modifies c.listener`socket, c.view
    ensures c.Valid() && c.listener.socket == socket
    ensures Reports(c, Ascii("Listening on port ") + name + if socket == -1 then Ascii(" failed") else [])
  {
    c.listener.Close();
    c.listener.socket := socket;
    c.PushStatus(Ascii("Listening on port ") + name + if socket == -1 then Ascii(" failed") else []);
  }

  method EndListening(c: ChatState)
    requires c.Valid()
    modifies c.listener`socket, c.view
    ensures c.Valid() && c.listener.socket == -1
    ensures if old(c.listener.Open()) then Reports(c, Ascii("Stopped listening for connections"))
            else unchanged(c.view)
  {
    if c.listener.Open() {
      c.listener.Close();
      c.PushStatus(Ascii("Stopped listening for connections"));
    }
  }

  /** Opening and closing sockets. */
  method OrderSockets(c: ChatState, command: Command)
    requires c.Valid() && (command.Connect? && command.opening.UnderWay? ==> command.opening.socket != -1)
    requires !Calm(command)
    modifies c.remote`state, c.remote.node, c.listener`socket, c.view
    ensures c.Valid() && c.view.screen == old(c.view.screen)
    ensures LinkOf(c) == Ordered(old(LinkOf(c)), command)
    ensures c.listener.socket == Listening(command, old(c.listener.socket))
    ensures if command.Connect? && command.opening.UnderWay?
            then c.remote.node.incoming == command.opening.incoming && c.remote.node.wire == []
            else c.remote.node.incoming == old(c.remote.node.incoming) && c.remote.node.wire == old(c.remote.node.wire)
    ensures c.view.history
         == old(c.view.history) + Announced(command, old(c.remote.state), old(c.listener.socket))
  {
    assert c.view.history + [] == c.view.history;
    match command
    case Connect(opening, name) => BeginConnect(c, opening, name);
    case Disconnect => DisconnectUser(c);
    case Listen(socket, name) => BeginListen(c, socket, name);
    case EndListen => EndListening(c);
  }

  /** What leaves the sockets alone. */
  method ObeyCalmly(c: ChatState, command: Command)
    requires c.Valid() && Calm(command)
    modifies c`sending, c`sentSize, c`running, c.keys.local, c.view
    ensures c.Valid() && (c.sending == old(c.sending) || fresh(c.sending)) && c.view.screen == old(c.view.screen)
    ensures c.running == (old(c.running) && !command.Quit?)
    ensures c.remote.state == CONNECTED && command.SendLine? ==> c.Side() == Say(old(c.Side()), command.payload)
    ensures !command.SendLine? || c.remote.state != CONNECTED ==>
      unchanged(c`sending, c`sentSize) && unchanged(c.keys.local) && c.view.history == old(c.view.history)
    ensures command.ScrollUp? ==> c.view.State() == Scroll.Up(old(c.view.State()), c.view.screen)
    ensures command.ScrollDown? ==> c.view.State() == Scroll.Down(old(c.view.State()), c.view.screen)
  {
    match command
    case SendLine(payload) =>
      if c.remote.state == CONNECTED {
        c.SayLine(payload);
      }
    case Quit => c.running := false;
    case ScrollUp => c.view.KeyUp();
    case ScrollDown => c.view.KeyDown();
    case _ =>
  }

  method Dispatch(c: ChatState, command: Command)
    requires c.Valid() && (command.Connect? && command.opening.UnderWay? ==> command.opening.socket != -1)
    modifies c`sending, c`sentSize, c`running, c.keys.local, c.remote`state, c.remote.node, c.listener`socket, c.view
    ensures c.Valid() && (c.sending == old(c.sending) || fresh(c.sending)) && c.view.screen == old(c.view.screen)
    ensures LinkOf(c) == Ordered(old(LinkOf(c)), command)
    ensures c.listener.socket == Listening(command, old(c.listener.socket))
    ensures c.running == (old(c.running) && !command.Quit?)
    ensures if command.Connect? && command.opening.UnderWay?
            then c.remote.node.incoming == command.opening.incoming && c.remote.node.wire == []
            else c.remote.node.incoming == old(c.remote.node.incoming) && c.remote.node.wire == old(c.remote.node.wire)
    ensures c.remote.state == CONNECTED && command.SendLine? ==> c.Side() == Say(old(c.Side()), command.payload)
    ensures !command.SendLine? || c.remote.state != CONNECTED ==>
      && unchanged(c`sending, c`sentSize) && unchanged(c.keys.local)
      && c.view.history == old(c.view.history) + Announced(command, old(c.remote.state), old(c.listener.socket))
    ensures command.ScrollUp? ==> c.view.State() == Scroll.Up(old(c.view.State()), c.view.screen)
    ensures command.ScrollDown? ==> c.view.State() == Scroll.Down(old(c.view.State()), c.view.screen)
  {
    if Calm(command) {
      assert c.view.history + [] == c.view.history;
      ObeyCalmly(c, command);
    } else {
      OrderSockets(c, command);
    }
  }

  /** Any command: what it makes of the sockets, the history and the endpoint of a user who stays
      connected. Only `Quit` ends the loop. */
  method Obey(c: ChatState, command: Command)
    requires c.Valid() && (command.Connect? && command.opening.UnderWay? ==> command.opening.socket != -1)
    modifies c`sending, c`sentSize, c`running, c.keys.local, c.remote`state, c.remote.node, c.listener`socket, c.view
    ensures c.Valid() && (c.sending == old(c.sending) || fresh(c.sending)) && c.view.screen == old(c.view.screen)
    ensures LinkOf(c) == Ordered(old(LinkOf(c)), command)
    ensures c.listener.socket == Listening(command, old(c.listener.socket))
    ensures c.running == (old(c.running) && !command.Quit?)
    ensures if command.Connect? && command.opening.UnderWay?
            then c.remote.node.incoming == command.opening.incoming && c.remote.node.wire == []
            else c.remote.node.incoming == old(c.remote.node.incoming) && c.remote.node.wire == old(c.remote.node.wire)
    ensures c.view.history == old(c.view.history)
              + Added(command, old(c.remote.state), old(c.listener.socket), old(c.keys.local.State()))
    ensures c.remote.state == CONNECTED ==> c.Side() == Obeyed(old(c.Side()), command, old(c.listener.socket))
  {
    if c.remote.state == CONNECTED {
      ObeyedHistory(c.Side(), command, c.listener.socket);
    }
    assert c.view.history + [] == c.view.history;
    Dispatch(c, command);
  }
}
