# otpchat: a verified model of its connection, its pads and its text geometry

otpchat lets two people chat over one TCP connection, encrypted with one-time pads kept in key
files. This project models the program in Dafny and proves what its design promises, each with the
condition under which the program keeps the promise:

- what one user types arrives at the other, complete, in order and unchanged, over any way the
  network may cut up and delay the bytes, in both directions at once, from the first byte of the
  handshake on, as long as each line is typed when the one before it is out and the key has bytes for
  it;
- the handshake of both sides agrees, cannot deadlock, and leaves the frame receiver standing on the
  first byte of the first frame;
- no byte of a pad is used for two messages over the life of a key file, as long as no session that
  encrypted something is cut off before it saves the head;
- editing multibyte text with a byte cursor is editing a list of characters, and the wrapped lines,
  the cursor and the scrolled history are where they should be.

## How the model is built

| file | of the program | contents |
|---|---|---|
| `Bytes.dfy` | all | bytes, XOR, big- and little-endian integers |
| `Keys.dfy` | `src/key.c` | the key file, its head and position; class `Key` with in-place encryption |
| `Frames.dfy` | `src/chat.c` | frames, the incremental receiver, a one-shot reference parser |
| `Pads.dfy` | `src/chat.c`, `src/key.c` | one frame through any copy of a key; streams; key files closed and reopened |
| `KeyLife.dfy` | same | the pads used over the life of a key file |
| `Endpoints.dfy` | `src/chat.c` | one side of a connection as a value: buffers, keys, history |
| `Nodes.dfy` | `src/node.c` | sockets with partial reads and writes; the two-way exchange loop |
| `Connection.dfy` | `src/user.c`, `src/chat.c` | two parties, two channels, every interleaving; the invariant |
| `Guarantees.dfy` | same | the theorems about all runs |
| `Users.dfy` | `src/user.c`, `src/key.c` | key lookup, handshake, connection state |
| `HandshakeRuns.dfy` | `src/user.c` | the program's handshake as a run of the two-party model |
| `Text.dfy` | `src/ui.c` | characters, scans, wrapping |
| `Editor.dfy` | `src/ui.c` | the input line and its keys |
| `Scroll.dfy` | `src/ui.c`, `src/chat.c` | history layout and scrolling |
| `Chat.dfy` | `src/chat.c` | class `ChatState` and its message handlers |
| `Commands.dfy` | `src/command.c`, `src/chat.c` | what the user orders, and how it is answered |
| `EventLoop.dfy` | `src/chat.c` | the `select` loop |

Code that changes state in the program is a class with methods here (`Key`, `Node`, `User`,
`KeyStore`, `ChatState`, `InputLine`, `HistoryView`). Each such method is proved equal to a function
of values, and the theorems are proved about those functions: the methods of `ChatState` are the
functions of `Endpoints`, the steps of the two-party model use the same functions, and the methods of
`InputLine` are `Editor.Press`.

What the operating system decides is a parameter that ranges over everything it may do: how many
bytes a socket moves, when `select` is interrupted or fails and which descriptors it reports, what a
listening socket yields, what the random source returns and whether the file takes it. In the
two-party model it is the choice of the next step; a step `Break` loses a connection, by error or
timeout, at any moment, and a step `Talk` says any line at any moment while connected. A turn of the
event loop of a connected user is a run of that model (`EventLoop.TurnIsRun`, `EventLoop.TurnSpoken`),
and so is a handshake (`HandshakeRuns.HandshakeIsRun`).

What the program does is moreover told by what the operating system offers, not only bounded by it: a
receive takes as many bytes as the socket and the buffer allow, an exchange succeeds exactly when its
turns complete it (`Nodes.FinishIff`), an attempt to connect exactly when its handshake returns 0
(`Users.User.FinishConnect`), and a turn of the event loop leaves the state, socket, history and
buffers that follow from its events (`EventLoop.TakeTurn`).

Some properties one may expect do not hold without a condition. Each is stated with its exact
condition:

- A line that is sent arrives if and only if the line before it is completely out, it is not empty,
  its size fits 32 bits, and the sender has key bytes for all of it (`Pads.NewFrameArrivesIff`,
  `Pads.DeliveredIff`). A new send drops the unsent rest of the frame before it (`src/chat.c:228`); a
  frame begun without enough key keeps its payload as it was copied in (`src/chat.c:246`); a size is
  cut to 32 bits (`src/chat.c:234`). The condition is `Connection.InTurn`, which the program does not
  check. Over whole runs: one history shows all that the peer's user said if and only if every line
  was said in turn and no byte is left to come (`Guarantees.DeliveryIff`). It shows no more than a
  prefix also when lines are empty or the key runs out (`Guarantees.EndToEndDelivery`), but not when a
  line is said over an unsent one: with nothing of the first one out, the second one is read alone
  (`Guarantees.OverwrittenLine`, `Guarantees.OverwrittenExample`); with its header out, a text is
  shown that was never said, of the length of the first one (`Guarantees.OverwrittenPartly`).
- A seek keeps the file position at head + 32 if and only if that sum is below 2^63
  (`Keys.SeekCoherent`, `Pads.OpenCoherent`): the sum wraps at 2^64, and a failed `fseek` still sets
  the head. A received header sets the head of the peer's key to any value, so that a closed key
  file opens again if and only if that value is not from 2^63 - 32 up to 2^64 - 33
  (`Pads.CloseThenOpen`).
- No pad byte is used for two messages if and only if no session encrypts anything after one that did
  and ended without closing its key (`KeyLife.PadUsedOnceIff`). Only a close saves the head
  (`src/key.c:111-123`, reached from `src/chat.c:208-213`); a program that a signal ends does not get
  there, and the next session starts with the same pad (`KeyLife.CutOffRepeats`). This is for a saved
  head + 32 below 2^64, and for no other (`KeyLife.HeadBoundIff`): from there on the file opens within
  its own header, and the first byte sent is masked with a byte of that
  (`KeyLife.WrappedHeadUsesHeader`).
- A new message leaves message `i` on its row if and only if the view is scrolled back and, should the
  message bring up the scrollbar, all messages from `i` on take the same lines in one column less
  (`Scroll.PushAnchors`). A scrolled-back view that shows nothing above the first message always stays
  (`Scroll.ScrolledBackStays`): its scrollbar is up already. A view scrolled back before the terminal
  grew may move (`Scroll.ScrollbarMoves`).
- The receive handler runs exactly when the number of the remote user's socket is watched and ready
  (`EventLoop.TakeTurn`). A connected user always has a key; but a user who is not connected may hold
  the number that a refused connection left behind, and when the listening socket gets that number,
  the handler runs without a key (`EventLoop.ServedWithoutKey`). Nothing can be received there, so the
  missing key is not used (`Chat.ChatState.HandleRecv`).
- The cursor is drawn one row below the input box exactly when it stands behind a last line that is
  full (`Text.CursorRow`).

## Model

| member | source | states |
|---|---|---|
| Guarantees.EndToEndDelivery | src/chat.c:226-340 | in every run of two parties from a fresh connection in which a user says no line over an unsent one, nor one of 2^32 bytes or more, the peer's history shows a prefix of the lines said, in both directions, also after an empty line or one beyond the key; earlier history is kept whatever is said |
| Guarantees.DeliveryIff | src/chat.c:226-340 | in every run, whatever is said and whenever: a party that came through the handshake shows all that the peer's user said if and only if each line was said in turn and no byte is unsent or in flight |
| Guarantees.OrderlyIff | src/chat.c:226-252 | the conditions of delivery are told by the run alone: each line met the guard at the moment it was said |
| Guarantees.OverwrittenLine | src/chat.c:228-241 | a line said before any byte of the one before it is out replaces it: every copy of the key reads the second line alone |
| Guarantees.OverwrittenPartly | src/chat.c:228-241 | a line said when the header and some bytes of the one before it are out: the peer shows a text of the first line's length that continues with bytes of the second frame, and is the first line if and only if those are the missing bytes; it reads on in the middle of the second frame |
| Pads.CutFrame | src/chat.c:228-246 | bytes put in the place of the rest of a frame act as if another text of the same length had been sent |
| Pads.CutWaits | src/chat.c:276-300 | while fewer bytes have come than are missing, nothing is shown |
| Guarantees.OverwrittenExample | src/chat.c:228-241 | with two key bytes left, "a" and "b" said at once come out as "b", which is no prefix of what was said |
| Guarantees.HandshakeAgreement | src/user.c:59-107 | in every run each handshake either breaks (4) or returns the code that the bytes read say, which is the one the two key stores determine; if one side succeeds the other cannot return 1, 2 or 3, and the key found has the peer's id |
| Guarantees.ByteAlignment | src/user.c:69-97 | a handshake never reads beyond 25 bytes; a connected receiver has read the peer's hello and accept byte and then frames from their first byte, even if the peer sends at once |
| Guarantees.Progress | src/node.c:266-320 | with channels of capacity one or more, some byte can always move until both parties are at rest, unless a receiver asks for zero bytes, which cannot happen while lines are said in turn (`HeardPrefix`): no deadlock in handshake or chat |
| Guarantees.TransfersEnd | src/chat.c:264-340 | moving bytes without new sends takes at most as many steps as the measure (twice the bytes to write plus the bytes in flight) |
| Guarantees.Completion | src/user.c:59-107 | from any unbroken run with all lines said in turn, letting bytes move until none can: both sides end with the verdict of the two key stores, and if connected, everything said has been heard by both |
| Guarantees.AtRest | src/user.c:98-106 | at rest, both are connected if and only if each side's key id is in the other's store, otherwise the codes are 2 or 3 as determined; and if connected, a history shows all the peer's user said if and only if that was said in turn |
| Guarantees.PartyVerdict | src/user.c:84-106 | in every state that satisfies the invariant, a finished handshake has the code fixed by which ids each store knows |
| Guarantees.HeardPrefix | src/chat.c:264-321 | one direction of delivery from the invariant: heard is a prefix of said if no line was said over an unsent one; the receiver never gets stuck if lines were said in turn; all is heard exactly when moreover nothing is unsent or in flight |
| Guarantees.PartyAligned | src/user.c:69-97 | the same from the invariant, for one receiver |
| Guarantees.MeasureFalls | src/chat.c:322-340 | every read or write step strictly decreases the measure and breaks nothing |
| Connection.NextKeeps | src/user.c:59-107 | every step of either party keeps the two-party invariant: bytes conserved between the parties, handshake told by bytes read, receiver tracking the parse of its input |
| Connection.RunKeeps | src/chat.c:341-444 | so does every run |
| Guarantees.BytesConserved | src/node.c:211-248 | of the model's channels, in every run: what a party has read followed by what is in flight is what its peer has handed over, as a stream socket promises |
| Connection.TalkKeeps | src/chat.c:226-252 | saying any line keeps the sender's invariant: every copy of the key reads all lines from what is sent exactly when each was said in turn, and no more than a prefix when none was said over an unsent one |
| Connection.AdvanceKeeps | src/user.c:80-106 | the code between and after the two exchanges keeps a party's invariant and writes nothing |
| Frames.ChunkingIndependence | src/chat.c:264-321 | for any byte stream, well formed or not, cut into any chunks, the incremental receiver delivers what the one-shot parser reads of the whole stream, bytes behind a bad frame included; it gets stuck exactly when the parser meets an empty frame or runs out of key |
| Frames.ReceiveTracks | src/chat.c:276-320 | one receive of any size keeps buffer and key in step with the parse of all bytes so far, and delivers the text that the parse gains |
| Frames.StuckIffStopped | src/chat.c:281-316 | the next receive asks for zero bytes (which closes the connection) exactly after an empty frame or a frame beyond the key |
| Frames.ParseAppend | src/chat.c:264-321 | parsing more bytes resumes where it stopped for lack of bytes, and never after a bad frame |
| Pads.FrameParses | src/chat.c:285-317 | a frame made with enough key gives the payload back against any copy of the key, wherever its head was: lost earlier messages do not matter |
| Pads.DeliveredIff | src/chat.c:226-252 | one message over any chunks arrives as itself if and only if it is not empty, below 2^32 bytes, and covered by the key |
| Pads.NewFrameArrivesIff | src/chat.c:228-246 | for each copy of the key and whatever was said before: it reads all earlier lines and the new one if and only if it would have read all earlier ones, nothing was left unsent, the size is right and the key suffices |
| Pads.GapStays | src/chat.c:264-321 | a stream that lacks an earlier line is not mended by a later frame |
| Pads.HaltedNext | src/chat.c:226-252 | a frame added to a stream that reads as the lines so far, or stops for good after some of them, makes such a stream for one more line |
| Pads.BadFrameHalts | src/chat.c:281-316 | an empty frame, or one begun without enough key, shows nothing and stops the reader for good |
| Pads.ParsedPrefix | src/chat.c:264-321 | what is parsed of a part of a stream that reads as some lines is a prefix of them, and parsing does not stop for a bad frame |
| Pads.ParsedAllIff | src/chat.c:264-321 | a part of a stream reads as all lines if and only if no byte is missing and the whole stream does |
| Pads.ParsedLength | src/chat.c:281-318 | parsing accounts for every byte of the stream |
| Pads.HeaderRoundTrip | src/chat.c:234-237 | the header gives back the head, and the size modulo 2^32 |
| Pads.HeaderBytes | src/chat.c:234-237 | byte by byte: the size modulo 2^32, then the head, each with its highest byte first |
| Pads.FrameBits | src/chat.c:234-246 | on the wire, a bit of the payload is set exactly when the bits of the text and of the pad byte in its place differ; that pad starts in the key file at the head that the header names + 32 |
| KeyLife.PadUsedOnce | src/key.c:193-225 | over every send of any number of sessions that close the key, failed sends included, the pads of messages are disjoint and ascending, between the heads saved first and last, each header carries the start of its pad, and every line is sent |
| KeyLife.PadUsedOnceIff | src/key.c:111-123 | for any sessions, closed or cut off: no pad byte is used for two messages if and only if no session encrypts anything after one that did and was cut off |
| KeyLife.CarelessRepeats | src/chat.c:208-213 | otherwise two messages begin with the same pad byte |
| KeyLife.CutOffRepeats | src/chat.c:208-213 | an input: one byte sent in a session that is cut off and one in the next are masked with the same byte of the file |
| KeyLife.SessionFirst | src/key.c:193-225 | a session encrypts something exactly when there is key for its first line that is not empty, and then from its first head on; otherwise the head stays or the key is used up |
| KeyLife.HeadBoundIff | src/key.c:54-68 | careful sessions never use a pad byte twice if and only if the saved head + 32 is below 2^64 |
| KeyLife.WrappedHeadUsesHeader | src/key.c:54-68 | beyond, the file opens within its header and the first byte sent is masked with a header byte |
| KeyLife.SessionUses | src/chat.c:235-251 | within one session the pads are disjoint and ascending, and the key stays coherent |
| Pads.CloseWritesHead | src/key.c:111-123 | a close changes the eight head bytes only, to a value that reads back as the head |
| Pads.CloseThenOpen | src/key.c:42-70 | for any key, wherever a header has moved its head: reopening after a close gives the same head, id and size, unless the head has no position; and the same file position exactly when the key stood at that of its head |
| Pads.CreateThenOpen | src/key.c:71-110 | a created file, closed and opened, is the same key with head 0 and the data written |
| Pads.OpenCoherent | src/key.c:54-68 | a key file opens with position head + 32 exactly when that is below 2^63 |
| Pads.FillTakes | src/key.c:93-105 | for any non-empty reads that the file takes, the fill loop succeeds exactly when the source has enough bytes, and writes the first ones in order |
| Pads.FillFails | src/key.c:98-103 | a read that yields nothing, or a write that fails, while bytes are needed fails the creation |
| Keys.SeekCoherent | src/key.c:124-128 | a seek leaves the position at head + 32 exactly for heads with head + 32 below 2^63 |
| Keys.EncryptCoherent | src/key.c:193-225 | reading key bytes moves head and position alike, by the bytes read, also when the key runs out; then the text is unchanged |
| Keys.EncryptBits | src/key.c:219-222 | encryption sets a bit exactly when the bits of the text and of the key byte that stands in its place differ |
| Keys.WriteAtBytes | src/key.c:111-123 | a write to the key file changes the bytes it covers and no others |
| Keys.MagicBytes | src/key.c:36 | the eight bytes a key file starts with |
| Keys.Find | src/key.c:176-191 | the first key with the id, or none if no key has it |
| Keys.Key.OpenFile | src/key.c:42-70 | opens exactly the files that `Open` accepts, with its head, id, size and position |
| Keys.Key.Create | src/key.c:71-110 | fails exactly when the random source or a write of its bytes does, else writes magic, head 0, id and exactly the bytes filled |
| Keys.Key.CloseFile | src/key.c:111-123 | leaves the file with the head saved, and the key closed |
| Keys.Key.SeekHead | src/key.c:124-128 | the new state is that of `Seek` |
| Keys.Key.TakeBlock | src/key.c:193-209 | the next key bytes, short at the end of the file, with head and position moved |
| Keys.Key.EncryptInPlace | src/key.c:210-225 | the message's bytes from an index on are those of `Encrypt` and those before are unchanged |
| Bytes.MaskCancels | src/key.c:219-222 | encrypting twice with the same pad gives the text back |
| Bytes.XorBitsAt | src/key.c:221 | a bit of the XOR of two numbers is set exactly when their bits differ |
| Bytes.BigEndianRoundTrip | src/chat.c:234-237 | big-endian bytes decode to the number modulo their width |
| Bytes.BigEndianOnto | src/chat.c:285-298 | every header field decodes to a number of its width that encodes to the same bytes |
| Bytes.BigEndianAt | src/chat.c:234-237 | each byte is the digit of its place, the highest first |
| Bytes.LittleEndianRoundTrip | src/key.c:116-118 | the saved head reads back |
| Bytes.LittleEndianOnto | src/key.c:54-60 | eight bytes of a file decode to a 64-bit head and back |
| Bytes.LittleEndianAt | src/key.c:116-118 | each byte is the digit of its place, the lowest first |
| Nodes.Node.ExchangeAll | src/node.c:249-330 | for any turns of the operating system: output is a prefix of the data, input is the next bytes of the peer's stream and no more than asked for; it uses turns until it is complete, `select` fails, the socket closes or no turn is left, moves in each what that turn offers, and fails exactly when the data it was given and the bytes it wanted were not all moved by then |
| Nodes.FinishIff | src/node.c:266-320 | an exchange succeeds exactly if, before any turn that breaks it (a failing `select`, a read that comes up empty, a failing write), the turns have offered to read and write enough and the peer has sent enough; an interruption breaks nothing |
| Nodes.EnoughOffered | src/node.c:296-320 | so with no failing call, no read that comes up empty and enough offered, it succeeds |
| Nodes.Node.Send | src/node.c:211-234 | as many bytes go out as the socket takes, in order; an error closes the socket |
| Nodes.Node.Recv | src/node.c:235-248 | as many of the next bytes come in as are offered, asked for and there; none closes the socket |
| Users.KeyStore.FindRemote | src/key.c:176-191 | returns the key that `Keys.Find` names, or null |
| Users.User.Handshake | src/user.c:59-107 | against any peer: writes at most the hello and the answer to the peer's, reads at most 25 bytes and the last one after both hellos are complete, the code is told by the bytes read, success means a stored key with the peer's id; over an open socket the code is the one that the turns and the peer's stream determine |
| Users.HandshakeSucceeds | src/user.c:59-107 | a peer that is known, knows this side and sends its 25 bytes is connected to if the turns complete both exchanges |
| Connection.ProtocolBytes | src/user.c:28 | the eight bytes a handshake starts with |
| HandshakeRuns.HandshakeIsRun | src/user.c:59-107 | whatever a handshake reads, writes and returns, a run of the two-party model reads and writes the same and comes out the same |
| HandshakeRuns.ExchangeThen | src/node.c:266-320 | an exchange that moves so many bytes is a run of read and write steps |
| Users.User.Agree | src/user.c:84-106 | the second exchange: refused by the peer before unknown peer before success |
| Users.User.FinishConnect | src/user.c:108-123 | fails exactly on a socket error, a closed socket or a handshake that does not return 0; success means connected with the same socket and the stored key of the peer's id; a failing handshake closes the socket, an error before it changes nothing |
| Users.User.Accept | src/user.c:124-134 | the same for an incoming connection: fails exactly if there is none, or on a socket error, or by the handshake; an error before the handshake leaves the state as it was and the new socket in place |
| Users.User.BeginConnect | src/user.c:49-58 | connecting with the new socket and its streams, or not connected with the number that a refused attempt leaves |
| Chat.ChatState.BeginSend | src/chat.c:226-252 | new state of the endpoint is that of `Endpoints.BeginSend`: any unsent frame replaced, payload encrypted in place behind the header |
| Chat.ChatState.HandleSend | src/chat.c:322-340 | of the frame's next bytes as many go to the wire as the socket takes, an error closes it, and the endpoint is that of `Endpoints.Flush` |
| Chat.ChatState.HandleRecv | src/chat.c:264-321 | takes as many bytes as are offered, there, and fit the frame part being received; the endpoint is that of `Endpoints.Take` for them, the view shows the message if one is complete; none means the connection is closed; without a key nothing but the buffer's start changes |
| Chat.ChatState.ReadHeader | src/chat.c:281-303 | a complete header moves the key to the head it names and makes room for the payload of its size |
| Chat.ChatState.CompleteFrame | src/chat.c:281-319 | a full buffer grows after a header, or is decrypted and shown; without enough key a status line is shown instead and the buffer stays |
| Chat.ChatState.HandleMessage | src/chat.c:253-263 | the decrypted payload is appended to the history and the buffer freed |
| Chat.ChatState.SayLine | src/ui.c:143-153 | a typed line is shown, then sent, and a status line shown if the key runs out |
| Endpoints.SayTexts | src/chat.c:246-250 | a line adds its text to the local ones, and a status text exactly when the key runs out |
| Endpoints.TakeTexts | src/chat.c:312-318 | received bytes add the text they complete to the remote ones, and a status text exactly when the key runs out |
| EventLoop.Run | src/chat.c:341-444 | for any turns: the loop ends after `/quit`, a failing `select` or the last turn and not before; in every turn a connected user has a key of the store, and the receive handler runs without a key, if at all, only while waiting for connections with the listening socket's number on the remote user's socket |
| EventLoop.ServedWithoutKey | src/chat.c:386-399 | an input for that: listening ended, a connection refused at once, listening again on the number it left behind, an incoming connection |
| EventLoop.TakeTurn | src/chat.c:348-441 | for any outcome of `select`, call results and command: an interruption lays out the screen again, a failure changes nothing; the receive handler runs exactly when the remote user's number is watched and ready, be it as the listening socket's; the rest by the state of the user, as in the next three |
| EventLoop.TurnConnected | src/chat.c:396-440 | a connected user: takes in exactly the bytes that the socket and the buffer allow, then sends those that the socket takes, then obeys the command; what is received, sent, shown and left of the streams is told by the events; a lost connection is reported and the key forgotten |
| EventLoop.TurnDialing | src/chat.c:400-414 | a connecting user whose socket is writable is connected exactly if there is no socket error and the handshake returns 0, with the key of the peer's id, 25 bytes off the stream and buffers as they were, and is told so; otherwise gives up, loses the key and is told; if the socket is not writable nothing changes but by the command |
| EventLoop.TurnWaiting | src/chat.c:386-430 | an unconnected user whose listening socket is ready is connected exactly if a connection is there, its number is not the one taken for the remote user's, there is no socket error and the handshake returns 0; is told either way; if it is not ready nothing changes but by the command |
| EventLoop.StaysConnectedIff | src/chat.c:396-440 | a user stays connected exactly when the turn met no error, received something if it tried to, and did not take the socket for the listening one |
| EventLoop.TurnSpoken | src/chat.c:396-434 | the endpoint of one who stays connected: bytes taken in, the next ones sent, the line said |
| EventLoop.TurnIsRun | src/chat.c:396-434 | that is a run of the two-party model, with the same bytes off and onto the channels |
| EventLoop.ServeUser | src/chat.c:396-430 | the sockets of a connected user: endpoint, streams, socket and key after receiving, sending and a failing accept on the same number |
| EventLoop.ServeWaiting | src/chat.c:396-430 | those of an unconnected user: a receive on the listening socket's number closes it and makes accepting fail |
| EventLoop.AcceptConnection | src/chat.c:420-430 | accepting fails where the number also stands for the remote user's socket, and succeeds or fails with the handshake otherwise; the user is told |
| EventLoop.WriteRemote | src/chat.c:400-419 | a connected user's next frame bytes go out as the socket takes them and nothing else changes; a connecting user is connected or gives up, as the handshake says |
| EventLoop.ReadRemote | src/chat.c:396-399 | the endpoint of a connected user takes in exactly the bytes that are offered, there and asked for; of any other, nothing is received and the socket is closed |
| EventLoop.FinishConnecting | src/chat.c:402-414 | connected exactly if there is no socket error and the handshake returns 0; otherwise not connected, closed and without a key; told either way |
| EventLoop.CheckRemote | src/chat.c:435-440 | a connected user with a closed or failed socket is disconnected, told, and loses the key, and nothing else changes otherwise |
| EventLoop.Conclude | src/chat.c:431-440 | the command and that check: link, key, listening socket, history and endpoint afterwards |
| Commands.Obey | src/ui.c:132-161 | any command: what it makes of the link, the listening socket, the streams, the history and the endpoint of a user who stays connected; only `/quit` ends the loop, only a line is sent |
| Commands.ObeyCalmly | src/ui.c:143-227 | a line is shown and sent exactly if the user is connected; the scroll keys move the view as `Scroll.Up` and `Scroll.Down` say |
| Commands.BeginConnect | src/chat.c:103-120 | connecting with the new socket, or not connected with the number of a refused one left behind; the status line says which |
| Commands.DisconnectUser | src/chat.c:135-151 | disconnects and says so exactly if there was a connection or an attempt |
| Commands.BeginListen | src/chat.c:121-134 | the old listening socket is replaced, and the status line says whether by one |
| Commands.EndListening | src/chat.c:152-159 | closes the listening socket and says so exactly if there was one |
| Text.NextChar | src/ui.c:37-51 | for any bytes: the offset to the first character start behind the cursor, or the end of the decodable text |
| Text.PrevChar | src/ui.c:52-68 | for any bytes: the offset to the last character start before the cursor |
| Text.CountChars | src/ui.c:69-82 | the number of characters of the decodable prefix |
| Text.CountBytes | src/ui.c:83-102 | for any bytes and any start: the end of the next characters that start there or behind, less the start |
| Text.CharsOf | src/ui.c:42-49 | characters put end to end decode to themselves |
| Text.CharsArePrefix | src/ui.c:74-80 | what is decoded is a prefix of the text, followed by nothing decodable |
| Text.CharLengthIff | src/ui.c:42-49 | the front of a text is a character exactly when it is the UTF-8 encoding of a code point, and then it is that one; so null bytes, overlong forms, surrogates and numbers beyond 0x10FFFF are none |
| Text.CharIsEncoded | src/ui.c:42-49 | every character is the encoding of its code point |
| Text.EncodedIsChar | src/ui.c:42-49 | every encoding of a code point is a character, and has that code point |
| Text.DrawText | src/ui.c:269-298 | prints the rows of the wrapped lines, without those above the screen |
| Text.RowsAt | src/ui.c:282-296 | each line on or below row 0 is drawn once, in its place |
| Text.RowShows | src/ui.c:284-295 | the bytes a row prints are exactly the characters of its line |
| Text.RowsTile | src/ui.c:276-296 | what the rows print, put end to end, is exactly the decodable prefix of the text, from the first line on the screen on |
| Text.RowsPrint | src/ui.c:282-296 | so for the first lines: they print the characters up to the end of the last of them |
| Text.LineCounts | src/ui.c:282-296 | counting `width` characters from the start of a line gives the bytes of that line |
| Text.LineLengths | src/ui.c:103-107 | all lines but the last have `width` characters, the last at least one |
| Text.CharPlace | src/ui.c:447-451 | character c is character c % width of line c / width, where the cursor is put |
| Text.CursorCounts | src/ui.c:447-450 | counting the bytes before the cursor gives the characters before it |
| Text.CursorRow | src/ui.c:396-401 | the cursor's row is inside the input box exactly unless it stands behind a full last line |
| Editor.EditingRefinesZipper | src/ui.c:162-235 | for any strokes of whole characters and editing keys, buffer and byte cursor encode the characters before and after a cursor between characters |
| Editor.StrokeRefines | src/ui.c:162-235 | one stroke does so |
| Editor.TypeThenBackspace | src/ui.c:177-194 | typing a character and Backspace restores the line |
| Editor.PressWithin | src/ui.c:162-235 | for any bytes and keys the cursor stays within the text |
| Editor.InputLine.Insert | src/ui.c:162-176 | makes room in a grown buffer and puts the byte at the cursor |
| Editor.InputLine.Erase | src/ui.c:177-194 | removes the bytes from the previous character start to the cursor |
| Editor.InputLine.Handle | src/ui.c:162-235 | every editing branch does to the buffer what `Press` says |
| Scroll.PushAnchors | src/chat.c:76-79 | for any push: a message stays on its row if and only if the view is scrolled back and, should the scrollbar come up, the messages from it on take the same lines in one column less |
| Scroll.ScrolledBackStays | src/chat.c:76-79 | a scrolled-back view within the history stays in place whatever message comes |
| Scroll.ScrollbarMoves | src/ui.c:403-409 | an input that moves a scrolled-back view: the terminal has grown, and the new message brings up the scrollbar |
| Scroll.SameLinesFrom | src/ui.c:112-121 | messages together take as many lines in a narrower box if and only if each of them does |
| Scroll.ScrollbarStays | src/ui.c:403-409 | a new message changes the width if and only if the history fitted without it and does not with it; the scrollbar never goes away |
| Scroll.LayoutFills | src/ui.c:396-409 | history, input rows and the two rows between fill the screen; a column goes to the scrollbar exactly when the history does not fit |
| Scroll.BottomStays | src/ui.c:221-227 | at the bottom, scrolling forward does nothing and a new message ends on the last row of the box; scrolled back, the view moves by one line or by the message's lines |
| Scroll.UpThenDown | src/ui.c:213-227 | for any box: scrolling back moves every message one row down, only while there are lines above, and scrolling forward undoes it |
| Scroll.ScrollInBounds | src/ui.c:213-227 | scrolling and new messages never move the view past the first message |
| Scroll.MessagesTile | src/ui.c:299-310 | messages take contiguous rows, together as many as the history has lines |
| Scroll.DrawnExactly | src/ui.c:304-328 | the messages drawn are exactly those that reach the box, each on its row |
| Scroll.NarrowerIsLonger | src/ui.c:408-409 | making room for the scrollbar never makes the history shorter |
| Scroll.HistoryView.DrawHistory | src/ui.c:299-329 | the loop draws the messages of `DrawnFrom` |
| Scroll.HistoryView.CountLines | src/ui.c:112-121 | the number of lines of the history |
| Scroll.HistoryView.PushMessage | src/chat.c:61-82 | appends the message, moves the scrolled view by its lines, lays out again |
| Scroll.HistoryView.KeyUp | src/ui.c:213-220 | one line back unless the first line is at the top |
| Scroll.HistoryView.KeyDown | src/ui.c:221-227 | one line forward unless at the bottom |

## Left out

- Socket setup, address resolution and `errno`: a descriptor is a number that the system chooses, receiving from a listening socket and accepting on any other fail, and a test of descriptor -1 for readiness, which C leaves undefined, is false.
- Wall-clock time: the time left of a handshake's timeout is not computed; running out of time is a failure that may happen at any iteration.
- Guarantees.EndToEndDelivery: is per connection, from clean buffers. A disconnect keeps partly sent and partly received frames, and the next connection starts with them; nothing is claimed for it.
- KeyLife.PadUsedOnceIff: sessions follow one another; two programs that use one local key file at the same time are not modelled.
- Keys.Key.SeekHead: a file system that limits offsets below 2^63 refuses some seeks that succeed here; the position then stays.
- Nodes.Node.Send: a send to a connection that the peer has reset may raise a signal that ends the program, as none is caught; here it is an error. What that means for the key file is in `KeyLife.PadUsedOnceIff`.
- Keys.Key.OpenFile: a failed open leaves the key without a stream; in the program the closed stream's pointer stays behind. A key file opened twice at once is two separate files here.
- Keys.Key.Create: writes of the 32 bytes in front succeed, as the program does not check them; a read of the random source that returns an error code rather than no bytes is not modelled: C leaves undefined what the program then does.
- Text.CountBytes: the result is a difference of unbounded numbers; where it is negative, the program's wraps at 2^64.
- Text.CountChars: `mblen` is that of a UTF-8 locale, by section 4 of RFC 3629; other locales are not modelled.
- Scroll.HistoryView.CountLines: line counts are unbounded numbers, not 32-bit ones.
- Memory management, `realloc` and `malloc` failures, ncurses drawing, colours, the scrollbar's and the key usage bar's floating-point sizes, timestamps and names.
- Command-line and command parsing with its complaints, the listening or connecting with which the program starts, addresses, and the text of formatted status lines beyond their fixed part.
- Secrecy: nothing is claimed about what an observer learns.
