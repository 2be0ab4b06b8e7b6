/** Two programs at the ends of one connection: the handshake of src/user.c, then the frames of
    src/chat.c, over byte channels that move any number of bytes at a time. */
module Connection {
  import opened Bytes
  import opened Keys
  import opened Frames
  import opened Pads
  import opened Endpoints
  import opened Nodes

  const PROTOCOL := Ascii("OTPCHAT0")
  const ID_SIZE := 16
  const HELLO_SIZE := 24
  const HANDSHAKE_SIZE := 25

  lemma ProtocolBytes()
    ensures PROTOCOL == [0x4F, 0x54, 0x50, 0x43, 0x48, 0x41, 0x54, 0x30]
  {
    var s := "OTPCHAT0";
    assert s == ['O', 'T', 'P', 'C', 'H', 'A', 'T', '0'];
  }

  // ----- One party

  /** Inside one of the two exchanges of `user_handshake`; connected; back from the handshake with
      a failure code; or no longer connected. */
  datatype Phase = Hello | Accept | Connected | Returned(code: nat) | Dropped

  datatype Party = Party(
    remotes: seq<KeyState>,      // the key store's remote keys
    phase: Phase,
    exchange: Exchange,
    found: Option<nat>,          // u->key, as an index into the store
    chat: Endpoint,
    // what the connection has seen so far
    before: seq<Message>,        // the history when the connection began
    input: seq<byte>,            // every byte read from the peer
    output: seq<byte>,           // every byte handed to the network
    accept: seq<byte>,           // the accept byte, once decided
    said: seq<seq<byte>>,        // every line said
    orderly: bool,               // each of them when `InTurn`
    patient: bool)               // each of them when `Patient`

  function HelloOf(id: seq<byte>): seq<byte> {
    PROTOCOL + id
  }

  /** A party about to start the handshake with clean buffers. */
  function Fresh(local: KeyState, remotes: seq<KeyState>, history: seq<Message>): Party {
    Party(remotes, Hello, Exchange(HelloOf(local.id), [], HELLO_SIZE), None,
          Endpoint(local, local, [], 0, EMPTY, history), history, [], [], [], [], true, true)
  }

  /** The sizes of the two exchanges, and the stored key within the store. No frame is begun before
      the handshake is over. */
  predicate Steady(p: Party) {
    && WellFormed(p.chat)
    && (p.phase == Hello ==> |p.exchange.got| + p.exchange.need == HELLO_SIZE && p.chat.sending == [])
    && (p.phase == Accept ==> |p.exchange.got| + p.exchange.need == 1 && p.chat.sending == [])
    && (p.found.Some? ==> p.found.value < |p.remotes|)
  }

  /** The code of `user_handshake` after each exchange. */
  function Advance(p: Party): (r: Party)
    requires Steady(p)
    ensures Steady(r)
  {
    if !Done(p.exchange) then p
    else if p.phase == Hello then
      if p.exchange.got[..8] != PROTOCOL then p.(phase := Returned(1))
      else
        var found := Find(p.remotes, p.exchange.got[8..]);
        var accept: seq<byte> := [if found.Some? then 1 else 0];
        p.(phase := Accept, found := found, accept := accept, exchange := Exchange(accept, [], 1))
    else if p.phase == Accept then
      if p.exchange.got[0] == 0 then p.(phase := Returned(2))
      else if p.found.None? then p.(phase := Returned(3))
      else p.(phase := Connected, chat := p.chat.(remote := p.remotes[p.found.value]))
    else p
  }

  /** The result of a handshake by the bytes read from the peer: not this protocol, refused by the
      peer, unknown peer, or success; 4 when they do not suffice to tell. */
  function Judge(keys: seq<KeyState>, input: seq<byte>): nat {
    if |input| < HELLO_SIZE then 4
    else if input[..8] != PROTOCOL then 1
    else if |input| < HANDSHAKE_SIZE then 4
    else if input[HELLO_SIZE] == 0 then 2
    else if Find(keys, input[8..HELLO_SIZE]).None? then 3
    else 0
  }

  predicate InHandshake(p: Party) {
    p.phase == Hello || p.phase == Accept
  }

  function Pending(p: Party): seq<byte> {
    if p.phase == Connected || p.phase == Dropped then Unsent(p.chat) else p.exchange.out
  }

  /** How many bytes the party asks its socket for. */
  function Appetite(p: Party): int {
    if InHandshake(p) then p.exchange.need
    else if p.phase == Connected then Room(p.chat.buffer)
    else 0
  }

  /** What a party does next: read or write `n` bytes, send a line, or lose the connection (an
      error or a timeout, at any moment). */
  datatype Act = Read(n: nat) | Write(n: nat) | Talk(payload: seq<byte>) | Break

  /** `inward` and `outward` are the bytes in flight to and from the party. */
  predicate CanAct(p: Party, inward: seq<byte>, outward: seq<byte>, capacity: nat, act: Act) {
    match act
    case Read(n) => 0 < n <= |inward| && n <= Appetite(p)
    case Write(n) =>
      (InHandshake(p) || p.phase == Connected) && 0 < n <= |Pending(p)| && |outward| + n <= capacity
    case Talk(payload) => p.phase == Connected
    case Break => InHandshake(p) || p.phase == Connected
  }

  function ReadBytes(p: Party, chunk: seq<byte>): Party
    requires Steady(p) && |chunk| <= Appetite(p)
  {
    var q := p.(input := p.input + chunk);
    if InHandshake(p) then
      Advance(q.(exchange := Get(q.exchange, chunk)))
    else if p.phase == Connected then q.(chat := Take(q.chat, chunk))
    else q
  }

  function WriteBytes(p: Party, n: nat): Party
    requires Steady(p) && n <= |Pending(p)|
  {
    var q := p.(output := p.output + Pending(p)[..n]);
    if InHandshake(p) then Advance(q.(exchange := Put(q.exchange, n)))
    else if p.phase == Connected then q.(chat := Flush(q.chat, n))
    else q
  }

  /** Nothing of the line before is unsent, and the size fits. The program does not check this. */
  predicate Patient(e: Endpoint, payload: seq<byte>) {
    e.sending == [] && |payload| < TWO32
  }

  /** The line can arrive: it is moreover not empty, and there is key for it. */
  predicate InTurn(e: Endpoint, payload: seq<byte>) {
    Patient(e, payload) && 1 <= |payload| && Enough(e.local, |payload|)
  }

  function SayLine(p: Party, payload: seq<byte>): Party {
    p.(chat := Say(p.chat, payload), said := p.said + [payload],
       orderly := p.orderly && InTurn(p.chat, payload), patient := p.patient && Patient(p.chat, payload))
  }

  function Lose(p: Party): Party {
    p.(phase := if p.phase == Connected then Dropped else Returned(4))
  }

  // ----- Both parties

  datatype World = World(a: Party, b: Party, ab: seq<byte>, ba: seq<byte>)

  function Mirror(w: World): World {
    World(w.b, w.a, w.ba, w.ab)
  }

  datatype Move = Move(byA: bool, act: Act)

  predicate CanMoveA(w: World, capacity: nat, act: Act) {
    Steady(w.a) && CanAct(w.a, w.ba, w.ab, capacity, act)
  }

  function MoveA(w: World, capacity: nat, act: Act): World
    requires CanMoveA(w, capacity, act)
  {
    match act
    case Read(n) => w.(a := ReadBytes(w.a, w.ba[..n]), ba := w.ba[n..])
    case Write(n) => w.(a := WriteBytes(w.a, n), ab := w.ab + Pending(w.a)[..n])
    case Talk(payload) => w.(a := SayLine(w.a, payload))
    case Break => w.(a := Lose(w.a))
  }

  predicate CanMove(w: World, capacity: nat, m: Move) {
    CanMoveA(if m.byA then w else Mirror(w), capacity, m.act)
  }

  function Next(w: World, capacity: nat, m: Move): World
    requires CanMove(w, capacity, m)
  {
    if m.byA then MoveA(w, capacity, m.act) else Mirror(MoveA(Mirror(w), capacity, m.act))
  }

  predicate IsRun(w: World, capacity: nat, moves: seq<Move>)
    decreases |moves|
  {
    moves != [] ==> CanMove(w, capacity, moves[0]) && IsRun(Next(w, capacity, moves[0]), capacity, moves[1..])
  }

  function Final(w: World, capacity: nat, moves: seq<Move>): World
    requires IsRun(w, capacity, moves)
    decreases |moves|
  {
    if moves == [] then w else Final(Next(w, capacity, moves[0]), capacity, moves[1..])
  }

  // ----- The invariant

  /** How far the handshake is, told by the bytes read and written. */
  predicate Shape(p: Party) {
    var hello := HelloOf(p.chat.local.id);
    && |p.chat.local.id| == ID_SIZE
    && |p.accept| <= 1
    && (p.accept != [] ==>
         && |p.input| >= HELLO_SIZE && p.input[..8] == PROTOCOL
         && p.found == Find(p.remotes, p.input[8..HELLO_SIZE])
         && p.accept == [if p.found.Some? then 1 else 0])
    && match p.phase
       case Hello =>
         && p.accept == [] && p.output + p.exchange.out == hello
         && p.exchange.got == p.input && |p.input| + p.exchange.need == HELLO_SIZE
       case Accept =>
         && p.accept != [] && p.output + p.exchange.out == hello + p.accept
         && p.exchange.got == p.input[HELLO_SIZE..] && |p.input| + p.exchange.need == HANDSHAKE_SIZE
       case Returned(code) =>
         (match code
          case 1 => p.accept == [] && |p.input| == HELLO_SIZE && p.input[..8] != PROTOCOL && p.output == hello
          case 2 =>
            && p.accept != [] && p.output == hello + p.accept
            && |p.input| == HANDSHAKE_SIZE && p.input[HELLO_SIZE] == 0
          case 3 =>
            && p.accept == [0] && p.output == hello + p.accept
            && |p.input| == HANDSHAKE_SIZE && p.input[HELLO_SIZE] != 0
          case _ => code == 4 && |p.input| <= HELLO_SIZE + |p.accept| && p.output <= hello + p.accept)
       case _ =>
         && p.accept == [1] && |p.input| >= HANDSHAKE_SIZE && p.input[HELLO_SIZE] != 0
         && hello + p.accept <= p.output
  }

  predicate Talking(p: Party) {
    p.phase == Connected || p.phase == Dropped
  }

  /** The frames the party has sent or is about to send, as far as they were not dropped. */
  function FramesOut(p: Party): seq<byte> {
    if |p.output| < HANDSHAKE_SIZE then [] else p.output[HANDSHAKE_SIZE..] + Unsent(p.chat)
  }

  /** What the party sends: whoever reads it with a copy of the key finds what was said exactly when
      each line was said in turn, and finds no more than a prefix if each was said patiently. And what
      was said is what its history shows. */
  ghost predicate Sends(p: Party) {
    && Coherent(p.chat.local)
    && |FramesOut(p)| <= FramesLength(p.said)
    && (forall copy: seq<byte>, pos: nat | SamePad(p.chat.local.stream.bytes, copy) ::
          && (Parse(copy, pos, FramesOut(p)).texts == p.said <==> p.orderly)
          && (p.patient ==> Halted(Parse(copy, pos, FramesOut(p)), p.said)))
    && Texts(p.chat.history, Local) == Texts(p.before, Local) + p.said
  }

  /** What the party received: its buffer and key stand where the parse of its input does. */
  predicate Receives(p: Party) {
    && Steady(p)
    && if Talking(p) then
         && p.found.Some? && p.found.value < |p.remotes| && |p.input| >= HANDSHAKE_SIZE
         && var key := p.remotes[p.found.value];
         && var parsed := Parse(key.stream.bytes, key.stream.pos, p.input[HANDSHAKE_SIZE..]);
         && Tracks(p.chat.buffer, p.chat.remote, key.stream.bytes, parsed)
         && Texts(p.chat.history, Remote) == Texts(p.before, Remote) + parsed.texts
       else
         && p.chat.sending == [] && p.chat.buffer == EMPTY
         && p.said == [] && p.orderly && p.patient && p.chat.history == p.before
  }

  /** Bytes are neither lost nor reordered nor invented between sender `s` and receiver `r`. */
  predicate Conserved(s: Party, r: Party, wire: seq<byte>) {
    r.input + wire == s.output
  }

  /** Keys of equal id are copies of the same pad. */
  predicate SharedPads(p: Party, q: Party) {
    forall i :: 0 <= i < |p.remotes| && p.remotes[i].id == q.chat.local.id ==>
      SamePad(q.chat.local.stream.bytes, p.remotes[i].stream.bytes)
  }

  ghost predicate PartyOk(p: Party) {
    Shape(p) && Sends(p) && Receives(p) && (InHandshake(p) ==> !Done(p.exchange))
  }

  ghost predicate Inv(w: World) {
    && PartyOk(w.a) && PartyOk(w.b)
    && SharedPads(w.a, w.b) && SharedPads(w.b, w.a)
    && Conserved(w.a, w.b, w.ab) && Conserved(w.b, w.a, w.ba)
  }

  lemma Steadies(w: World)
    requires Inv(w)
    ensures Inv(Mirror(w)) && Steady(w.a) && Steady(w.b)
  {
  }

  // ----- Every step keeps it

  /** Who neither says anything nor drops any byte of a frame sends what was sent before. */
  lemma SendsStill(p: Party, q: Party)
    requires Sends(p) && FramesOut(q) == FramesOut(p) && q.said == p.said
    requires q.orderly == p.orderly && q.patient == p.patient
    requires q.chat.local == p.chat.local && q.before == p.before
    requires Texts(q.chat.history, Local) == Texts(p.chat.history, Local)
    ensures Sends(q)
  {
  }

  lemma AdvanceShape(p: Party)
    requires Shape(p) && Receives(p) && InHandshake(p)
    ensures Shape(Advance(p))
  {
    if Done(p.exchange) {
      assert p.output + [] == p.output;
      if p.phase == Hello {
        assert p.input[8..] == p.input[8..HELLO_SIZE];
      } else {
        assert p.exchange.got[0] == p.input[HELLO_SIZE];
      }
    }
  }

  lemma AdvanceReceives(p: Party)
    requires Shape(p) && Receives(p) && InHandshake(p)
    ensures Receives(Advance(p))
  {
    if Advance(p).phase == Connected {
      var key := p.remotes[p.found.value];
      assert p.input[HANDSHAKE_SIZE..] == [];
      NothingParses(key.stream.bytes, key.stream.pos);
    }
  }

  lemma AdvanceFrame(p: Party)
    requires Steady(p) && InHandshake(p)
    ensures var q := Advance(p);
      && q.output == p.output && q.input == p.input && q.said == p.said
      && q.orderly == p.orderly && q.patient == p.patient
      && q.chat == p.chat.(remote := q.chat.remote) && q.before == p.before
      && (InHandshake(q) ==> !Done(q.exchange))
  {
  }

  /** The code after each exchange writes nothing and shows nothing. */
  lemma AdvanceKeeps(p: Party)
    requires Shape(p) && Sends(p) && Receives(p) && InHandshake(p)
    ensures PartyOk(Advance(p))
    ensures Advance(p).output == p.output && Advance(p).input == p.input
  {
    AdvanceShape(p);
    AdvanceReceives(p);
    AdvanceFrame(p);
    SendsStill(p, Advance(p));
  }

  lemma HandshakeReadKeeps(p: Party, chunk: seq<byte>)
    requires PartyOk(p) && InHandshake(p) && 0 < |chunk| <= Appetite(p)
    ensures PartyOk(ReadBytes(p, chunk))
    ensures ReadBytes(p, chunk).output == p.output && ReadBytes(p, chunk).input == p.input + chunk
  {
    var q := p.(input := p.input + chunk, exchange := Get(p.exchange, chunk));
    SendsStill(p, q);
    AdvanceKeeps(q);
  }

  lemma HandshakePart(input: seq<byte>, chunk: seq<byte>)
    requires |input| >= HANDSHAKE_SIZE
    ensures (input + chunk)[..8] == input[..8] && (input + chunk)[8..HELLO_SIZE] == input[8..HELLO_SIZE]
    ensures (input + chunk)[HELLO_SIZE] == input[HELLO_SIZE]
    ensures (input + chunk)[HANDSHAKE_SIZE..] == input[HANDSHAKE_SIZE..] + chunk
  {
  }

  lemma ConnectedReadShape(p: Party, chunk: seq<byte>)
    requires Shape(p) && Steady(p) && p.phase == Connected && |chunk| <= Appetite(p)
    ensures Shape(ReadBytes(p, chunk))
  {
    HandshakePart(p.input, chunk);
  }

  /** An endpoint that stands where the parse of the frames taken so far stands, still does after
      taking more bytes. `prior` are the texts shown before those of the frames. */
  lemma TakeTracks(e: Endpoint, prior: seq<seq<byte>>, file: seq<byte>, pos: nat, taken: seq<byte>, chunk: seq<byte>)
    requires WellFormed(e) && 0 < |chunk| <= Room(e.buffer)
    requires Tracks(e.buffer, e.remote, file, Parse(file, pos, taken))
    requires Texts(e.history, Remote) == prior + Parse(file, pos, taken).texts
    ensures var f := Take(e, chunk);
      && Tracks(f.buffer, f.remote, file, Parse(file, pos, taken + chunk))
      && Texts(f.history, Remote) == prior + Parse(file, pos, taken + chunk).texts
  {
    TakeTexts(e, chunk);
    ReceiveTracks(e.buffer, e.remote, file, pos, taken, chunk);
    Assoc(prior, Parse(file, pos, taken).texts, TextsOf(Receive(e.buffer, e.remote, chunk).event));
  }

  lemma ConnectedReadReceives(p: Party, chunk: seq<byte>)
    requires Receives(p) && p.phase == Connected && 0 < |chunk| <= Appetite(p)
    ensures Receives(ReadBytes(p, chunk))
  {
    var key := p.remotes[p.found.value];
    HandshakePart(p.input, chunk);
    TakeTracks(p.chat, Texts(p.before, Remote), key.stream.bytes, key.stream.pos, p.input[HANDSHAKE_SIZE..], chunk);
  }

  lemma ConnectedReadKeeps(p: Party, chunk: seq<byte>)
    requires PartyOk(p) && p.phase == Connected && 0 < |chunk| <= Appetite(p)
    ensures PartyOk(ReadBytes(p, chunk))
  {
    var q := ReadBytes(p, chunk);
    ConnectedReadShape(p, chunk);
    ConnectedReadReceives(p, chunk);
    TakeTexts(p.chat, chunk);
    SendsStill(p, q);
  }

  lemma HandshakeWriteKeeps(p: Party, n: nat)
    requires PartyOk(p) && InHandshake(p) && n <= |Pending(p)|
    ensures PartyOk(WriteBytes(p, n))
    ensures WriteBytes(p, n).output == p.output + Pending(p)[..n] && WriteBytes(p, n).input == p.input
  {
    var q := p.(output := p.output + Pending(p)[..n], exchange := Put(p.exchange, n));
    assert Pending(p) == Pending(p)[..n] + Pending(p)[n..];
    Assoc(p.output, Pending(p)[..n], Pending(p)[n..]);
    assert FramesOut(q) == [] && FramesOut(p) == [];
    SendsStill(p, q);
    AdvanceKeeps(q);
  }

  lemma MoveOver(a: seq<byte>, b: seq<byte>, n: nat, k: nat)
    requires k <= |a| && n <= |b|
    ensures (a + b[..n])[k..] + b[n..] == a[k..] + b
  {
  }

  lemma FramesOutKept(p: Party, n: nat)
    requires Steady(p) && p.phase == Connected && n <= |Pending(p)| && |p.output| >= HANDSHAKE_SIZE
    ensures FramesOut(WriteBytes(p, n)) == FramesOut(p)
  {
    MoveOver(p.output, Pending(p), n, HANDSHAKE_SIZE);
  }

  lemma ConnectedWriteShape(p: Party, n: nat)
    requires Shape(p) && Steady(p) && p.phase == Connected && n <= |Pending(p)|
    ensures Shape(WriteBytes(p, n))
  {
    var hello := HelloOf(p.chat.local.id) + p.accept;
    assert p.output == hello + p.output[|hello|..];
    Assoc(hello, p.output[|hello|..], Pending(p)[..n]);
  }

  /** They differ at most in the frame to send and the bytes written. */
  predicate SameButSending(p: Party, q: Party) {
    q == p.(output := q.output, chat := p.chat.(sending := q.chat.sending, sent := q.chat.sent))
  }

  lemma WriteFrame(p: Party, n: nat)
    requires Steady(p) && p.phase == Connected && n <= |Pending(p)|
    ensures SameButSending(p, WriteBytes(p, n)) && Steady(WriteBytes(p, n))
  {
  }

  lemma StillOk(p: Party, q: Party)
    requires PartyOk(p) && p.phase == Connected && SameButSending(p, q)
    requires Shape(q) && Steady(q) && FramesOut(q) == FramesOut(p)
    ensures PartyOk(q)
  {
    SendsStill(p, q);
    assert Receives(q);
  }

  /** Writing bytes of a frame changes nothing about what is sent or received. */
  lemma ConnectedWriteKeeps(p: Party, n: nat)
    requires PartyOk(p) && p.phase == Connected && n <= |Pending(p)|
    ensures PartyOk(WriteBytes(p, n))
  {
    WriteFrame(p, n);
    ConnectedWriteShape(p, n);
    FramesOutKept(p, n);
    StillOk(p, WriteBytes(p, n));
  }

  /** What one more line means to a reader of the frames. */
  lemma TalkReads(p: Party, payload: seq<byte>, copy: seq<byte>, pos: nat)
    requires Sends(p) && Steady(p) && |p.output| >= HANDSHAKE_SIZE && SamePad(p.chat.local.stream.bytes, copy)
    ensures var q, t := SayLine(p, payload), Parse(copy, pos, FramesOut(SayLine(p, payload)));
      && (t.texts == q.said <==> q.orderly)
      && (q.patient ==> Halted(t, q.said))
  {
    var gone := p.output[HANDSHAKE_SIZE..];
    NewFrameArrivesIff(p.chat.local, p.said, gone, Unsent(p.chat), payload, copy, pos);
    if p.patient && Patient(p.chat, payload) {
      assert gone + Unsent(p.chat) == gone;
      HaltedNext(p.chat.local, payload, gone, p.said, copy, pos);
    }
  }

  lemma TalkSends(p: Party, payload: seq<byte>)
    requires Sends(p) && Steady(p) && |p.output| >= HANDSHAKE_SIZE
    ensures Sends(SayLine(p, payload))
  {
    var q := SayLine(p, payload);
    EncryptCoherent(p.chat.local, payload);
    SayTexts(p.chat, payload);
    Assoc(Texts(p.before, Local), p.said, [payload]);
    FramesLengthJoin(p.said, [payload]);
    forall copy: seq<byte>, pos: nat | SamePad(p.chat.local.stream.bytes, copy)
      ensures Parse(copy, pos, FramesOut(q)).texts == q.said <==> q.orderly
      ensures q.patient ==> Halted(Parse(copy, pos, FramesOut(q)), q.said)
    {
      TalkReads(p, payload, copy, pos);
    }
  }

  lemma TalkKeeps(p: Party, payload: seq<byte>)
    requires PartyOk(p) && p.phase == Connected
    ensures PartyOk(SayLine(p, payload))
  {
    TalkSends(p, payload);
    SayTexts(p.chat, payload);
  }

  /** No step changes a party's stored keys, or the id and data of its own. */
  predicate SameKeys(p: Party, q: Party) {
    && q.remotes == p.remotes && q.before == p.before
    && q.chat.local.id == p.chat.local.id && q.chat.local.stream.bytes == p.chat.local.stream.bytes
  }

  lemma ReadSame(p: Party, chunk: seq<byte>)
    requires Steady(p) && |chunk| <= Appetite(p)
    ensures var q := ReadBytes(p, chunk);
      SameKeys(p, q) && q.input == p.input + chunk && q.output == p.output
  {
  }

  lemma WriteSame(p: Party, n: nat)
    requires Steady(p) && n <= |Pending(p)|
    ensures var q := WriteBytes(p, n);
      SameKeys(p, q) && q.input == p.input && q.output == p.output + Pending(p)[..n]
  {
  }

  lemma MoveAKeepsKeys(w: World, capacity: nat, act: Act)
    requires CanMoveA(w, capacity, act)
    ensures SameKeys(w.a, MoveA(w, capacity, act).a) && MoveA(w, capacity, act).b == w.b
  {
    match act
    case Read(n) => ReadSame(w.a, w.ba[..n]);
    case Write(n) => WriteSame(w.a, n);
    case _ =>
  }

  lemma ReadKeeps(p: Party, chunk: seq<byte>)
    requires PartyOk(p) && 0 < |chunk| <= Appetite(p)
    ensures PartyOk(ReadBytes(p, chunk))
  {
    if InHandshake(p) {
      HandshakeReadKeeps(p, chunk);
    } else {
      ConnectedReadKeeps(p, chunk);
    }
  }

  lemma WriteKeeps(p: Party, n: nat)
    requires PartyOk(p) && (InHandshake(p) || p.phase == Connected) && n <= |Pending(p)|
    ensures PartyOk(WriteBytes(p, n))
  {
    if InHandshake(p) {
      HandshakeWriteKeeps(p, n);
    } else {
      ConnectedWriteKeeps(p, n);
    }
  }

  lemma LoseKeeps(p: Party)
    requires PartyOk(p) && (InHandshake(p) || p.phase == Connected)
    ensures PartyOk(Lose(p))
  {
    SendsStill(p, Lose(p));
  }

  lemma MoveAKeepsParty(w: World, capacity: nat, act: Act)
    requires PartyOk(w.a) && CanMoveA(w, capacity, act)
    ensures PartyOk(MoveA(w, capacity, act).a)
  {
    match act
    case Read(n) => ReadKeeps(w.a, w.ba[..n]);
    case Write(n) => WriteKeeps(w.a, n);
    case Talk(payload) => TalkKeeps(w.a, payload);
    case Break => LoseKeeps(w.a);
  }

  /** What a party reads leaves the wire, what it writes goes onto the wire, and nothing else does. */
  lemma MoveAConserves(w: World, capacity: nat, act: Act)
    requires CanMoveA(w, capacity, act)
    requires Conserved(w.a, w.b, w.ab) && Conserved(w.b, w.a, w.ba)
    ensures var v := MoveA(w, capacity, act);
      Conserved(v.a, w.b, v.ab) && Conserved(w.b, v.a, v.ba)
  {
    match act
    case Read(n) =>
      ReadSame(w.a, w.ba[..n]);
      assert w.ba == w.ba[..n] + w.ba[n..];
      Assoc(w.a.input, w.ba[..n], w.ba[n..]);
    case Write(n) =>
      WriteSame(w.a, n);
      Assoc(w.b.input, w.ab, Pending(w.a)[..n]);
    case _ =>
  }

  lemma MoveAKeeps(w: World, capacity: nat, act: Act)
    requires Inv(w) && CanMoveA(w, capacity, act)
    ensures Inv(MoveA(w, capacity, act))
  {
    MoveAKeepsKeys(w, capacity, act);
    MoveAKeepsParty(w, capacity, act);
    MoveAConserves(w, capacity, act);
  }

  lemma NextKeeps(w: World, capacity: nat, m: Move)
    requires Inv(w) && CanMove(w, capacity, m)
    ensures Inv(Next(w, capacity, m))
  {
    Steadies(w);
    if m.byA {
      MoveAKeeps(w, capacity, m.act);
    } else {
      MoveAKeeps(Mirror(w), capacity, m.act);
      Steadies(MoveA(Mirror(w), capacity, m.act));
    }
  }

  lemma {:induction false} RunKeeps(w: World, capacity: nat, moves: seq<Move>)
    requires Inv(w) && IsRun(w, capacity, moves)
    ensures Inv(Final(w, capacity, moves))
    decreases |moves|
  {
    if moves != [] {
      NextKeeps(w, capacity, moves[0]);
      RunKeeps(Next(w, capacity, moves[0]), capacity, moves[1..]);
    }
  }

  lemma RunCons(w: World, capacity: nat, m: Move, rest: seq<Move>)
    requires CanMove(w, capacity, m) && IsRun(Next(w, capacity, m), capacity, rest)
    ensures IsRun(w, capacity, [m] + rest)
    ensures Final(w, capacity, [m] + rest) == Final(Next(w, capacity, m), capacity, rest)
  {
    assert ([m] + rest)[1..] == rest;
  }
}
