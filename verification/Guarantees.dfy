/** What holds in every run of two programs over one connection. */
module Guarantees {
  import opened Bytes
  import opened Keys
  import opened Frames
  import opened Pads
  import opened Endpoints
  import opened Nodes
  import opened Connection

  // ----- How a connection begins

  predicate Usable(local: KeyState) {
    Coherent(local) && |local.id| == ID_SIZE
  }

  /** Both parties about to start the handshake: no bytes in flight, clean buffers, and keys of the
      same id being copies of the same pad. The histories and store contents are arbitrary. */
  predicate Begins(w: World) {
    && w.ab == [] && w.ba == []
    && w.a == Fresh(w.a.chat.local, w.a.remotes, w.a.before)
    && w.b == Fresh(w.b.chat.local, w.b.remotes, w.b.before)
    && Usable(w.a.chat.local) && Usable(w.b.chat.local)
    && SharedPads(w.a, w.b) && SharedPads(w.b, w.a)
  }

  lemma FreshOk(p: Party)
    requires p == Fresh(p.chat.local, p.remotes, p.before) && Usable(p.chat.local)
    ensures PartyOk(p)
  {
    forall copy: seq<byte>, pos: nat
      ensures Parse(copy, pos, []) == Parsed([], pos, [], More)
    {
      NothingParses(copy, pos);
    }
    assert Texts(p.before, Local) + [] == Texts(p.before, Local);
  }

  lemma ReachableInv(w: World, capacity: nat, moves: seq<Move>)
    requires Begins(w) && IsRun(w, capacity, moves)
    ensures Inv(Final(w, capacity, moves))
  {
    FreshOk(w.a);
    FreshOk(w.b);
    RunKeeps(w, capacity, moves);
  }

  /** In every run, what a party has read and what is in flight to it are together what its peer has
      handed to the network: bytes are not lost, reordered or invented. */
  lemma BytesConserved(w: World, capacity: nat, moves: seq<Move>)
    requires Begins(w) && IsRun(w, capacity, moves)
    ensures var v := Final(w, capacity, moves);
      v.b.input + v.ab == v.a.output && v.a.input + v.ba == v.b.output
  {
    ReachableInv(w, capacity, moves);
  }

  // ----- Byte alignment

  /** A party first writes its hello, then its accept byte, and then its frames. */
  lemma Order(s: Party)
    requires Shape(s)
    ensures Talking(s) ==> |s.output| >= HANDSHAKE_SIZE
    ensures !Talking(s) ==> |s.output| <= HELLO_SIZE + |s.accept|
    ensures |s.output| >= HELLO_SIZE ==> s.output[..HELLO_SIZE] == HelloOf(s.chat.local.id)
    ensures |s.output| >= HANDSHAKE_SIZE ==> s.accept == [s.output[HELLO_SIZE]]
  {
    var hello := HelloOf(s.chat.local.id);
    match s.phase
    case Hello =>
    case Accept => assert s.output == (hello + s.accept)[..|s.output|];
    case Returned(_) =>
    case _ => assert s.output[..HANDSHAKE_SIZE] == hello + s.accept;
  }

  /** The first 24 bytes a party reads are the peer's hello, the next is the peer's accept byte, and
      all that follows is the peer's frames from their first byte on. */
  lemma Aligned(s: Party, r: Party, wire: seq<byte>)
    requires Shape(s) && Conserved(s, r, wire)
    ensures |r.input| >= HELLO_SIZE ==>
      && r.input[..HELLO_SIZE] == HelloOf(s.chat.local.id)
      && r.input[..8] == PROTOCOL && r.input[8..HELLO_SIZE] == s.chat.local.id
    ensures |r.input| >= HANDSHAKE_SIZE ==>
      && s.accept == [r.input[HELLO_SIZE]]
      && s.output[HANDSHAKE_SIZE..] == r.input[HANDSHAKE_SIZE..] + wire
  {
    Order(s);
    assert s.output == r.input + wire;
    if |r.input| >= HELLO_SIZE {
      var hello := HelloOf(s.chat.local.id);
      assert r.input[..HELLO_SIZE] == s.output[..HELLO_SIZE] == hello;
      assert r.input[..8] == hello[..8] && r.input[8..HELLO_SIZE] == hello[8..];
      assert hello[..8] == PROTOCOL && hello[8..] == s.chat.local.id;
    }
  }

  // ----- Handshake agreement

  predicate Knows(p: Party, q: Party) {
    exists i :: 0 <= i < |p.remotes| && p.remotes[i].id == q.chat.local.id
  }

  /** A party of the model comes out of the handshake with the code that the bytes it read determine,
      as the program's handshake does. */
  lemma JudgedByInput(p: Party)
    requires Shape(p)
    ensures Talking(p) ==> Judge(p.remotes, p.input) == 0
    ensures p.phase.Returned? && p.phase.code != 4 ==> Judge(p.remotes, p.input) == p.phase.code
  {
  }

  /** What `user_handshake` of `p` must return against `q` when nothing breaks. */
  function Verdict(p: Party, q: Party): nat {
    if !Knows(q, p) then 2 else if !Knows(p, q) then 3 else 0
  }

  lemma PartyVerdict(p: Party, q: Party, pq: seq<byte>, qp: seq<byte>)
    requires PartyOk(p) && PartyOk(q) && Conserved(p, q, pq) && Conserved(q, p, qp)
    ensures Talking(p) ==> Verdict(p, q) == 0 && p.remotes[p.found.value].id == q.chat.local.id
    ensures p.phase.Returned? ==> p.phase.code == 4 || (p.phase.code == Verdict(p, q) && p.phase.code != 0)
  {
    Aligned(q, p, qp);
    Aligned(p, q, pq);
  }

  // ----- Delivery

  /** The texts of one author that were added to the history during the connection. */
  function During(p: Party, author: Author): seq<seq<byte>> {
    var prior, all := Texts(p.before, author), Texts(p.chat.history, author);
    if |prior| <= |all| then all[|prior|..] else []
  }

  /** The receiver asks for zero bytes, which ends the connection. */
  predicate Stuck(p: Party) {
    p.phase == Connected && Room(p.chat.buffer) == 0
  }

  /** Everything said is heard exactly when every line was said in turn and no byte is left to come. */
  predicate HeardAllIff(s: Party, r: Party, wire: seq<byte>) {
    Talking(r) ==> (During(r, Remote) == During(s, Local) <==> s.orderly && wire == [] && Unsent(s.chat) == [])
  }

  /** What the frames of a sender and the bytes a receiver took of them have to do with each other. */
  lemma TakenOf(s: Party, r: Party, wire: seq<byte>, back: seq<byte>)
    requires PartyOk(s) && PartyOk(r) && SharedPads(r, s) && Conserved(s, r, wire) && Conserved(r, s, back)
    requires Talking(r)
    ensures FramesOut(s) == r.input[HANDSHAKE_SIZE..] + (wire + Unsent(s.chat))
    ensures SamePad(s.chat.local.stream.bytes, r.remotes[r.found.value].stream.bytes)
    ensures During(s, Local) == s.said
    ensures var key := r.remotes[r.found.value];
      During(r, Remote) == Parse(key.stream.bytes, key.stream.pos, r.input[HANDSHAKE_SIZE..]).texts
  {
    Aligned(s, r, wire);
    PartyVerdict(r, s, back, wire);
    Assoc(r.input[HANDSHAKE_SIZE..], wire, Unsent(s.chat));
  }

  lemma HeardPrefix(s: Party, r: Party, wire: seq<byte>, back: seq<byte>)
    requires PartyOk(s) && PartyOk(r) && SharedPads(r, s) && Conserved(s, r, wire) && Conserved(r, s, back)
    ensures Texts(r.before, Remote) <= Texts(r.chat.history, Remote)
    ensures s.patient ==> During(r, Remote) <= During(s, Local)
    ensures s.orderly ==> !Stuck(r)
    ensures HeardAllIff(s, r, wire)
  {
    if Talking(r) {
      TakenOf(s, r, wire, back);
      var key := r.remotes[r.found.value];
      var taken, missing := r.input[HANDSHAKE_SIZE..], wire + Unsent(s.chat);
      ParsedAllIff(key.stream.bytes, key.stream.pos, taken, missing, s.said);
      if s.patient {
        HaltedPart(key.stream.bytes, key.stream.pos, taken, missing, s.said);
      }
      if s.orderly {
        ParsedPrefix(key.stream.bytes, key.stream.pos, taken, missing, s.said);
        StuckIffStopped(r.chat.buffer, r.chat.remote, key.stream.bytes, Parse(key.stream.bytes, key.stream.pos, taken));
      }
    }
  }

  function Speaker(w: World, byA: bool): Party {
    if byA then w.a else w.b
  }

  /** If the move is a line said by this party, it is said in turn. */
  predicate LineInTurn(w: World, m: Move, byA: bool) {
    m.byA == byA && m.act.Talk? ==> InTurn(Speaker(w, byA).chat, m.act.payload)
  }

  predicate LinePatient(w: World, m: Move, byA: bool) {
    m.byA == byA && m.act.Talk? ==> Patient(Speaker(w, byA).chat, m.act.payload)
  }

  /** Every line that the party says in the run is said in turn. */
  predicate AllInTurn(w: World, capacity: nat, moves: seq<Move>, byA: bool)
    requires IsRun(w, capacity, moves)
    decreases |moves|
  {
    moves != [] ==> LineInTurn(w, moves[0], byA) && AllInTurn(Next(w, capacity, moves[0]), capacity, moves[1..], byA)
  }

  predicate AllPatient(w: World, capacity: nat, moves: seq<Move>, byA: bool)
    requires IsRun(w, capacity, moves)
    decreases |moves|
  {
    moves != [] ==>
      LinePatient(w, moves[0], byA) && AllPatient(Next(w, capacity, moves[0]), capacity, moves[1..], byA)
  }

  lemma MoveAOrderly(w: World, capacity: nat, act: Act)
    requires CanMoveA(w, capacity, act)
    ensures var v := MoveA(w, capacity, act);
      && v.b == w.b
      && (v.a.orderly <==> w.a.orderly && (act.Talk? ==> InTurn(w.a.chat, act.payload)))
      && (v.a.patient <==> w.a.patient && (act.Talk? ==> Patient(w.a.chat, act.payload)))
  {
  }

  lemma NextOrderly(w: World, capacity: nat, m: Move, byA: bool)
    requires CanMove(w, capacity, m)
    ensures Speaker(Next(w, capacity, m), byA).orderly <==> Speaker(w, byA).orderly && LineInTurn(w, m, byA)
    ensures Speaker(Next(w, capacity, m), byA).patient <==> Speaker(w, byA).patient && LinePatient(w, m, byA)
  {
    MoveAOrderly(if m.byA then w else Mirror(w), capacity, m.act);
  }

  lemma {:induction false} OrderlyIff(w: World, capacity: nat, moves: seq<Move>, byA: bool)
    requires IsRun(w, capacity, moves)
    ensures var z := Speaker(Final(w, capacity, moves), byA);
      && (z.orderly <==> Speaker(w, byA).orderly && AllInTurn(w, capacity, moves, byA))
      && (z.patient <==> Speaker(w, byA).patient && AllPatient(w, capacity, moves, byA))
    decreases |moves|
  {
    if moves != [] {
      NextOrderly(w, capacity, moves[0], byA);
      OrderlyIff(Next(w, capacity, moves[0]), capacity, moves[1..], byA);
    }
  }

  /** In every run in which a user says no line over an unsent one, nor one of 2^32 bytes or more, what
      the peer's history shows is a prefix of what the user said, in order and without gaps: also when
      lines are empty or the key runs out. Earlier history is always kept. */
  lemma EndToEndDelivery(w: World, capacity: nat, moves: seq<Move>)
    requires Begins(w) && IsRun(w, capacity, moves)
    ensures var v := Final(w, capacity, moves);
      && (AllPatient(w, capacity, moves, true) ==> During(v.b, Remote) <= During(v.a, Local))
      && (AllPatient(w, capacity, moves, false) ==> During(v.a, Remote) <= During(v.b, Local))
      && Texts(v.a.before, Remote) <= Texts(v.a.chat.history, Remote)
      && Texts(v.b.before, Remote) <= Texts(v.b.chat.history, Remote)
  {
    ReachableInv(w, capacity, moves);
    OrderlyIff(w, capacity, moves, true);
    OrderlyIff(w, capacity, moves, false);
    var v := Final(w, capacity, moves);
    HeardPrefix(v.a, v.b, v.ab, v.ba);
    HeardPrefix(v.b, v.a, v.ba, v.ab);
  }

  /** In every run, whatever is said and whenever: the history of a party that came through the
      handshake shows all that the peer's user said if and only if each line was said in turn and no
      byte is unsent or in flight. */
  lemma DeliveryIff(w: World, capacity: nat, moves: seq<Move>)
    requires Begins(w) && IsRun(w, capacity, moves)
    ensures var v := Final(w, capacity, moves);
      && (Talking(v.b) ==>
            (During(v.b, Remote) == During(v.a, Local)
             <==> AllInTurn(w, capacity, moves, true) && v.ab == [] && Unsent(v.a.chat) == []))
      && (Talking(v.a) ==>
            (During(v.a, Remote) == During(v.b, Local)
             <==> AllInTurn(w, capacity, moves, false) && v.ba == [] && Unsent(v.b.chat) == []))
  {
    ReachableInv(w, capacity, moves);
    OrderlyIff(w, capacity, moves, true);
    OrderlyIff(w, capacity, moves, false);
    var v := Final(w, capacity, moves);
    HeardPrefix(v.a, v.b, v.ab, v.ba);
    HeardPrefix(v.b, v.a, v.ba, v.ab);
  }

  /** The frame of a line replaces the one before it. */
  lemma SecondFrame(e: Endpoint, a: seq<byte>, b: seq<byte>)
    ensures Unsent(Say(Say(e, a), b)) == BeginFrame(Encrypt(e.local, a).key, b).frame
  {
  }

  lemma KeyAfter(k: KeyState, text: seq<byte>, n: nat)
    requires Coherent(k) && Enough(k, |text| + n)
    ensures var m := Encrypt(k, text).key;
      Coherent(m) && Enough(m, n) && m.stream.bytes == k.stream.bytes
  {
  }

  /** A line said before a byte of the one before it is out: the peer reads the second line alone. */
  lemma OverwrittenLine(e: Endpoint, a: seq<byte>, b: seq<byte>, copy: seq<byte>, pos: nat)
    requires Coherent(e.local) && SamePad(e.local.stream.bytes, copy)
    requires 1 <= |b| < TWO32 && Enough(e.local, |a| + |b|)
    ensures Parse(copy, pos, Unsent(Say(Say(e, a), b))).texts == [b]
  {
    var k := Encrypt(e.local, a).key;
    assert Parse(copy, pos, BeginFrame(k, b).frame).texts == [b] by {
      KeyAfter(e.local, a, |b|);
      FrameParses(k, b, copy, pos);
    }
    SecondFrame(e, a, b);
  }

  lemma PartlyGone(e: Endpoint, a: seq<byte>, b: seq<byte>, n: nat)
    requires WellFormed(e) && n <= HEADER_SIZE + |a|
    ensures WellFormed(Say(e, a)) && Unsent(Say(e, a)) == BeginFrame(e.local, a).frame
    ensures Unsent(Say(Flush(Say(e, a), n), b)) == BeginFrame(Encrypt(e.local, a).key, b).frame
  {
  }

  /** A line said when `n` bytes of the one before it are out, its header among them. `first` is
      the frame of that one. The new frame is `end` and `rest`, with `end` as long as what is missing of the first: the
      peer shows a text of the first line's length, which is the first line only if `end` is what was
      missing, and reads on in the middle of the new frame. */
  lemma OverwrittenPartly(e: Endpoint, a: seq<byte>, b: seq<byte>, n: nat, end: seq<byte>, rest: seq<byte>,
                          first: seq<byte>, copy: seq<byte>, pos: nat, shown: seq<byte>, at: nat)
    requires WellFormed(e) && Coherent(e.local) && SamePad(e.local.stream.bytes, copy)
    requires 1 <= |a| < TWO32 && Enough(e.local, |a|)
    requires WellFormed(Say(e, a)) && first == Unsent(Say(e, a)) && HEADER_SIZE <= n <= |first| == n + |end|
    requires Unsent(Say(Flush(Say(e, a), n), b)) == end + rest
    requires shown == CutShort(e.local, a, n, end) && at == e.local.head + DATA_OFFSET + |a|
    ensures Shows(copy, pos, first[..n] + end + rest) == [shown] + Shows(copy, at, rest)
    ensures |shown| == |a| && (shown == a <==> end == first[n..])
  {
    PartlyGone(e, a, b, n);
    PartlySent(e.local, a, first, n, end, rest, copy, pos, shown, at);
  }

  /** For example: with two key bytes left, the lines "a" and "b" said at once come out as "b". */
  lemma OverwrittenExample(id: seq<byte>)
    requires |id| == ID_SIZE
    ensures var k := KeyState(Stream(NewFile(id, [7, 7]), DATA_OFFSET), 2, id, 0);
      var e, a, b := Endpoint(k, k, [], 0, EMPTY, []), Ascii("a"), Ascii("b");
      && InTurn(e, a) && !InTurn(Say(e, a), b)
      && Parse(k.stream.bytes, 0, Unsent(Say(Say(e, a), b))).texts == [b] && !([b] <= [a, b])
  {
    var k := KeyState(Stream(NewFile(id, [7, 7]), DATA_OFFSET), 2, id, 0);
    var e, a, b := Endpoint(k, k, [], 0, EMPTY, []), Ascii("a"), Ascii("b");
    assert Coherent(k) && SamePad(k.stream.bytes, k.stream.bytes) && Enough(k, 2);
    OverwrittenLine(e, a, b, k.stream.bytes, 0);
    assert [b][0] == b && [a, b][0] == a && a[0] != b[0];
  }

  /** The handshake of `p` can only break, or return what the bytes it read say, which is the verdict
      that the two key stores determine; so if it succeeds, the handshake of `q` succeeds or breaks,
      and the key of `p` is the one with the id of `q`. */
  predicate Agrees(p: Party, q: Party) {
    && (p.phase.Returned? ==>
          p.phase.code == 4 || (p.phase.code == Judge(p.remotes, p.input) == Verdict(p, q) && p.phase.code != 0))
    && (Talking(p) ==>
          && Judge(p.remotes, p.input) == Verdict(p, q) == 0
          && p.found.Some? && p.found.value < |p.remotes|
          && p.remotes[p.found.value].id == q.chat.local.id
          && q.phase !in {Returned(1), Returned(2), Returned(3)})
  }

  lemma AgreesInv(w: World)
    requires Inv(w)
    ensures Agrees(w.a, w.b)
  {
    JudgedByInput(w.a);
    PartyVerdict(w.a, w.b, w.ab, w.ba);
    PartyVerdict(w.b, w.a, w.ba, w.ab);
  }

  lemma HandshakeAgreement(w: World, capacity: nat, moves: seq<Move>)
    requires Begins(w) && IsRun(w, capacity, moves)
    ensures Agrees(Final(w, capacity, moves).a, Final(w, capacity, moves).b)
    ensures Agrees(Final(w, capacity, moves).b, Final(w, capacity, moves).a)
  {
    ReachableInv(w, capacity, moves);
    var v := Final(w, capacity, moves);
    AgreesInv(v);
    Steadies(v);
    AgreesInv(Mirror(v));
  }

  /** A handshake never reads more than its 25 bytes, and a connected receiver has read exactly the
      peer's hello and accept byte before the peer's frames, from their first byte on. */
  predicate AlignedWith(r: Party, s: Party) {
    && (!Talking(r) ==> |r.input| <= HANDSHAKE_SIZE && r.chat.buffer == EMPTY)
    && (Talking(r) ==>
          && |r.input| >= HANDSHAKE_SIZE
          && r.input[..HELLO_SIZE] == HelloOf(s.chat.local.id) && s.accept == [r.input[HELLO_SIZE]]
          && |s.output| >= HANDSHAKE_SIZE && r.input[HANDSHAKE_SIZE..] <= s.output[HANDSHAKE_SIZE..])
  }

  lemma PartyAligned(r: Party, s: Party, sr: seq<byte>)
    requires PartyOk(r) && PartyOk(s) && Conserved(s, r, sr)
    ensures AlignedWith(r, s)
  {
    Aligned(s, r, sr);
  }

  lemma ByteAlignment(w: World, capacity: nat, moves: seq<Move>)
    requires Begins(w) && IsRun(w, capacity, moves)
    ensures AlignedWith(Final(w, capacity, moves).a, Final(w, capacity, moves).b)
    ensures AlignedWith(Final(w, capacity, moves).b, Final(w, capacity, moves).a)
  {
    ReachableInv(w, capacity, moves);
    var v := Final(w, capacity, moves);
    PartyAligned(v.a, v.b, v.ba);
    PartyAligned(v.b, v.a, v.ab);
  }

  // ----- No deadlock, and what a run that nothing breaks ends in

  predicate Intact(p: Party) {
    p.phase != Dropped && p.phase != Returned(4)
  }

  /** Nothing left for the party to read or write. */
  predicate Idle(p: Party, inward: seq<byte>) {
    !InHandshake(p) && (p.phase == Connected ==> inward == [] && Pending(p) == [])
  }

  predicate Quiet(w: World) {
    Idle(w.a, w.ba) && Idle(w.b, w.ab)
  }

  predicate Transfer(m: Move) {
    m.act.Read? || m.act.Write?
  }

  /** No byte can move. */
  ghost predicate Stalled(w: World, capacity: nat) {
    forall m: Move :: Transfer(m) ==> !CanMove(w, capacity, m)
  }

  /** What the invariant says of an unbroken party in terms of byte counts. */
  predicate Numbers(p: Party) {
    && (p.phase == Hello ==> |p.output| + |p.exchange.out| == HELLO_SIZE && |p.input| + p.exchange.need == HELLO_SIZE)
    && (p.phase == Accept ==>
          |p.output| + |p.exchange.out| == HANDSHAKE_SIZE && |p.input| + p.exchange.need == HANDSHAKE_SIZE)
    && (InHandshake(p) ==> p.exchange.need > 0 || p.exchange.out != [])
    && (!InHandshake(p) ==> |p.output| >= HANDSHAKE_SIZE && |p.input| >= HANDSHAKE_SIZE)
    && (p.phase == Connected ==> Room(p.chat.buffer) > 0)
    && (p.phase.Returned? ==> |p.input| == HANDSHAKE_SIZE && |p.output| == HANDSHAKE_SIZE)
  }

  lemma NumbersHold(p: Party)
    requires Shape(p) && Steady(p) && (InHandshake(p) ==> !Done(p.exchange))
    requires Intact(p) && !Stuck(p) && p.phase != Returned(1)
    ensures Numbers(p)
  {
    Order(p);
    assert p.phase == Hello ==> |p.output + p.exchange.out| == HELLO_SIZE;
    assert p.phase == Accept ==> |p.output + p.exchange.out| == HANDSHAKE_SIZE;
  }

  /** The numbers of one party, and what its phase says of the other's. */
  lemma PartyNumbers(w: World)
    requires Inv(w) && Intact(w.a) && !Stuck(w.a) && Intact(w.b)
    ensures Numbers(w.a) && Steady(w.a) && |w.b.input| + |w.ab| == |w.a.output|
    ensures w.a.phase == Connected ==> !w.b.phase.Returned?
  {
    AgreesInv(w);
    NumbersHold(w.a);
    assert |w.b.input + w.ab| == |w.a.output|;
  }

  lemma ProgressByNumbers(w: World, capacity: nat) returns (m: Move)
    requires Numbers(w.a) && Numbers(w.b) && Steady(w.a) && Steady(w.b)
    requires |w.b.input| + |w.ab| == |w.a.output| && |w.a.input| + |w.ba| == |w.b.output|
    requires w.a.phase == Connected ==> !w.b.phase.Returned?
    requires w.b.phase == Connected ==> !w.a.phase.Returned?
    requires capacity >= 1 && Intact(w.a) && Intact(w.b) && !Quiet(w)
    ensures CanMove(w, capacity, m) && Transfer(m)
  {
    if Appetite(w.a) > 0 && w.ba != [] {
      m := Move(true, Read(1));
    } else if Appetite(w.b) > 0 && w.ab != [] {
      m := Move(false, Read(1));
    } else if (InHandshake(w.a) || w.a.phase == Connected) && Pending(w.a) != [] && |w.ab| < capacity {
      m := Move(true, Write(1));
    } else {
      m := Move(false, Write(1));
    }
  }

  /** With channels that hold at least one byte, there is always a byte that can move until both
      parties are done, unless a receiver asks for zero bytes. */
  lemma Progress(w: World, capacity: nat) returns (m: Move)
    requires Inv(w) && capacity >= 1 && Intact(w.a) && Intact(w.b) && !Stuck(w.a) && !Stuck(w.b) && !Quiet(w)
    ensures CanMove(w, capacity, m) && Transfer(m)
  {
    PartyNumbers(w);
    Steadies(w);
    PartyNumbers(Mirror(w));
    m := ProgressByNumbers(w, capacity);
  }

  function Owed(p: Party): nat {
    |Pending(p)| + if p.phase == Hello then 1 else 0
  }

  /** Twice what is to be written, plus what is in flight. */
  function Measure(w: World): nat {
    2 * (Owed(w.a) + Owed(w.b)) + |w.ab| + |w.ba|
  }

  lemma OwedByAdvance(p: Party)
    requires Steady(p) && InHandshake(p)
    ensures Owed(Advance(p)) <= Owed(p) && Intact(Advance(p))
  {
  }

  lemma OwedByReader(p: Party, chunk: seq<byte>)
    requires Steady(p) && 0 < |chunk| <= Appetite(p)
    ensures Owed(ReadBytes(p, chunk)) <= Owed(p)
    ensures Intact(p) ==> Intact(ReadBytes(p, chunk))
  {
    if InHandshake(p) {
      OwedByAdvance(p.(input := p.input + chunk, exchange := Get(p.exchange, chunk)));
    }
  }

  lemma OwedByWriter(p: Party, n: nat)
    requires Steady(p) && (InHandshake(p) || p.phase == Connected) && n <= |Pending(p)|
    ensures Owed(WriteBytes(p, n)) <= Owed(p) - n
    ensures Intact(p) ==> Intact(WriteBytes(p, n))
  {
    if InHandshake(p) {
      OwedByAdvance(p.(output := p.output + Pending(p)[..n], exchange := Put(p.exchange, n)));
    }
  }

  /** `v` is at least `n` closer to rest than `w`, and no more broken. */
  predicate Closer(v: World, w: World, n: nat) {
    n + Measure(v) <= Measure(w) && (Intact(w.a) && Intact(w.b) ==> Intact(v.a) && Intact(v.b))
  }

  lemma MeasureFallsA(w: World, capacity: nat, act: Act)
    requires CanMoveA(w, capacity, act) && (act.Read? || act.Write?)
    ensures Closer(MoveA(w, capacity, act), w, 1)
  {
    match act
    case Read(n) => OwedByReader(w.a, w.ba[..n]);
    case Write(n) => OwedByWriter(w.a, n);
  }

  lemma MirrorCloser(v: World, w: World, n: nat)
    requires Closer(v, w, n)
    ensures Closer(Mirror(v), Mirror(w), n)
  {
  }

  /** Every read or write brings the run closer to its end. */
  lemma MeasureFalls(w: World, capacity: nat, m: Move)
    requires CanMove(w, capacity, m) && Transfer(m)
    ensures Closer(Next(w, capacity, m), w, 1)
  {
    if m.byA {
      MeasureFallsA(w, capacity, m.act);
    } else {
      MeasureFallsA(Mirror(w), capacity, m.act);
      MirrorCloser(MoveA(Mirror(w), capacity, m.act), Mirror(w), 1);
    }
  }

  lemma CloserStill(x: World, v: World, w: World, n: nat)
    requires Closer(x, v, n) && Closer(v, w, 1)
    ensures Closer(x, w, n + 1)
  {
  }

  /** From any state, a run of transfers alone cannot be longer than the measure. */
  lemma {:induction false} TransfersEnd(w: World, capacity: nat, moves: seq<Move>)
    requires IsRun(w, capacity, moves)
    requires forall i :: 0 <= i < |moves| ==> Transfer(moves[i])
    ensures Closer(Final(w, capacity, moves), w, |moves|)
    decreases |moves|
  {
    if moves != [] {
      var v := Next(w, capacity, moves[0]);
      assert Transfer(moves[0]);
      MeasureFalls(w, capacity, moves[0]);
      TransfersEnd(v, capacity, moves[1..]);
      CloserStill(Final(v, capacity, moves[1..]), v, w, |moves| - 1);
    }
  }

  lemma {:induction false} TransfersSayNothing(w: World, capacity: nat, moves: seq<Move>)
    requires IsRun(w, capacity, moves)
    requires forall i :: 0 <= i < |moves| ==> Transfer(moves[i])
    ensures var v := Final(w, capacity, moves); v.a.orderly == w.a.orderly && v.b.orderly == w.b.orderly
    decreases |moves|
  {
    if moves != [] {
      assert Transfer(moves[0]);
      NextOrderly(w, capacity, moves[0], true);
      NextOrderly(w, capacity, moves[0], false);
      TransfersSayNothing(Next(w, capacity, moves[0]), capacity, moves[1..]);
    }
  }

  /** Where both parties come to rest without a break: the verdict of the two key stores, and, if
      they connected, a history shows every line of the peer's user exactly when those were all said
      in turn. */
  lemma AtRest(w: World)
    requires Inv(w) && Intact(w.a) && Intact(w.b) && Quiet(w)
    ensures w.a.phase == if Verdict(w.a, w.b) == 0 then Connected else Returned(Verdict(w.a, w.b))
    ensures w.b.phase == if Verdict(w.b, w.a) == 0 then Connected else Returned(Verdict(w.b, w.a))
    ensures w.a.phase == Connected <==> Knows(w.a, w.b) && Knows(w.b, w.a)
    ensures w.a.phase == Connected ==>
      && (During(w.b, Remote) == During(w.a, Local) <==> w.a.orderly)
      && (During(w.a, Remote) == During(w.b, Local) <==> w.b.orderly)
  {
    PartyVerdict(w.a, w.b, w.ab, w.ba);
    PartyVerdict(w.b, w.a, w.ba, w.ab);
    HeardPrefix(w.a, w.b, w.ab, w.ba);
    HeardPrefix(w.b, w.a, w.ba, w.ab);
  }

  lemma StalledRests(w: World, capacity: nat)
    requires Inv(w) && capacity >= 1 && Intact(w.a) && Intact(w.b) && Stalled(w, capacity)
    requires w.a.orderly && w.b.orderly
    ensures w.a.phase == if Verdict(w.a, w.b) == 0 then Connected else Returned(Verdict(w.a, w.b))
    ensures w.b.phase == if Verdict(w.b, w.a) == 0 then Connected else Returned(Verdict(w.b, w.a))
    ensures w.a.phase == Connected ==>
      During(w.b, Remote) == During(w.a, Local) && During(w.a, Remote) == During(w.b, Local)
  {
    HeardPrefix(w.a, w.b, w.ab, w.ba);
    HeardPrefix(w.b, w.a, w.ba, w.ab);
    if !Quiet(w) {
      var m := Progress(w, capacity);
      assert false;
    }
    AtRest(w);
  }

  /** From any state of any unbroken run in which all lines were said in turn, moving bytes in any
      order for as long as some byte can move ends within the measure, with both parties at rest, the
      verdict of the two key stores, and all that was said heard by both. */
  lemma Completion(w: World, capacity: nat, moves: seq<Move>, drain: seq<Move>)
    requires Begins(w) && capacity >= 1 && IsRun(w, capacity, moves)
    requires AllInTurn(w, capacity, moves, true) && AllInTurn(w, capacity, moves, false)
    requires var v := Final(w, capacity, moves);
      && Intact(v.a) && Intact(v.b) && IsRun(v, capacity, drain)
      && (forall i :: 0 <= i < |drain| ==> Transfer(drain[i]))
      && Stalled(Final(v, capacity, drain), capacity)
    ensures var v := Final(w, capacity, moves);
      var z := Final(v, capacity, drain);
      && |drain| <= Measure(v)
      && z.a.phase == (if Verdict(z.a, z.b) == 0 then Connected else Returned(Verdict(z.a, z.b)))
      && z.b.phase == (if Verdict(z.b, z.a) == 0 then Connected else Returned(Verdict(z.b, z.a)))
      && (z.a.phase == Connected ==>
            During(z.b, Remote) == During(z.a, Local) && During(z.a, Remote) == During(z.b, Local))
  {
    ReachableInv(w, capacity, moves);
    OrderlyIff(w, capacity, moves, true);
    OrderlyIff(w, capacity, moves, false);
    var v := Final(w, capacity, moves);
    TransfersEnd(v, capacity, drain);
    TransfersSayNothing(v, capacity, drain);
    RunKeeps(v, capacity, drain);
    StalledRests(Final(v, capacity, drain), capacity);
  }
}
