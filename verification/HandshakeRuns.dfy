/** A handshake of src/user.c is a run of the two-party model: what its two exchanges read and write, in
    whatever pieces, can be moved by steps of that model, with the same result. */
module HandshakeRuns {
  import opened Bytes
  import opened Keys
  import opened Endpoints
  import opened Nodes
  import opened Connection
  import opened Users

  // ----- One exchange

  predicate CanExchange(w: World, capacity: nat, received: nat, sent: nat) {
    && Steady(w.a) && InHandshake(w.a) && !Done(w.a.exchange)
    && received <= |w.ba| && received <= w.a.exchange.need && sent <= |w.a.exchange.out|
    && |w.ab| + sent <= capacity
  }

  /** The world after A has received and sent so many bytes of its exchange. */
  function Exchanged(w: World, received: nat, sent: nat): World
    requires Steady(w.a) && InHandshake(w.a)
    requires received <= |w.ba| && received <= w.a.exchange.need && sent <= |w.a.exchange.out|
  {
    var p, x := w.a, w.a.exchange;
    var q := p.(input := p.input + w.ba[..received], output := p.output + x.out[..sent],
                exchange := Put(Get(x, w.ba[..received]), sent));
    World(Advance(q), w.b, w.ab + x.out[..sent], w.ba[received..])
  }

  function WriteMoves(sent: nat, rest: seq<Move>): seq<Move> {
    if sent == 0 then rest else [Move(true, Write(sent))] + rest
  }

  function ExchangeMoves(received: nat, sent: nat, rest: seq<Move>): seq<Move> {
    if received == 0 then WriteMoves(sent, rest) else [Move(true, Read(received))] + WriteMoves(sent, rest)
  }

  lemma NothingMoved(w: World)
    requires Steady(w.a) && InHandshake(w.a) && !Done(w.a.exchange)
    ensures Exchanged(w, 0, 0) == w
  {
    var x := w.a.exchange;
    assert w.ba[..0] == [] && w.ba[0..] == w.ba && x.out[..0] == [] && x.out[0..] == x.out;
    assert w.a.input + [] == w.a.input && w.a.output + [] == w.a.output && w.ab + [] == w.ab;
    assert x.got + [] == x.got;
  }

  lemma WriteOnly(w: World, capacity: nat, sent: nat)
    requires CanExchange(w, capacity, 0, sent) && sent > 0
    ensures CanMove(w, capacity, Move(true, Write(sent)))
    ensures Next(w, capacity, Move(true, Write(sent))) == Exchanged(w, 0, sent)
  {
    assert w.ba[..0] == [] && w.ba[0..] == w.ba;
    assert w.a.input + [] == w.a.input && w.a.exchange.got + [] == w.a.exchange.got;
  }

  lemma WriteThen(w: World, capacity: nat, sent: nat, rest: seq<Move>)
    requires CanExchange(w, capacity, 0, sent) && IsRun(Exchanged(w, 0, sent), capacity, rest)
    ensures IsRun(w, capacity, WriteMoves(sent, rest))
    ensures Final(w, capacity, WriteMoves(sent, rest)) == Final(Exchanged(w, 0, sent), capacity, rest)
  {
    if sent == 0 {
      NothingMoved(w);
    } else {
      WriteOnly(w, capacity, sent);
      RunCons(w, capacity, Move(true, Write(sent)), rest);
    }
  }

  lemma ReadWrite(w: World, capacity: nat, received: nat, sent: nat)
    requires CanExchange(w, capacity, received, sent) && received > 0 && sent > 0
    ensures CanMove(w, capacity, Move(true, Read(received)))
    ensures var v := Next(w, capacity, Move(true, Read(received)));
      CanExchange(v, capacity, 0, sent) && Exchanged(v, 0, sent) == Exchanged(w, received, sent)
  {
    var v := Next(w, capacity, Move(true, Read(received)));
    assert v.ba[..0] == [] && v.ba[0..] == v.ba;
    assert v.a.input + [] == v.a.input && v.a.exchange.got + [] == v.a.exchange.got;
  }

  lemma ReadOnly(w: World, capacity: nat, received: nat)
    requires CanExchange(w, capacity, received, 0) && received > 0
    ensures CanMove(w, capacity, Move(true, Read(received)))
    ensures Next(w, capacity, Move(true, Read(received))) == Exchanged(w, received, 0)
  {
    assert w.a.exchange.out[..0] == [] && w.a.exchange.out[0..] == w.a.exchange.out;
    assert w.a.output + [] == w.a.output && w.ab + [] == w.ab;
  }

  /** An exchange that moves so many bytes, and a run from where it leads to, are a run. */
  lemma ExchangeThen(w: World, capacity: nat, received: nat, sent: nat, rest: seq<Move>)
    requires CanExchange(w, capacity, received, sent) && IsRun(Exchanged(w, received, sent), capacity, rest)
    ensures IsRun(w, capacity, ExchangeMoves(received, sent, rest))
    ensures Final(w, capacity, ExchangeMoves(received, sent, rest))
         == Final(Exchanged(w, received, sent), capacity, rest)
  {
    var m := Move(true, Read(received));
    if received == 0 {
      WriteThen(w, capacity, sent, rest);
    } else if sent == 0 {
      ReadOnly(w, capacity, received);
      RunCons(w, capacity, m, rest);
    } else {
      ReadWrite(w, capacity, received, sent);
      WriteThen(Next(w, capacity, m), capacity, sent, rest);
      RunCons(w, capacity, m, WriteMoves(sent, rest));
    }
  }

  // ----- The whole handshake

  /** What `p` is after a handshake that returns `code`, having read `input` and written `output`. */
  predicate ShookHands(p: Party, code: nat, input: seq<byte>, output: seq<byte>) {
    && p.phase == (if code == 0 then Connected else Returned(code))
    && p.input == input && p.output == output
    && (code == 0 ==>
          && p.found.Some? && p.found.value < |p.remotes| && |input| >= HELLO_SIZE
          && p.remotes[p.found.value].id == input[8..HELLO_SIZE] && p.chat.remote == p.remotes[p.found.value])
  }

  predicate Starts(w: World, capacity: nat, input: seq<byte>, output: seq<byte>) {
    && w.a == Fresh(w.a.chat.local, w.a.remotes, w.a.before) && |w.a.chat.local.id| == ID_SIZE
    && input <= w.ba && |w.ab| + |output| <= capacity
  }

  /** The world in which A has moved these bytes. */
  predicate Moved(v: World, w: World, code: nat, input: seq<byte>, output: seq<byte>) {
    && ShookHands(v.a, code, input, output) && v.b == w.b && v.a.remotes == w.a.remotes
    && v.a.chat == w.a.chat.(remote := v.a.chat.remote)
    && w.ba == input + v.ba && v.ab == w.ab + output
  }

  lemma BreakIsRun(w: World, capacity: nat)
    requires Steady(w.a) && InHandshake(w.a)
    ensures IsRun(w, capacity, [Move(true, Break)])
    ensures Final(w, capacity, [Move(true, Break)]) == w.(a := w.a.(phase := Returned(4)))
  {
    var m := Move(true, Break);
    assert IsRun(Next(w, capacity, m), capacity, []);
    RunCons(w, capacity, m, []);
    assert [m] + [] == [m];
  }

  /** A handshake cut off within its first exchange. */
  lemma CutInHello(w: World, capacity: nat, input: seq<byte>, output: seq<byte>)
    requires Starts(w, capacity, input, output) && output <= HelloOf(w.a.chat.local.id)
    requires |input| <= HELLO_SIZE && (|input| < HELLO_SIZE || |output| < HELLO_SIZE)
    ensures var moves := ExchangeMoves(|input|, |output|, [Move(true, Break)]);
      IsRun(w, capacity, moves) && Moved(Final(w, capacity, moves), w, 4, input, output)
  {
    var v := Exchanged(w, |input|, |output|);
    assert w.ba == input + v.ba && w.ba[..|input|] == input;
    assert HelloOf(w.a.chat.local.id)[..|output|] == output;
    assert [] + input == input && [] + output == output;
    BreakIsRun(v, capacity);
    ExchangeThen(w, capacity, |input|, |output|, [Move(true, Break)]);
  }

  lemma WrongExchanged(w: World, capacity: nat, input: seq<byte>, output: seq<byte>)
    requires Starts(w, capacity, input, output) && output == HelloOf(w.a.chat.local.id)
    requires |input| == HELLO_SIZE && input[..8] != PROTOCOL
    ensures CanExchange(w, capacity, HELLO_SIZE, HELLO_SIZE)
    ensures Moved(Exchanged(w, HELLO_SIZE, HELLO_SIZE), w, 1, input, output)
  {
    var v := Exchanged(w, HELLO_SIZE, HELLO_SIZE);
    assert w.ba == input + v.ba && w.ba[..HELLO_SIZE] == input;
    assert HelloOf(w.a.chat.local.id)[..HELLO_SIZE] == output;
    assert [] + input == input && [] + output == output;
  }

  /** A complete first exchange, with a peer of another protocol. */
  lemma WrongProtocol(w: World, capacity: nat, input: seq<byte>, output: seq<byte>)
    requires Starts(w, capacity, input, output) && output == HelloOf(w.a.chat.local.id)
    requires |input| == HELLO_SIZE && input[..8] != PROTOCOL
    ensures var moves := ExchangeMoves(HELLO_SIZE, HELLO_SIZE, []);
      IsRun(w, capacity, moves) && Moved(Final(w, capacity, moves), w, 1, input, output)
  {
    var v := Exchanged(w, HELLO_SIZE, HELLO_SIZE);
    WrongExchanged(w, capacity, input, output);
    ExchangeThen(w, capacity, HELLO_SIZE, HELLO_SIZE, []);
    assert Final(v, capacity, []) == v;
  }

  /** The world between the two exchanges, with `first` the peer's hello. */
  predicate Between(v: World, w: World, first: seq<byte>) {
    && |first| == HELLO_SIZE && v.a.phase == Accept && Steady(v.a)
    && v.a.input == first && v.a.output == HelloOf(w.a.chat.local.id)
    && v.a.exchange == Exchange(Answer(w.a.remotes, first), [], 1)
    && v.a.found == Find(w.a.remotes, first[8..]) && v.a.remotes == w.a.remotes && v.a.chat == w.a.chat
    && v.b == w.b && w.ba == first + v.ba && v.ab == w.ab + HelloOf(w.a.chat.local.id)
  }

  lemma HelloExchanged(w: World, capacity: nat, input: seq<byte>, output: seq<byte>)
    requires Starts(w, capacity, input, output)
    requires |input| >= HELLO_SIZE && input[..8] == PROTOCOL && |output| >= HELLO_SIZE
    ensures CanExchange(w, capacity, HELLO_SIZE, HELLO_SIZE)
    ensures Between(Exchanged(w, HELLO_SIZE, HELLO_SIZE), w, input[..HELLO_SIZE])
  {
    var first, hello := input[..HELLO_SIZE], HelloOf(w.a.chat.local.id);
    assert w.ba[..HELLO_SIZE] == first && hello[..HELLO_SIZE] == hello && hello[HELLO_SIZE..] == [];
    assert first[..8] == input[..8] && first[8..] == first[8..HELLO_SIZE];
    assert [] + first == first && [] + hello == hello;
    assert w.ba == w.ba[..HELLO_SIZE] + w.ba[HELLO_SIZE..];
  }

  /** The second exchange: A reads `more` and writes `answer`. */
  predicate Second(v: World, w: World, capacity: nat, first: seq<byte>, more: seq<byte>, answer: seq<byte>) {
    && Between(v, w, first) && first[..8] == PROTOCOL
    && more <= v.ba && |more| <= 1 && answer <= Answer(w.a.remotes, first)
    && |v.ab| + |answer| <= capacity
  }

  lemma AcceptExchanged(v: World, w: World, capacity: nat, first: seq<byte>, more: seq<byte>, answer: seq<byte>)
    requires Second(v, w, capacity, first, more, answer)
    ensures CanExchange(v, capacity, |more|, |answer|)
    ensures var u := Exchanged(v, |more|, |answer|);
      && u.a.input == first + more && u.a.output == HelloOf(w.a.chat.local.id) + answer
      && u.b == w.b && u.a.remotes == w.a.remotes && u.a.chat == w.a.chat.(remote := u.a.chat.remote)
      && v.ba == more + u.ba && u.ab == v.ab + answer && Steady(u.a)
      && (|more| == 0 || |answer| == 0 ==> InHandshake(u.a))
  {
    assert v.ba[..|more|] == more && Answer(w.a.remotes, first)[..|answer|] == answer;
    assert [] + more == more;
  }

  /** Complete, it gives the code that the bytes read determine. */
  lemma AcceptJudged(v: World, w: World, capacity: nat, first: seq<byte>, more: seq<byte>, answer: seq<byte>)
    requires Second(v, w, capacity, first, more, answer) && |more| == 1 && |answer| == 1
    ensures CanExchange(v, capacity, 1, 1)
    ensures ShookHands(Exchanged(v, 1, 1).a, Judge(w.a.remotes, first + more), first + more,
                       HelloOf(w.a.chat.local.id) + answer)
  {
    assert v.ba[..1] == more && Answer(w.a.remotes, first)[..1] == answer;
    assert [] + more == more;
    assert (first + more)[..8] == first[..8] && (first + more)[8..HELLO_SIZE] == first[8..HELLO_SIZE] == first[8..];
  }

  /** Whatever bytes a handshake of the program reads and writes, and whatever it returns, there is a run
      of the two-party model in which the party reads and writes the same bytes and comes out the same. */
  lemma HandshakeIsRun(w: World, capacity: nat, code: nat, input: seq<byte>, output: seq<byte>)
    returns (moves: seq<Move>)
    requires Starts(w, capacity, input, output)
    requires HandshakeBytes(w.a.remotes, w.a.chat.local.id, code, input, output)
    ensures IsRun(w, capacity, moves) && Moved(Final(w, capacity, moves), w, code, input, output)
  {
    var hello := HelloOf(w.a.chat.local.id);
    assert hello + [] == hello;
    if |input| < HELLO_SIZE || |output| < HELLO_SIZE {
      moves := ExchangeMoves(|input|, |output|, [Move(true, Break)]);
      CutInHello(w, capacity, input, output);
    } else if input[..8] != PROTOCOL {
      moves := ExchangeMoves(HELLO_SIZE, HELLO_SIZE, []);
      WrongProtocol(w, capacity, input, output);
    } else {
      moves := AcceptRun(w, capacity, code, input, output);
    }
  }

  lemma AcceptRun(w: World, capacity: nat, code: nat, input: seq<byte>, output: seq<byte>) returns (moves: seq<Move>)
    requires Starts(w, capacity, input, output)
    requires HandshakeBytes(w.a.remotes, w.a.chat.local.id, code, input, output)
    requires |input| >= HELLO_SIZE && |output| >= HELLO_SIZE && input[..8] == PROTOCOL
    ensures IsRun(w, capacity, moves) && Moved(Final(w, capacity, moves), w, code, input, output)
  {
    var hello := HelloOf(w.a.chat.local.id);
    var first, more, answer := input[..HELLO_SIZE], input[HELLO_SIZE..], output[HELLO_SIZE..];
    var v := Exchanged(w, HELLO_SIZE, HELLO_SIZE);
    HelloExchanged(w, capacity, input, output);
    assert input == first + more && first[..8] == input[..8] && first[8..HELLO_SIZE] == input[8..HELLO_SIZE];
    assert output == hello + answer && answer <= Answer(w.a.remotes, first);
    assert more <= v.ba;
    AcceptExchanged(v, w, capacity, first, more, answer);
    var u := Exchanged(v, |more|, |answer|);
    Assoc(first, more, u.ba);
    Assoc(w.ab, hello, answer);
    var last := if code == 4 then [Move(true, Break)] else [];
    if code == 4 {
      BreakIsRun(u, capacity);
    } else {
      AcceptJudged(v, w, capacity, first, more, answer);
    }
    ExchangeThen(v, capacity, |more|, |answer|, last);
    moves := ExchangeMoves(HELLO_SIZE, HELLO_SIZE, ExchangeMoves(|more|, |answer|, last));
    ExchangeThen(w, capacity, HELLO_SIZE, HELLO_SIZE, ExchangeMoves(|more|, |answer|, last));
  }
}
