/** Sockets and the two-way exchange of src/node.c. */
module Nodes {
  import opened Bytes

  /** What the operating system does when a ready socket is used: moves up to `n` bytes, or fails. */
  datatype IO = NotReady | Ready(n: nat) | Error

  /** One return of `select`: interrupted by a signal, failed (also once the time is up), or with
      the socket ready for reading or writing or both. */
  datatype Turn = Interrupted | Failed | Selected(read: IO, write: IO)

  /** An exchange under way: what is left to send, what has come in, how much is still wanted. */
  datatype Exchange = Exchange(out: seq<byte>, got: seq<byte>, need: nat)

  predicate Done(x: Exchange) {
    x.out == [] && x.need == 0
  }

  function Get(x: Exchange, chunk: seq<byte>): Exchange
    requires |chunk| <= x.need
  {
    x.(got := x.got + chunk, need := x.need - |chunk|)
  }

  function Put(x: Exchange, n: nat): Exchange
    requires n <= |x.out|
  {
    x.(out := x.out[n..])
  }

  lemma PrefixGrows(data: seq<byte>, sent: nat, n: nat)
    requires sent + n <= |data|
    ensures data[..sent] + data[sent..][..n] == data[..sent + n] && data[sent..][n..] == data[sent + n..]
  {
  }

  /** What an exchange has done to the peer's stream, `had` at its start, and to the wire, `was` then. */
  predicate SoFar(data: seq<byte>, size: nat, x: Exchange,
                  had: seq<byte>, incoming: seq<byte>, was: seq<byte>, wire: seq<byte>) {
    && |x.out| <= |data| && x.out == data[|data| - |x.out|..] && wire == was + data[..|data| - |x.out|]
    && had == x.got + incoming && |x.got| + x.need == size
  }

  lemma SoFarStarts(data: seq<byte>, size: nat, incoming: seq<byte>, wire: seq<byte>)
    ensures SoFar(data, size, Exchange(data, [], size), incoming, incoming, wire, wire)
  {
  }

  /** The turn that reads `n` bytes and writes `m`. */
  lemma SoFarNext(data: seq<byte>, size: nat, x: Exchange, y: Exchange, n: nat, m: nat,
                  had: seq<byte>, incoming: seq<byte>, was: seq<byte>, wire: seq<byte>)
    requires SoFar(data, size, x, had, incoming, was, wire)
    requires n <= x.need && n <= |incoming| && m <= |x.out|
    requires y.got == x.got + incoming[..n] && y.need == x.need - n && y.out == x.out[m..]
    ensures SoFar(data, size, y, had, incoming[n..], was, wire + x.out[..m])
  {
    var sent := |data| - |x.out|;
    assert incoming == incoming[..n] + incoming[n..];
    Assoc(x.got, incoming[..n], incoming[n..]);
    PrefixGrows(data, sent, m);
    Assoc(was, data[..sent], x.out[..m]);
  }

  // ----- What an exchange makes of its turns

  function Offer(io: IO): nat {
    if io.Ready? then io.n else 0
  }

  /** How many bytes the first `k` turns offer to read. */
  function ReadOffer(turns: seq<Turn>, k: nat): nat
    requires k <= |turns|
  {
    if k == 0 then 0
    else ReadOffer(turns, k - 1) + if turns[k - 1].Selected? then Offer(turns[k - 1].read) else 0
  }

  function WriteOffer(turns: seq<Turn>, k: nat): nat
    requires k <= |turns|
  {
    if k == 0 then 0
    else WriteOffer(turns, k - 1) + if turns[k - 1].Selected? then Offer(turns[k - 1].write) else 0
  }

  /** An exchange: what the operating system does, the bytes to send and to receive, and how many the
      peer's stream still has. */
  datatype Trade = Trade(turns: seq<Turn>, out: nat, size: nat, available: nat)

  /** The bytes received after `k` turns: those offered, as far as they are wanted and there. */
  function Got(t: Trade, k: nat): nat
    requires k <= |t.turns|
  {
    Min(ReadOffer(t.turns, k), Min(t.size, t.available))
  }

  function Sent(t: Trade, k: nat): nat
    requires k <= |t.turns|
  {
    Min(WriteOffer(t.turns, k), t.out)
  }

  /** Bytes are wanted, the socket is found readable, and none come: an error, an orderly end, or the
      end of the peer's stream. */
  predicate EmptyRead(t: Trade, k: nat)
    requires k < |t.turns|
  {
    && t.turns[k].Selected? && !t.turns[k].read.NotReady? && Got(t, k) < t.size
    && (Offer(t.turns[k].read) == 0 || Got(t, k) == t.available)
  }

  predicate BadWrite(t: Trade, k: nat)
    requires k < |t.turns|
  {
    t.turns[k].Selected? && t.turns[k].write.Error? && Sent(t, k) < t.out && !EmptyRead(t, k)
  }

  /** What ends an exchange before its time. */
  predicate Breaks(t: Trade, k: nat)
    requires k < |t.turns|
  {
    t.turns[k].Failed? || EmptyRead(t, k) || BadWrite(t, k)
  }

  predicate Fulfilled(t: Trade, k: nat)
    requires k <= |t.turns|
  {
    Got(t, k) == t.size && Sent(t, k) == t.out
  }

  /** After how many turns the exchange is complete, if it gets there. */
  function Finish(t: Trade, k: nat): (r: Option<nat>)
    requires k <= |t.turns|
    ensures r.Some? ==> k <= r.value <= |t.turns|
    decreases |t.turns| - k
  {
    if Fulfilled(t, k) then Some(k)
    else if k == |t.turns| || Breaks(t, k) then None
    else Finish(t, k + 1)
  }

  /** The number of turns that complete the exchange, if it gets there. */
  function Finished(t: Trade): (r: Option<nat>)
    ensures r.Some? ==> r.value <= |t.turns|
  {
    Finish(t, 0)
  }

  /** It gets there exactly when some number of turns completes it and none of those breaks it. */
  lemma {:induction false} FinishIff(t: Trade, k: nat)
    requires k <= |t.turns|
    ensures Finish(t, k).Some? <==>
      exists n :: k <= n <= |t.turns| && Fulfilled(t, n) && forall i :: k <= i < n ==> !Breaks(t, i)
    ensures Finish(t, k).Some? ==> Fulfilled(t, Finish(t, k).value)
    ensures Finish(t, k).Some? ==> forall i :: k <= i < Finish(t, k).value ==> !Breaks(t, i) && !Fulfilled(t, i)
    decreases |t.turns| - k
  {
    if !Fulfilled(t, k) && k < |t.turns| && !Breaks(t, k) {
      FinishIff(t, k + 1);
    }
  }

  lemma {:induction false} FinishAt(t: Trade, k: nat, n: nat)
    requires k <= n <= |t.turns| && Fulfilled(t, n)
    requires forall i :: k <= i < n ==> !Fulfilled(t, i) && !Breaks(t, i)
    ensures Finish(t, k) == Some(n)
    decreases n - k
  {
    if k < n {
      FinishAt(t, k + 1, n);
    }
  }

  /** The turns before the last of `used` ones neither complete the exchange nor break it, and the last
      does not come after its completion. */
  predicate GoesInto(t: Trade, used: nat)
    requires used <= |t.turns|
  {
    && (forall i :: 0 <= i < used ==> !Fulfilled(t, i))
    && (forall i :: 0 <= i < used - 1 ==> !Breaks(t, i))
  }

  /** The exchange has ended without being complete: the last turn broke it, or there is no other. */
  predicate Ended(t: Trade, used: nat)
    requires used <= |t.turns|
  {
    && GoesInto(t, used)
    && ((used > 0 && Breaks(t, used - 1)) || (used == |t.turns| && !Fulfilled(t, used)))
  }

  lemma EndedUnfinished(t: Trade, used: nat)
    requires used <= |t.turns| && Ended(t, used)
    ensures Finished(t).None?
  {
    FinishIff(t, 0);
  }

  /** A read that comes up empty leaves no chance to write in the same turn. */
  function SentBy(t: Trade, used: nat): nat
    requires used <= |t.turns|
  {
    if used > 0 && EmptyRead(t, used - 1) then Sent(t, used - 1) else Sent(t, used)
  }

  predicate Closes(t: Trade, k: nat)
    requires k < |t.turns|
  {
    EmptyRead(t, k) || BadWrite(t, k)
  }

  lemma GotNext(t: Trade, k: nat)
    requires k < |t.turns|
    ensures Got(t, k + 1) == Got(t, k)
      + (if t.turns[k].Selected? then Min(Offer(t.turns[k].read), Min(t.size - Got(t, k), t.available - Got(t, k)))
         else 0)
  {
  }

  lemma SentNext(t: Trade, k: nat)
    requires k < |t.turns|
    ensures Sent(t, k + 1) == Sent(t, k)
      + if t.turns[k].Selected? then Min(Offer(t.turns[k].write), t.out - Sent(t, k)) else 0
  {
  }

  /** How many bytes one turn reads. */
  function Reading(x: Exchange, read: IO, available: nat): (n: nat)
    ensures n <= x.need && n <= available
  {
    Min(Offer(read), Min(x.need, available))
  }

  /** How many it writes. */
  function Writing(x: Exchange, read: IO, write: IO, available: nat): (m: nat)
    ensures m <= |x.out|
  {
    if x.need > 0 && !read.NotReady? && Reading(x, read, available) == 0 then 0 else Min(Offer(write), |x.out|)
  }

  predicate Shuts(x: Exchange, read: IO, write: IO, available: nat) {
    || (x.need > 0 && !read.NotReady? && Reading(x, read, available) == 0)
    || (x.out != [] && write.Error?)
  }

  /** The turn in the counts of the whole exchange. */
  lemma TurnCounts(t: Trade, k: nat, x: Exchange, available: nat)
    requires k < |t.turns| && t.turns[k].Selected? && x.need == t.size - Got(t, k)
    requires |x.out| == t.out - Sent(t, k) && available == t.available - Got(t, k)
    ensures var read, write := t.turns[k].read, t.turns[k].write;
      && Got(t, k + 1) == Got(t, k) + Reading(x, read, available)
      && SentBy(t, k + 1) == Sent(t, k) + Writing(x, read, write, available)
      && (Shuts(x, read, write, available) <==> Closes(t, k))
      && (Closes(t, k) <==> Breaks(t, k))
  {
    GotNext(t, k);
    SentNext(t, k);
  }

  /** After `used` turns of an exchange that is not over, or whose socket was closed by the last one. */
  predicate Trading(t: Trade, used: nat, got: nat, sent: nat, open: bool) {
    && used <= |t.turns| && got == Got(t, used) && sent == SentBy(t, used) && GoesInto(t, used)
    && if open then used > 0 ==> !Breaks(t, used - 1) else used > 0 && Closes(t, used - 1)
  }

  /** How an exchange ends. */
  predicate Traded(t: Trade, used: nat, got: nat, sent: nat, failed: bool, open: bool) {
    && used <= |t.turns|
    && if Finished(t).Some? then !failed && open && used == Finished(t).value
       else
         && failed && Ended(t, used) && got == Got(t, used) && sent == SentBy(t, used)
         && (open <==> !(used > 0 && Closes(t, used - 1)))
  }

  /** An exchange under way, or `stopped` by what `select` returned. */
  predicate Under(t: Trade, used: nat, got: nat, sent: nat, stopped: bool, open: bool) {
    if stopped then open && Traded(t, used, got, sent, true, true) else Trading(t, used, got, sent, open)
  }

  lemma TradeInterrupted(t: Trade, used: nat, got: nat, sent: nat)
    requires Trading(t, used, got, sent, true) && (got < t.size || sent < t.out)
    requires used < |t.turns| && t.turns[used].Interrupted?
    ensures Trading(t, used + 1, got, sent, true)
  {
    GotNext(t, used);
    SentNext(t, used);
  }

  lemma TradeFailed(t: Trade, used: nat, got: nat, sent: nat)
    requires Trading(t, used, got, sent, true) && (got < t.size || sent < t.out)
    requires used < |t.turns| && t.turns[used].Failed?
    ensures Traded(t, used + 1, got, sent, true, true)
  {
    GotNext(t, used);
    SentNext(t, used);
    EndedUnfinished(t, used + 1);
  }

  lemma TradeSelected(t: Trade, used: nat, x: Exchange, available: nat)
    requires x.need <= t.size && |x.out| <= t.out && available == t.available - (t.size - x.need)
    requires Trading(t, used, t.size - x.need, t.out - |x.out|, true) && !Done(x)
    requires used < |t.turns| && t.turns[used].Selected?
    ensures var read, write := t.turns[used].read, t.turns[used].write;
      Trading(t, used + 1, t.size - x.need + Reading(x, read, available),
              t.out - |x.out| + Writing(x, read, write, available), !Shuts(x, read, write, available))
  {
    TurnCounts(t, used, x, available);
  }

  lemma TradeOver(t: Trade, used: nat, got: nat, sent: nat, open: bool)
    requires Trading(t, used, got, sent, open)
    requires (got == t.size && sent == t.out) || !open || used == |t.turns|
    ensures Traded(t, used, got, sent, got < t.size || sent < t.out, open)
  {
    if got == t.size && sent == t.out {
      ClosedUnfinished(t, used, got, sent, open);
      FinishAt(t, 0, used);
    } else {
      EndedUnfinished(t, used);
    }
  }

  /** A socket is only closed while bytes are missing. */
  lemma ClosedUnfinished(t: Trade, used: nat, got: nat, sent: nat, open: bool)
    requires Trading(t, used, got, sent, open) && got == t.size && sent == t.out
    ensures open && Fulfilled(t, used) && forall i :: 0 <= i < used ==> !Breaks(t, i)
  {
    if used > 0 {
      GotNext(t, used - 1);
      SentNext(t, used - 1);
    }
  }

  /** With no failing call, no read that comes up empty, and enough offered and there, an exchange
      succeeds, however often it is interrupted. */
  lemma EnoughOffered(t: Trade)
    requires ReadOffer(t.turns, |t.turns|) >= t.size && WriteOffer(t.turns, |t.turns|) >= t.out
    requires t.available >= t.size
    requires forall i :: 0 <= i < |t.turns| ==>
      && !t.turns[i].Failed?
      && (t.turns[i].Selected? ==>
            && (t.turns[i].read.NotReady? || Offer(t.turns[i].read) > 0)
            && !t.turns[i].write.Error?)
    ensures Finished(t).Some?
  {
    FinishIff(t, 0);
    assert Fulfilled(t, |t.turns|);
    assert forall i :: 0 <= i < |t.turns| ==> !Breaks(t, i);
  }

  class Node {
    var socket: int            // -1 when there is none
    var incoming: seq<byte>    // the bytes the peer's side of the connection will still deliver
    var wire: seq<byte>        // the bytes handed to the network

    predicate Open()
      reads this
    {
      socket != -1
    }

    method Close()
      modifies this`socket
      ensures !Open()
    {
      socket := -1;
    }

    method Send(data: seq<byte>, io: IO) returns (sent: nat)
      modifies this`socket, this`wire
      ensures sent == (if io.Ready? then Min(io.n, |data|) else 0)
      ensures wire == old(wire) + data[..sent]
      ensures socket == if io.Error? then -1 else old(socket)
    {
      match io
      case Error =>
        socket := -1;
        sent := 0;
        assert wire == wire + data[..0];
      case NotReady =>
        sent := 0;
        assert wire == wire + data[..0];
      case Ready(n) =>
        sent := Min(n, |data|);
        wire := wire + data[..sent];
    }

    /** Receiving nothing, for whatever reason, closes the socket. */
    method Recv(size: nat, io: IO) returns (chunk: seq<byte>)
      modifies this`socket, this`incoming
      ensures |chunk| == if io.Ready? then Min(io.n, Min(size, |old(incoming)|)) else 0
      ensures old(incoming) == chunk + incoming
      ensures socket == if chunk == [] then -1 else old(socket)
    {
      var n := if io.Ready? then Min(io.n, Min(size, |incoming|)) else 0;
      chunk := incoming[..n];
      incoming := incoming[n..];
      if n == 0 {
        socket := -1;
      }
    }

    /** One turn of an exchange: a read if bytes are wanted and the socket is readable, and a write if
        there are bytes left, the socket is writable and still open. */
    method ExchangeOnce(x: Exchange, read: IO, write: IO, ghost data: seq<byte>, ghost size: nat,
                        ghost had: seq<byte>, ghost was: seq<byte>) returns (y: Exchange)
      requires Open() && SoFar(data, size, x, had, incoming, was, wire)
      modifies this
      ensures SoFar(data, size, y, had, incoming, was, wire)
      ensures |y.got| == |x.got| + Reading(x, read, |old(incoming)|)
      ensures |y.out| == |x.out| - Writing(x, read, write, |old(incoming)|)
      ensures socket == if Shuts(x, read, write, |old(incoming)|) then -1 else old(socket)
    {
      y := x;
      ghost var n, m := 0, 0;
      assert x.got + incoming[..0] == x.got && incoming[0..] == incoming;
      assert x.out[0..] == x.out && wire + x.out[..0] == wire;
      if x.need > 0 && !read.NotReady? {
        var chunk := Recv(x.need, read);
        n := |chunk|;
        assert chunk == old(incoming)[..n] && incoming == old(incoming)[n..];
        y := Get(y, chunk);
      }
      if y.out != [] && !write.NotReady? && socket != -1 {
        var sent := Send(y.out, write);
        m := sent;
        y := Put(y, sent);
      }
      SoFarNext(data, size, x, y, n, m, had, old(incoming), was, old(wire));
    }

    method NextTurn(x: Exchange, turn: Turn, ghost t: Trade, ghost used: nat, ghost data: seq<byte>,
                    ghost had: seq<byte>, ghost was: seq<byte>) returns (y: Exchange, stopped: bool)
      requires Open() && SoFar(data, t.size, x, had, incoming, was, wire) && !Done(x)
      requires |data| == t.out && |had| == t.available && used < |t.turns| && turn == t.turns[used]
      requires Trading(t, used, |x.got|, |data| - |x.out|, true)
      modifies this
      ensures SoFar(data, t.size, y, had, incoming, was, wire)
      ensures Under(t, used + 1, |y.got|, |data| - |y.out|, stopped, Open())
      ensures (Open() ==> socket == old(socket)) && (stopped ==> !Done(y))
    {
      y, stopped := x, false;
      match turn
      case Interrupted =>
        TradeInterrupted(t, used, |x.got|, |data| - |x.out|);
      case Failed =>
        TradeFailed(t, used, |x.got|, |data| - |x.out|);
        stopped := true;
      case Selected(read, write) =>
        TradeSelected(t, used, x, |incoming|);
        y := ExchangeOnce(x, read, write, data, t.size, had, was);
    }

    /** Sends `data` while receiving `size` bytes, for as long as `turns` says. However the bytes are
        cut up and interleaved, what goes out is a prefix of `data`, what comes in is the next bytes
        of the peer's stream and no more than `size` of them, and success means all of both. Only a
        failing `select`, a read that comes up empty or a failing write make it fail, or that the
        turns are used up; an interruption does not. */
    method ExchangeAll(data: seq<byte>, size: nat, turns: seq<Turn>)
      returns (failed: bool, x: Exchange, rest: seq<Turn>)
      modifies this
      ensures SoFar(data, size, x, old(incoming), incoming, old(wire), wire)
      ensures failed <==> !Done(x)
      ensures |rest| <= |turns| && rest == turns[|turns| - |rest|..]
      ensures old(Open()) ==> (failed <==> Finished(Trade(turns, |data|, size, |old(incoming)|)).None?)
      ensures if old(Open())
        then Traded(Trade(turns, |data|, size, |old(incoming)|), |turns| - |rest|,
                    |x.got|, |data| - |x.out|, failed, Open())
             && (Open() ==> socket == old(socket))
        else rest == turns && x == Exchange(data, [], size) && socket == -1
    {
      x := Exchange(data, [], size);
      rest := turns;
      ghost var t := Trade(turns, |data|, size, |incoming|);
      ghost var used := 0;
      SoFarStarts(data, size, incoming, wire);
      var stopped := false;
      while !stopped && !Done(x) && socket != -1
        invariant used == |turns| - |rest| && rest == turns[used..]
        invariant SoFar(data, size, x, old(incoming), incoming, old(wire), wire)
        invariant (socket != -1 ==> socket == old(socket)) && (stopped ==> !Done(x))
        invariant if old(Open()) then Under(t, used, |x.got|, |data| - |x.out|, stopped, socket != -1)
                  else used == 0 && x == Exchange(data, [], size) && !stopped && socket == -1
        decreases |rest|, !stopped
      {
        if rest == [] {
          TradeOver(t, used, |x.got|, |data| - |x.out|, true);
          stopped := true;
        } else {
          var turn := rest[0];
          rest := rest[1..];
          x, stopped := NextTurn(x, turn, t, used, data, old(incoming), old(wire));
          used := used + 1;
        }
      }
      failed := !Done(x);
      if old(Open()) && !stopped {
        TradeOver(t, used, |x.got|, |data| - |x.out|, socket != -1);
      }
    }
  }
}
