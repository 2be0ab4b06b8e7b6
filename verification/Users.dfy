/** Key store lookup and the connection state of one user: src/user.c, with key_store_find of
    src/key.c. */
module Users {
  import opened Bytes
  import opened Keys
  import opened Nodes
  import opened Connection

  /** The one of the stored keys that `Find` names by their states. */
  ghost function KeyFor(remotes: seq<Key>, known: seq<KeyState>, id: seq<byte>): Key?
    requires |known| == |remotes|
  {
    var r := Find(known, id);
    if r.None? then null else remotes[r.value]
  }

  class KeyStore {
    var local: Key
    var remotes: seq<Key>

    /** Every key is open, and no two slots share one. */
    predicate Valid()
      reads this, local, remotes
    {
      && local.stream.Some? && |local.id| == ID_SIZE && local !in remotes
      && (forall i :: 0 <= i < |remotes| ==> remotes[i].stream.Some?)
      && forall i, j :: 0 <= i < j < |remotes| ==> remotes[i] != remotes[j]
    }

    /** `known` lists the states of the remote keys. */
    predicate ListedBy(known: seq<KeyState>)
      reads this, remotes
    {
      && |known| == |remotes|
      && forall i :: 0 <= i < |known| ==> remotes[i].stream.Some? && known[i] == remotes[i].State()
    }

    function States(): (known: seq<KeyState>)
      requires forall i :: 0 <= i < |remotes| ==> remotes[i].stream.Some?
      reads this, remotes
      ensures ListedBy(known)
    {
      seq(|remotes|, i requires 0 <= i < |remotes| reads this, remotes
                       requires remotes[i].stream.Some? => remotes[i].State())
    }

    constructor (local: Key, remotes: seq<Key>)
      ensures this.local == local && this.remotes == remotes
    {
      this.local, this.remotes := local, remotes;
    }

    /** The first remote key with this id, or null. */
    method FindRemote(id: seq<byte>, ghost known: seq<KeyState>) returns (key: Key?)
      requires ListedBy(known)
      ensures key == KeyFor(remotes, known, id)
      ensures key != null ==> key in remotes && key.id == id
    {
      for i := 0 to |remotes|
        invariant forall j :: 0 <= j < i ==> known[j].id != id
      {
        if remotes[i].id == id {
          assert known[i].id == id;
          return remotes[i];
        }
        assert known[i].id != id;
      }
      return null;
    }
  }

  datatype ConnectionState = NOT_CONNECTED | CONNECTING | CONNECTED

  /** How opening an outgoing connection goes: the address does not resolve, no socket, refused at
      once (which leaves the number of a closed socket behind), or under way. */
  datatype Opening = NoAddress | NoSocket | Refused(socket: int) | UnderWay(socket: int, incoming: seq<byte>)

  /** The accept byte with which the handshake answers a hello, once it has read one. */
  function Answer(keys: seq<KeyState>, input: seq<byte>): seq<byte> {
    if |input| < HELLO_SIZE || input[..8] != PROTOCOL then []
    else [if Find(keys, input[8..HELLO_SIZE]).Some? then 1 else 0]
  }

  /** Not all bytes of the two exchanges have been moved. */
  predicate Unfinished(input: seq<byte>, output: seq<byte>) {
    |input| < HELLO_SIZE || |output| < HELLO_SIZE || (input[..8] == PROTOCOL && |input| + |output| < 2 * HANDSHAKE_SIZE)
  }

  /** What a handshake that returns `code` has read and written. Nothing goes out but the hello and
      the answer to the peer's, nothing comes in beyond 25 bytes, the accept byte is read after both
      hellos are complete, and once both exchanges are the code is told by the bytes read. */
  predicate HandshakeBytes(keys: seq<KeyState>, id: seq<byte>, code: nat, input: seq<byte>, output: seq<byte>) {
    && |input| <= HANDSHAKE_SIZE
    && output <= HelloOf(id) + Answer(keys, input)
    && (|input| > HELLO_SIZE ==> input[..8] == PROTOCOL && |output| >= HELLO_SIZE)
    && (code == 4 ==> Unfinished(input, output))
    && (code != 4 ==>
          && code == Judge(keys, input)
          && |input| == (if code == 1 then HELLO_SIZE else HANDSHAKE_SIZE)
          && output == HelloOf(id) + Answer(keys, input))
  }

  /** What a handshake over an open socket must return, by what the operating system does in its turns
      and the peer's stream: 4 if one of the exchanges does not get complete. */
  function HandshakeCode(keys: seq<KeyState>, incoming: seq<byte>, turns: seq<Turn>): nat {
    var hello := Finished(Trade(turns, HELLO_SIZE, HELLO_SIZE, |incoming|));
    if hello.None? || |incoming| < HELLO_SIZE then 4
    else if incoming[..8] != PROTOCOL then 1
    else
      var accept := Finished(Trade(turns[hello.value..], 1, 1, |incoming| - HELLO_SIZE));
      if accept.None? || |incoming| < HANDSHAKE_SIZE then 4 else Judge(keys, incoming[..HANDSHAKE_SIZE])
  }

  /** A peer that is known, knows this side and sends its 25 bytes is connected to, given enough turns
      without a failing call. */
  lemma HandshakeSucceeds(keys: seq<KeyState>, incoming: seq<byte>, turns: seq<Turn>, first: nat)
    requires |incoming| >= HANDSHAKE_SIZE && incoming[..8] == PROTOCOL && incoming[HELLO_SIZE] != 0
    requires Find(keys, incoming[8..HELLO_SIZE]).Some?
    requires first <= |turns| && Finished(Trade(turns, HELLO_SIZE, HELLO_SIZE, |incoming|)) == Some(first)
    requires Finished(Trade(turns[first..], 1, 1, |incoming| - HELLO_SIZE)).Some?
    ensures HandshakeCode(keys, incoming, turns) == 0
  {
    var input := incoming[..HANDSHAKE_SIZE];
    assert input[..8] == incoming[..8] && input[8..HELLO_SIZE] == incoming[8..HELLO_SIZE];
  }

  /** Both hellos have been exchanged, and a key looked up. */
  predicate Looked(input: seq<byte>, output: seq<byte>) {
    |input| >= HELLO_SIZE && |output| >= HELLO_SIZE && input[..8] == PROTOCOL
  }

  /** A successful handshake takes the first 25 bytes of the peer's stream, and writes as many. */
  lemma SuccessBytes(keys: seq<KeyState>, id: seq<byte>, input: seq<byte>, output: seq<byte>,
                     incoming: seq<byte>, rest: seq<byte>)
    requires HandshakeBytes(keys, id, 0, input, output) && incoming == input + rest
    ensures |incoming| >= HANDSHAKE_SIZE && rest == incoming[HANDSHAKE_SIZE..]
    ensures input[8..HELLO_SIZE] == incoming[8..HELLO_SIZE]
    ensures output == HelloOf(id) + [1]
  {
    assert input[8..HELLO_SIZE] == incoming[8..HELLO_SIZE];
  }

  lemma HelloBytes(keys: seq<KeyState>, id: seq<byte>, x: Exchange)
    requires |id| == ID_SIZE && |x.out| <= |HelloOf(id)| && |x.got| + x.need == HELLO_SIZE
    ensures var output := HelloOf(id)[..|HelloOf(id)| - |x.out|];
      && (!Done(x) ==> HandshakeBytes(keys, id, 4, x.got, output))
      && (Done(x) && x.got[..8] != PROTOCOL ==> HandshakeBytes(keys, id, 1, x.got, output))
  {
    assert HelloOf(id) <= HelloOf(id) + Answer(keys, x.got);
    assert HelloOf(id) + [] == HelloOf(id);
  }

  lemma AcceptBytes(keys: seq<KeyState>, id: seq<byte>, first: seq<byte>, accept: seq<byte>, x: Exchange)
    requires |id| == ID_SIZE && |first| == HELLO_SIZE && first[..8] == PROTOCOL
    requires accept == Answer(keys, first) && |x.out| <= 1 && |x.got| + x.need == 1
    ensures var input, output := first + x.got, HelloOf(id) + accept[..1 - |x.out|];
      && (!Done(x) ==> HandshakeBytes(keys, id, 4, input, output))
      && (Done(x) ==> HandshakeBytes(keys, id, Judge(keys, input), input, output)
                      && Judge(keys, input) == (if x.got[0] == 0 then 2 else if accept == [0] then 3 else 0))
      && input[8..HELLO_SIZE] == first[8..]
  {
    var input := first + x.got;
    assert input[..8] == first[..8] && input[8..HELLO_SIZE] == first[8..HELLO_SIZE] == first[8..];
    assert accept[..1] == accept;
  }

  class User {
    var key: Key?
    const node: Node
    var state: ConnectionState

    constructor (node: Node)
      ensures this.node == node && key == null && state == NOT_CONNECTED
    {
      this.node := node;
      key, state := null, NOT_CONNECTED;
    }

    /** A stored key is one of the store, and there is one whenever the user is connected. */
    predicate Keyed(keys: KeyStore)
      reads this, keys
    {
      (key != null ==> key in keys.remotes) && (state == CONNECTED ==> key != null)
    }

    method Disconnect()
      modifies this`state, node`socket
      ensures state == NOT_CONNECTED && !node.Open()
    {
      node.Close();
      state := NOT_CONNECTED;
    }

    method BeginConnect(opening: Opening) returns (failed: bool)
      requires opening.UnderWay? ==> opening.socket != -1
      modifies this`state, node
      ensures failed <==> !opening.UnderWay?
      ensures state == if failed then NOT_CONNECTED else CONNECTING
      ensures !failed ==> node.Open() && node.incoming == opening.incoming && node.wire == []
      ensures opening.UnderWay? ==> node.socket == opening.socket
      ensures failed ==> node.socket == if opening.Refused? then opening.socket else -1
      ensures failed ==> node.incoming == old(node.incoming) && node.wire == old(node.wire)
    {
      Disconnect();
      match opening
      case NoAddress => return true;
      case NoSocket => return true;
      case Refused(socket) =>
        node.socket := socket;
        return true;
      case UnderWay(socket, incoming) =>
        node.socket, node.incoming, node.wire := socket, incoming, [];
        state := CONNECTING;
        return false;
    }

    /** The exchange of accept bytes. */
    method SwapAccepts(accept: seq<byte>, turns: seq<Turn>) returns (failed: bool, x: Exchange)
      requires |accept| == 1
      modifies node
      ensures |x.out| <= 1 && |x.got| + x.need == 1 && old(node.incoming) == x.got + node.incoming
      ensures node.wire == old(node.wire) + accept[..1 - |x.out|]
      ensures failed <==> !Done(x)
      ensures !failed ==> node.socket == old(node.socket)
      ensures old(node.Open()) ==> (failed <==> Finished(Trade(turns, 1, 1, |old(node.incoming)|)).None?)
    {
      var rest;
      ghost var t := Trade(turns, |accept|, 1, |node.incoming|);
      assert t == Trade(turns, 1, 1, |node.incoming|);
      failed, x, rest := node.ExchangeAll(accept, 1, turns);
      assert old(node.Open()) ==> (failed <==> Finished(t).None?);
    }

    /** The second half of the handshake, after the peer's hello `first`: looks up its key and
        exchanges accept bytes. */
    method Agree(keys: KeyStore, ghost known: seq<KeyState>, first: seq<byte>, turns: seq<Turn>)
      returns (code: nat, x: Exchange)
      requires keys.ListedBy(known) && |first| == HELLO_SIZE && first[..8] == PROTOCOL
      modifies this`key, node
      ensures |x.out| <= 1 && |x.got| + x.need == 1 && old(node.incoming) == x.got + node.incoming
      ensures node.wire == old(node.wire) + Answer(known, first)[..1 - |x.out|]
      ensures code == if !Done(x) then 4 else if x.got[0] == 0 then 2
                      else if Answer(known, first) == [0] then 3 else 0
      ensures key == KeyFor(keys.remotes, known, first[8..])
      ensures key == null || (key in keys.remotes && key.id == first[8..])
      ensures code == 0 ==> key != null
      ensures code != 4 ==> node.socket == old(node.socket)
      ensures old(node.Open()) ==> (Done(x) <==> Finished(Trade(turns, 1, 1, |old(node.incoming)|)).Some?)
    {
      assert first[8..] == first[8..HELLO_SIZE];
      key := keys.FindRemote(first[8..], known);
      var accept: seq<byte> := [if key != null then 1 else 0];
      assert accept == Answer(known, first);
      var failed;
      failed, x := SwapAccepts(accept, turns);
      code := if failed then 4 else if x.got[0] == 0 then 2 else if key == null then 3 else 0;
    }

    /** Both exchanges of the handshake. `input` and `output` are the bytes read and written, `known`
        the keys of the store. */
    method Handshake(keys: KeyStore, ghost known: seq<KeyState>, turns: seq<Turn>)
      returns (code: nat, ghost input: seq<byte>, ghost output: seq<byte>)
      requires keys.Valid() && keys.ListedBy(known) && Keyed(keys)
      modifies this`key, node
      ensures old(node.incoming) == input + node.incoming
      ensures node.wire == old(node.wire) + output
      ensures HandshakeBytes(known, keys.local.id, code, input, output)
      ensures key == if Looked(input, output) then KeyFor(keys.remotes, known, input[8..HELLO_SIZE]) else old(key)
      ensures key == null || key == old(key) || key in keys.remotes
      ensures code == 0 ==> key != null && key.id == input[8..HELLO_SIZE]
      ensures code != 4 ==> node.socket == old(node.socket)
      ensures old(node.Open()) ==> code == HandshakeCode(known, old(node.incoming), turns)
    {
      ghost var id := keys.local.id;
      var hello := HelloOf(keys.local.id);
      var failed, x, rest := node.ExchangeAll(hello, HELLO_SIZE, turns);
      input, output := x.got, hello[..|hello| - |x.out|];
      HelloBytes(known, id, x);
      if failed {
        return 4, input, output;
      }
      if x.got[..8] != PROTOCOL {
        return 1, input, output;
      }
      var first := x.got;
      code, x := Agree(keys, known, first, rest);
      Assoc(first, x.got, node.incoming);
      Assoc(old(node.wire), hello, Answer(known, first)[..1 - |x.out|]);
      input, output := first + x.got, hello + Answer(known, first)[..1 - |x.out|];
      AcceptBytes(known, id, first, Answer(known, first), x);
    }

    /** `error` is what the socket reports about the connection attempt. Without one, and with an open
        socket, the attempt is as good as its handshake, which reads `input`, writes `output` and
        returns `code`. */
    method FinishConnect(keys: KeyStore, ghost known: seq<KeyState>, error: bool, turns: seq<Turn>)
      returns (failed: bool, ghost code: nat, ghost input: seq<byte>, ghost output: seq<byte>)
      requires keys.Valid() && keys.ListedBy(known) && Keyed(keys)
      modifies this, node
      ensures Keyed(keys)
      ensures error || !old(node.Open()) ==> failed && unchanged(this) && unchanged(node)
      ensures !error && old(node.Open()) ==>
        && code == HandshakeCode(known, old(node.incoming), turns)
        && HandshakeBytes(known, keys.local.id, code, input, output)
        && old(node.incoming) == input + node.incoming && node.wire == old(node.wire) + output
        && (failed <==> code != 0)
        && (failed ==> state == NOT_CONNECTED && !node.Open())
        && (!failed ==> state == CONNECTED && node.socket == old(node.socket))
        && key == if Looked(input, output) then KeyFor(keys.remotes, known, input[8..HELLO_SIZE]) else old(key)
    {
      code, input, output := 4, [], [];
      if error || !node.Open() {
        return true, code, input, output;
      }
      var result;
      result, input, output := Handshake(keys, known, turns);
      code := result;
      if result != 0 {
        Disconnect();
        return true, code, input, output;
      }
      state := CONNECTED;
      return false, code, input, output;
    }

    /** `accepted` is the connection taken from the listening socket, if taking one worked. */
    method Accept(keys: KeyStore, ghost known: seq<KeyState>, accepted: Option<(int, seq<byte>)>,
                  error: bool, turns: seq<Turn>)
      returns (failed: bool, ghost code: nat, ghost input: seq<byte>, ghost output: seq<byte>)
      requires keys.Valid() && Keyed(keys)
      requires accepted.Some? ==> accepted.value.0 != -1 && keys.ListedBy(known)
      modifies this, node
      ensures Keyed(keys)
      ensures accepted.None? ==> failed && unchanged(this) && !node.Open()
      ensures accepted.None? ==> node.incoming == old(node.incoming) && node.wire == old(node.wire)
      ensures accepted.Some? && error ==>
        && failed && unchanged(this) && node.socket == accepted.value.0
        && node.incoming == accepted.value.1 && node.wire == []
      ensures accepted.Some? && !error ==>
        && code == HandshakeCode(known, accepted.value.1, turns)
        && HandshakeBytes(known, keys.local.id, code, input, output)
        && accepted.value.1 == input + node.incoming && node.wire == output
        && (failed <==> code != 0)
        && (failed ==> state == NOT_CONNECTED && !node.Open())
        && (!failed ==> state == CONNECTED && node.socket == accepted.value.0)
        && key == if Looked(input, output) then KeyFor(keys.remotes, known, input[8..HELLO_SIZE]) else old(key)
    {
      if accepted.None? {
        node.socket := -1;
        return true, 4, [], [];
      }
      node.socket, node.incoming, node.wire := accepted.value.0, accepted.value.1, [];
      failed, code, input, output := FinishConnect(keys, known, error, turns);
    }
  }
}
