/** The key file and its moving head: src/key.c. */
module Keys {
  import opened Bytes

  const MAGIC := Ascii("OTPCHAT0")
  const HEAD_OFFSET := 8
  const ID_OFFSET := 16
  const DATA_OFFSET := 32
  const BUFFER_SIZE := 4096

  lemma MagicBytes()
    ensures MAGIC == [0x4F, 0x54, 0x50, 0x43, 0x48, 0x41, 0x54, 0x30]
  {
    var s := "OTPCHAT0";
    assert s == ['O', 'T', 'P', 'C', 'H', 'A', 'T', '0'];
  }

  // ----- The C library's stream: the file's content and the position in it

  datatype Stream = Stream(bytes: seq<byte>, pos: nat)

  /** What `fread` of `n` bytes at `pos` returns: short at the end of the file. */
  function ReadAt(bytes: seq<byte>, pos: nat, n: nat): (r: seq<byte>)
    ensures |r| == if pos < |bytes| then Min(n, |bytes| - pos) else 0
  {
    if pos < |bytes| then bytes[pos..Min(pos + n, |bytes|)] else []
  }

  /** The content after `fwrite`; a write past the end fills the gap with zeros. */
  function WriteAt(bytes: seq<byte>, pos: nat, data: seq<byte>): seq<byte> {
    var base := bytes + seq(if pos > |bytes| && data != [] then pos - |bytes| else 0, _ => 0);
    if data == [] then bytes else base[..pos] + data + base[Min(pos + |data|, |base|)..]
  }

  /** A write changes the bytes it covers and no others. */
  lemma WriteAtBytes(bytes: seq<byte>, pos: nat, data: seq<byte>, i: nat)
    ensures |WriteAt(bytes, pos, data)| == if data != [] && pos + |data| > |bytes| then pos + |data| else |bytes|
    ensures i < |WriteAt(bytes, pos, data)| ==>
      WriteAt(bytes, pos, data)[i] == if pos <= i < pos + |data| then data[i - pos]
                                      else if i < |bytes| then bytes[i] else 0
  {
  }

  /** A `uint64_t` passed where `fseek` takes a `long`. */
  function ToLong(x: uint64): int {
    if x < TWO63 then x else x - TWO64
  }

  /** The file position `fseek` goes to for a head, if it accepts it. The addition wraps. */
  function Position(head: uint64): (p: Option<nat>)
    ensures p == (if head + DATA_OFFSET < TWO63 then Some(head + DATA_OFFSET)
                  else if head + DATA_OFFSET < TWO64 then None
                  else Some(head + DATA_OFFSET - TWO64))
  {
    var offset := ToLong((head + DATA_OFFSET) % TWO64);
    if offset < 0 then None else Some(offset)
  }

  // ----- The key as a value, and what each operation does to it

  datatype KeyState = KeyState(stream: Stream, size: nat, id: seq<byte>, head: uint64)

  function Seek(k: KeyState, newHead: uint64): KeyState {
    var p := Position(newHead);
    k.(stream := k.stream.(pos := if p.Some? then p.value else k.stream.pos), head := newHead)
  }

  function GetBlock(k: KeyState, n: nat): (r: (KeyState, seq<byte>)) {
    var data := ReadAt(k.stream.bytes, k.stream.pos, n);
    (k.(stream := k.stream.(pos := k.stream.pos + |data|), head := (k.head + |data|) % TWO64), data)
  }

  datatype Crypt = Crypt(key: KeyState, text: seq<byte>, failed: bool)

  /** `encrypt`, and `decrypt`: XOR with the next key bytes, or the text unchanged when they run out. */
  function Encrypt(k: KeyState, text: seq<byte>): (c: Crypt)
    ensures |c.text| == |text|
  {
    var (k', block) := GetBlock(k, |text|);
    if |block| < |text| then Crypt(k', text, true) else Crypt(k', Mask(block, text), false)
  }

  /** Bit by bit: encryption sets a bit exactly when the bits of the text and of the key byte that
      stands in its place, from the file position on, differ. */
  lemma EncryptBits(k: KeyState, text: seq<byte>, j: nat, i: nat)
    requires !Encrypt(k, text).failed && j < |text| && i < 8
    ensures k.stream.pos + j < |k.stream.bytes|
    ensures Bit(Encrypt(k, text).text[j], i) == 1 <==> Bit(k.stream.bytes[k.stream.pos + j], i) != Bit(text[j], i)
  {
    var block := ReadAt(k.stream.bytes, k.stream.pos, |text|);
    assert block[j] == k.stream.bytes[k.stream.pos + j];
    XorAt(block[j], text[j], i);
  }

  function Open(file: seq<byte>): Option<KeyState> {
    if |file| < DATA_OFFSET || file[..HEAD_OFFSET] != MAGIC then None
    else
      LittleEndianOnto(file[HEAD_OFFSET..ID_OFFSET]);
      Widths();
      var head: uint64 := FromLittleEndian(file[HEAD_OFFSET..ID_OFFSET]);
      var p := Position(head);
      if p.None? then None
      else Some(KeyState(Stream(file, p.value), |file| - DATA_OFFSET, file[ID_OFFSET..DATA_OFFSET], head))
  }

  /** The content a close leaves in the file. */
  function Close(k: KeyState): seq<byte> {
    WriteAt(k.stream.bytes, HEAD_OFFSET, LittleEndian(8, k.head))
  }

  /** What one read of the random source has to offer, and whether the file then takes it. */
  datatype Draw = Draw(bytes: seq<byte>, stored: bool)

  /** The `need` bytes that reads of the random source give; an empty read is its failure. */
  function Fill(supply: seq<Draw>, need: nat): (r: Option<seq<byte>>)
    ensures r.Some? ==> |r.value| == need
  {
    if need == 0 then Some([])
    else if supply == [] || supply[0].bytes == [] || !supply[0].stored then None
    else
      var chunk := supply[0].bytes[..Min(|supply[0].bytes|, Min(BUFFER_SIZE, need))];
      var rest := Fill(supply[1..], need - |chunk|);
      if rest.None? then None else Some(chunk + rest.value)
  }

  function NewFile(id: seq<byte>, data: seq<byte>): seq<byte> {
    MAGIC + LittleEndian(8, 0) + id + data
  }

  /** The first key of the store with this id. */
  function Find(keys: seq<KeyState>, id: seq<byte>): (r: Option<nat>)
    ensures r.None? <==> forall i :: 0 <= i < |keys| ==> keys[i].id != id
    ensures r.Some? ==> r.value < |keys| && keys[r.value].id == id
    ensures r.Some? ==> forall i :: 0 <= i < r.value ==> keys[i].id != id
  {
    if keys == [] then None
    else if keys[0].id == id then Some(0)
    else
      var r := Find(keys[1..], id);
      if r.None? then None else Some(r.value + 1)
  }

  /** A message whose bytes from `from` on are masked one by one. */
  lemma MaskedTail(after: seq<byte>, before: seq<byte>, pad: seq<byte>, from: nat)
    requires |after| == |before| == from + |pad|
    requires forall j :: 0 <= j < from ==> after[j] == before[j]
    requires forall j :: from <= j < |after| ==> after[j] == Xor(pad[j - from], before[j])
    ensures after == before[..from] + Mask(pad, before[from..])
  {
  }

  // ----- struct key

  class Key {
    var stream: Option<Stream>
    var size: nat
    var id: seq<byte>
    var head: uint64

    function State(): KeyState
      requires stream.Some?
      reads this
    {
      KeyState(stream.value, size, id, head)
    }

    /** `file` is the content found at the path, if the file could be opened. */
    method OpenFile(file: Option<seq<byte>>) returns (failed: bool)
      modifies this
      ensures failed <==> file.None? || Open(file.value).None?
      ensures !failed ==> stream.Some? && State() == Open(file.value).value
      ensures failed ==> stream.None?
    {
      stream := None;
      if file.None? {
        return true;
      }
      var bytes := file.value;
      var magic := ReadAt(bytes, 0, 8);
      if |magic| != 8 || magic != MAGIC {
        return true;
      }
      var savedHead := ReadAt(bytes, 8, 8);
      if |savedHead| != 8 {
        return true;
      }
      var savedId := ReadAt(bytes, 16, 16);
      if |savedId| != 16 {
        return true;
      }
      LittleEndianOnto(savedHead);
      Widths();
      id := savedId;
      head := FromLittleEndian(savedHead);
      size := |bytes| - DATA_OFFSET;
      var p := Position(head);
      if p.None? {
        return true;
      }
      stream := Some(Stream(bytes, p.value));
      return false;
    }

    /** Writes a new key file of `sz` data bytes; `supply` lists the reads of the random source. */
    method Create(sz: nat, randomId: seq<byte>, supply: seq<Draw>) returns (failed: bool)
      requires |randomId| == 16
      modifies this
      ensures failed <==> Fill(supply, sz).None?
      ensures !failed ==> stream == Some(Stream(NewFile(randomId, Fill(supply, sz).value), DATA_OFFSET))
      ensures !failed ==> head == 0 && size == sz && id == randomId
      ensures failed ==> stream.None?
    {
      var bytes := WriteAt([], 0, MAGIC);
      head := 0;
      bytes := WriteAt(bytes, 8, LittleEndian(8, head));
      id := randomId;
      bytes := WriteAt(bytes, 16, id);
      var written, i := 0, 0;
      ghost var data: seq<byte> := [];
      assert supply[0..] == supply;
      assert forall r: seq<byte> :: data + r == r;
      while written < sz
        invariant written <= sz && i <= |supply| && |data| == written
        invariant bytes == NewFile(randomId, data)
        invariant var rest := Fill(supply[i..], sz - written);
          Fill(supply, sz) == if rest.None? then None else Some(data + rest.value)
        decreases sz - written
      {
        var bsize := Min(BUFFER_SIZE, sz - written);
        var chunk := if i < |supply| then supply[i].bytes[..Min(|supply[i].bytes|, bsize)] else [];
        if chunk == [] || !supply[i].stored {
          stream := None;
          return true;
        }
        ghost var before := data;
        assert supply[i..][1..] == supply[i + 1..];
        bytes := WriteAt(bytes, |bytes|, chunk);
        data := data + chunk;
        written := written + |chunk|;
        i := i + 1;
        assert forall r: seq<byte> :: before + (chunk + r) == data + r;
      }
      assert data + [] == data;
      size := sz;
      stream := Some(Stream(bytes, DATA_OFFSET));
      return false;
    }

    /** Saves the head and closes; `disk` is the file content left behind, if a file was open. */
    method CloseFile() returns (disk: Option<seq<byte>>)
      modifies this
      ensures stream.None?
      ensures disk == if old(stream).Some? then Some(Close(old(State()))) else None
    {
      if stream.None? {
        return None;
      }
      disk := Some(WriteAt(stream.value.bytes, HEAD_OFFSET, LittleEndian(8, head)));
      stream := None;
    }

    method SeekHead(newHead: uint64)
      requires stream.Some?
      modifies this
      ensures stream.Some? && State() == Seek(old(State()), newHead)
    {
      var p := Position(newHead);
      if p.Some? {
        stream := Some(stream.value.(pos := p.value));
      }
      head := newHead;
    }

    method TakeBlock(n: nat) returns (block: seq<byte>, failed: bool)
      requires stream.Some?
      modifies this
      ensures stream.Some? && (State(), block) == GetBlock(old(State()), n)
      ensures failed <==> |block| < n
    {
      block := ReadAt(stream.value.bytes, stream.value.pos, n);
      stream := Some(stream.value.(pos := stream.value.pos + |block|));
      head := (head + |block|) % TWO64;
      failed := |block| != n;
    }

    /** XORs the bytes of `message` from index `from` on, in place. */
    method EncryptInPlace(message: array<byte>, from: nat) returns (failed: bool)
      requires stream.Some? && from <= message.Length
      modifies this, message
      ensures stream.Some?
      ensures var c := Encrypt(old(State()), old(message[from..]));
        State() == c.key && failed == c.failed && message[..] == old(message[..from]) + c.text
    {
      var n := message.Length - from;
      var block;
      block, failed := TakeBlock(n);
      if failed {
        return;
      }
      ghost var before := message[..];
      for i := 0 to n
        modifies message
        invariant forall j :: 0 <= j < from || from + i <= j < message.Length ==> message[j] == before[j]
        invariant forall j :: from <= j < from + i ==> message[j] == Xor(block[j - from], before[j])
      {
        message[from + i] := Xor(block[i], message[from + i]);
      }
      MaskedTail(message[..], before, block, from);
    }
  }

  // ----- Coherence: the file position is always the head plus 32

  predicate Coherent(k: KeyState) {
    k.stream.pos == k.head + DATA_OFFSET && k.stream.pos < TWO63 && |k.stream.bytes| < TWO63
  }

  /** Seeking keeps the position at head + 32 exactly for heads whose offset fits a `long`. */
  lemma SeekCoherent(k: KeyState, newHead: uint64)
    requires k.stream.pos < TWO63 && |k.stream.bytes| < TWO63
    ensures Coherent(Seek(k, newHead)) <==> newHead + DATA_OFFSET < TWO63
  {
  }

  /** Reading key bytes moves head and position alike, also when the key runs out. */
  lemma EncryptCoherent(k: KeyState, text: seq<byte>)
    requires Coherent(k)
    ensures var c := Encrypt(k, text);
      && Coherent(c.key)
      && c.key.stream.bytes == k.stream.bytes
      && c.key.head == k.head + |ReadAt(k.stream.bytes, k.stream.pos, |text|)|
      && (c.failed <==> text != [] && k.head + |text| > |k.stream.bytes| - DATA_OFFSET)
      && (c.failed ==> c.text == text && c.key.stream.pos >= |k.stream.bytes|)
      && (!c.failed ==> c.key.head == k.head + |text|)
  {
  }
}
