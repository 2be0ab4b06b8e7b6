/** The input line of src/ui.c: a byte buffer with a byte cursor, edited a key at a time. */
module Editor {
  import opened Bytes
  import opened Text

  const NEWLINE: byte := 10

  /** The keys that edit. `getch` gives the bytes of a character one at a time. */
  datatype EditKey = Byte(b: byte) | Backspace | Left | Right | Home | End

  datatype InputState = InputState(text: seq<byte>, cursor: nat)

  predicate Within(l: InputState) {
    l.cursor <= |l.text|
  }

  // ----- What each key does to the line, for any bytes at all

  /** Searches the first `n` characters for the last one that starts before the cursor. */
  function PrevIndex(cs: seq<seq<byte>>, cursor: nat, n: nat): (k: nat)
    requires n <= |cs|
    ensures k <= n && Offset(cs, k) <= cursor
  {
    if n <= 1 then 0 else if Offset(cs, n - 1) < cursor then n - 1 else PrevIndex(cs, cursor, n - 1)
  }

  function NextIndex(cs: seq<seq<byte>>, cursor: nat, n: nat): (k: nat)
    requires n <= |cs|
    ensures k <= n
  {
    if n == 0 then 0 else if Offset(cs, n - 1) <= cursor then n else NextIndex(cs, cursor, n - 1)
  }

  function PrevStart(l: InputState): nat {
    Offset(Chars(l.text), PrevIndex(Chars(l.text), l.cursor, |Chars(l.text)|))
  }

  function NextStart(l: InputState): nat {
    Offset(Chars(l.text), NextIndex(Chars(l.text), l.cursor, |Chars(l.text)|))
  }

  function Press(l: InputState, key: EditKey): InputState
    requires Within(l)
  {
    match key
    case Byte(b) => InputState(l.text[..l.cursor] + [b] + l.text[l.cursor..], l.cursor + 1)
    case Backspace => InputState(l.text[..PrevStart(l)] + l.text[l.cursor..], PrevStart(l))
    case Left => l.(cursor := PrevStart(l))
    case Right => l.(cursor := NextStart(l))
    case Home => l.(cursor := 0)
    case End => l.(cursor := |l.text|)
  }

  /** There is only one last character that starts before the cursor. */
  lemma PrevUnique(cs: seq<seq<byte>>, cursor: nat, j: nat, k: nat)
    requires AllChars(cs) && IsPrev(cs, cursor, j) && IsPrev(cs, cursor, k)
    ensures j == k
  {
    if j + 1 < k {
      OffsetsRise(cs, j + 1, k);
    } else if k + 1 < j {
      OffsetsRise(cs, k + 1, j);
    }
  }

  lemma NextUnique(cs: seq<seq<byte>>, cursor: nat, j: nat, k: nat)
    requires AllChars(cs) && IsNext(cs, cursor, j) && IsNext(cs, cursor, k)
    ensures j == k
  {
    if j + 1 < k {
      OffsetsRise(cs, j, k - 1);
    } else if k + 1 < j {
      OffsetsRise(cs, k, j - 1);
    }
  }

  lemma {:induction false} PrevIndexIs(cs: seq<seq<byte>>, cursor: nat, n: nat)
    requires n <= |cs|
    ensures var k := PrevIndex(cs, cursor, n);
      (k > 0 ==> k < n && Offset(cs, k) < cursor) && (k + 1 < n ==> Offset(cs, k + 1) >= cursor)
  {
    if n > 1 {
      PrevIndexIs(cs, cursor, n - 1);
    }
  }

  lemma {:induction false} NextIndexIs(cs: seq<seq<byte>>, cursor: nat, n: nat)
    requires n <= |cs|
    ensures var k := NextIndex(cs, cursor, n);
      (k > 0 ==> Offset(cs, k - 1) <= cursor) && (k < n ==> Offset(cs, k) > cursor)
  {
    if n > 0 {
      NextIndexIs(cs, cursor, n - 1);
    }
  }

  lemma PrevStartIs(l: InputState, k: nat)
    requires IsPrev(Chars(l.text), l.cursor, k)
    ensures PrevStart(l) == Offset(Chars(l.text), k)
  {
    CharsAreChars(l.text);
    PrevIndexIs(Chars(l.text), l.cursor, |Chars(l.text)|);
    PrevUnique(Chars(l.text), l.cursor, k, PrevIndex(Chars(l.text), l.cursor, |Chars(l.text)|));
  }

  lemma NextStartIs(l: InputState, k: nat)
    requires IsNext(Chars(l.text), l.cursor, k)
    ensures NextStart(l) == Offset(Chars(l.text), k)
  {
    CharsAreChars(l.text);
    NextIndexIs(Chars(l.text), l.cursor, |Chars(l.text)|);
    NextUnique(Chars(l.text), l.cursor, k, NextIndex(Chars(l.text), l.cursor, |Chars(l.text)|));
  }

  /** Whatever bytes the line holds, no key takes the cursor out of it. */
  lemma PressWithin(l: InputState, key: EditKey)
    requires Within(l)
    ensures Within(Press(l, key))
  {
    CharsFrom(l.text, NextIndex(Chars(l.text), l.cursor, |Chars(l.text)|));
  }

  // ----- The buffer

  /** The C library's `memmove` inside one buffer. */
  method MoveBytes(a: array<byte>, to: nat, from: nat, n: nat)
    requires to + n <= a.Length && from + n <= a.Length
    modifies a
    ensures forall i :: 0 <= i < to || to + n <= i < a.Length ==> a[i] == old(a[i])
    ensures forall i :: to <= i < to + n ==> a[i] == old(a[i - to + from])
  {
    forall i | 0 <= i < n {
      a[to + i] := a[from + i];
    }
  }

  /** Copies `size` bytes to a new buffer with one more, `b`, at the cursor. */
  method OpenGap(a: array<byte>, size: nat, cursor: nat, b: byte, ghost text: seq<byte>) returns (grown: array<byte>)
    requires cursor <= size <= a.Length && text == a[..size]
    ensures fresh(grown) && grown[..] == text[..cursor] + [b] + text[cursor..]
  {
    grown := new byte[size + 1];
    forall i | 0 <= i < size {
      grown[i] := a[i];
    }
    MoveBytes(grown, cursor + 1, cursor, size - cursor);
    grown[cursor] := b;
  }

  /** Moves the bytes from `cursor` up to `size` forward to `start`. */
  method CloseGap(a: array<byte>, size: nat, start: nat, cursor: nat, ghost text: seq<byte>)
    requires start <= cursor <= size <= a.Length && text == a[..size]
    modifies a
    ensures a[..start + size - cursor] == text[..start] + text[cursor..]
  {
    MoveBytes(a, start, cursor, size - cursor);
    forall i | start <= i < start + size - cursor
      ensures a[i] == text[cursor..][i - start]
    {
    }
  }

  class InputLine {
    var data: array<byte>
    var size: nat
    var cursor: nat

    predicate Valid()
      reads this
    {
      cursor <= size <= data.Length
    }

    function State(): InputState
      requires Valid()
      reads this, data
    {
      InputState(data[..size], cursor)
    }

    constructor ()
      ensures Valid() && State() == InputState([], 0) && fresh(data)
    {
      data := new byte[0];
      size, cursor := 0, 0;
    }

    /** Makes room for one byte at the cursor and puts it there. */
    method Insert(b: byte)
      requires Valid()
      modifies this
      ensures Valid() && fresh(data) && State() == Press(old(State()), Byte(b))
    {
      data := OpenGap(data, size, cursor, b, State().text);
      size := size + 1;
      cursor := cursor + 1;
      assert data[..size] == data[..];
    }

    /** Removes the character before the cursor by moving the bytes behind it forward. */
    method Erase()
      requires Valid()
      modifies this, data
      ensures Valid() && data == old(data) && State() == Press(old(State()), Backspace)
    {
      ghost var l := State();
      var offset := PrevChar(data[..size], cursor);
      ghost var k :| IsPrev(Chars(data[..size]), cursor, k) && cursor + offset == Offset(Chars(data[..size]), k);
      PrevStartIs(l, k);
      if offset != 0 {
        CloseGap(data, size, cursor + offset, cursor, l.text);
        cursor := cursor + offset;
        size := size + offset;
      } else {
        assert l.text[..cursor] + l.text[cursor..] == l.text;
      }
    }

    method MoveLeft()
      requires Valid()
      modifies this`cursor
      ensures Valid() && State() == Press(old(State()), Left)
    {
      var offset := PrevChar(data[..size], cursor);
      ghost var k :| IsPrev(Chars(data[..size]), cursor, k) && cursor + offset == Offset(Chars(data[..size]), k);
      PrevStartIs(State(), k);
      cursor := cursor + offset;
    }

    method MoveRight()
      requires Valid()
      modifies this`cursor
      ensures Valid() && State() == Press(old(State()), Right)
    {
      var offset := NextChar(data[..size], cursor);
      ghost var k :| IsNext(Chars(data[..size]), cursor, k) && cursor + offset == Offset(Chars(data[..size]), k);
      NextStartIs(State(), k);
      cursor := cursor + offset;
    }

    /** The editing branches of `ui_handle_input`. */
    method Handle(key: EditKey)
      requires Valid()
      modifies this, data
      ensures Valid() && State() == Press(old(State()), key)
    {
      match key
      case Byte(b) => Insert(b);
      case Backspace => Erase();
      case Left => MoveLeft();
      case Right => MoveRight();
      case Home => cursor := 0;
      case End => cursor := size;
    }
  }

  // ----- The line as characters before and after the cursor

  datatype Zipper = Zipper(before: seq<seq<byte>>, after: seq<seq<byte>>)

  predicate Encodes(l: InputState, z: Zipper) {
    && AllChars(z.before) && AllChars(z.after)
    && l.text == Concat(z.before) + Concat(z.after)
    && l.cursor == |Concat(z.before)|
  }

  /** What the user does: types a whole character, or presses an editing key. */
  datatype Stroke = Type(c: seq<byte>) | Edit(key: EditKey)

  predicate Typable(s: Stroke) {
    match s
    case Type(c) => IsChar(c) && NEWLINE !in c
    case Edit(key) => !key.Byte?
  }

  function KeysOf(s: Stroke): seq<EditKey> {
    match s
    case Type(c) => seq(|c|, i requires 0 <= i < |c| => Byte(c[i]))
    case Edit(key) => [key]
  }

  function PressAll(l: InputState, keys: seq<EditKey>): (r: InputState)
    requires Within(l)
    ensures Within(r)
    decreases |keys|
  {
    if keys == [] then l
    else
      PressWithin(l, keys[0]);
      PressAll(Press(l, keys[0]), keys[1..])
  }

  /** What a stroke means for a list of characters with a cursor between two of them. */
  function Move(z: Zipper, s: Stroke): Zipper {
    var b, a := z.before, z.after;
    match s
    case Type(c) => Zipper(b + [c], a)
    case Edit(Backspace) => if b == [] then z else Zipper(b[..|b| - 1], a)
    case Edit(Left) => if b == [] then z else Zipper(b[..|b| - 1], [b[|b| - 1]] + a)
    case Edit(Right) => if a == [] then z else Zipper(b + [a[0]], a[1..])
    case Edit(Home) => Zipper([], b + a)
    case Edit(End) => Zipper(b + a, [])
    case Edit(Byte(_)) => z
  }

  lemma {:induction false} AllCharsJoin(a: seq<seq<byte>>, b: seq<seq<byte>>)
    requires AllChars(a) && AllChars(b)
    ensures AllChars(a + b)
  {
    if a == [] {
      assert a + b == b;
    } else {
      AllCharsJoin(a[1..], b);
      assert (a + b)[1..] == a[1..] + b;
    }
  }

  lemma ZipperChars(l: InputState, z: Zipper)
    requires Encodes(l, z)
    ensures Chars(l.text) == z.before + z.after && AllChars(Chars(l.text))
    ensures l.cursor == Offset(Chars(l.text), |z.before|)
  {
    var cs := z.before + z.after;
    AllCharsJoin(z.before, z.after);
    ConcatAppend(z.before, z.after);
    CharsOf(cs, []);
    assert l.text + [] == l.text && cs + [] == cs;
    assert cs[..|z.before|] == z.before;
    OffsetIs(cs, |z.before|);
  }

  lemma DropLast(b: seq<seq<byte>>)
    requires AllChars(b) && b != []
    ensures AllChars(b[..|b| - 1]) && AllChars([b[|b| - 1]])
    ensures Concat(b) == Concat(b[..|b| - 1]) + b[|b| - 1]
    ensures Concat([b[|b| - 1]]) == b[|b| - 1]
  {
    var n := |b| - 1;
    CharsUpTo(b, n);
    CharAt(b, n);
    assert b == b[..n] + [b[n]];
    ConcatAppend(b[..n], [b[n]]);
    assert Concat([b[n]]) == b[n] + [];
  }

  /** Left and Backspace go to the start of the last character before the cursor. */
  lemma PrevOfZipper(l: InputState, z: Zipper)
    requires Encodes(l, z)
    ensures PrevStart(l) == if z.before == [] then 0 else |Concat(z.before[..|z.before| - 1])|
  {
    ZipperChars(l, z);
    var cs := Chars(l.text);
    if z.before == [] {
      PrevStartIs(l, 0);
    } else {
      var n := |z.before| - 1;
      OffsetsRise(cs, n, n + 1);
      PrevStartIs(l, n);
      OffsetIs(cs, n);
      assert cs[..n] == z.before[..n];
    }
  }

  /** Right goes to the end of the first character after the cursor. */
  lemma NextOfZipper(l: InputState, z: Zipper)
    requires Encodes(l, z)
    ensures NextStart(l) == if z.after == [] then |l.text| else l.cursor + |z.after[0]|
  {
    ZipperChars(l, z);
    var cs, n := Chars(l.text), |z.before|;
    if z.after == [] {
      NextStartIs(l, n);
    } else {
      OffsetsRise(cs, n, n + 1);
      NextStartIs(l, n + 1);
    }
  }

  /** Typing the bytes of a character one by one inserts the character. */
  lemma {:induction false} TypeBytes(l: InputState, c: seq<byte>)
    requires Within(l)
    ensures PressAll(l, KeysOf(Type(c))) == InputState(l.text[..l.cursor] + c + l.text[l.cursor..], l.cursor + |c|)
    decreases |c|
  {
    if c == [] {
      assert l.text[..l.cursor] + c + l.text[l.cursor..] == l.text;
    } else {
      var m := Press(l, Byte(c[0]));
      assert KeysOf(Type(c)) == [Byte(c[0])] + KeysOf(Type(c[1..]));
      PressWithin(l, Byte(c[0]));
      TypeBytes(m, c[1..]);
      assert m.text[..m.cursor] == l.text[..l.cursor] + [c[0]] && m.text[m.cursor..] == l.text[l.cursor..];
      assert c == [c[0]] + c[1..];
    }
  }

  lemma OneKey(l: InputState, key: EditKey)
    requires Within(l)
    ensures PressAll(l, [key]) == Press(l, key)
  {
    PressWithin(l, key);
    assert [key][1..] == [];
  }

  lemma TypeEncodes(l: InputState, z: Zipper, c: seq<byte>)
    requires Encodes(l, z) && IsChar(c)
    ensures Encodes(InputState(l.text[..l.cursor] + c + l.text[l.cursor..], l.cursor + |c|),
                    Zipper(z.before + [c], z.after))
  {
    assert AllChars([c]);
    AllCharsJoin(z.before, [c]);
    ConcatAppend(z.before, [c]);
    assert Concat([c]) == c + [];
    assert l.text[..l.cursor] == Concat(z.before) && l.text[l.cursor..] == Concat(z.after);
  }

  lemma BackEncodes(l: InputState, z: Zipper)
    requires Encodes(l, z)
    ensures Encodes(Press(l, Backspace), Move(z, Edit(Backspace)))
    ensures Encodes(Press(l, Left), Move(z, Edit(Left)))
  {
    PrevOfZipper(l, z);
    assert l.text[l.cursor..] == Concat(z.after);
    if z.before == [] {
      assert l.text[..0] + l.text[0..] == l.text;
    } else {
      var n := |z.before| - 1;
      DropLast(z.before);
      var last := z.before[n];
      assert l.text[..PrevStart(l)] == Concat(z.before[..n]);
      AllCharsJoin([last], z.after);
      ConcatAppend([last], z.after);
      Assoc(Concat(z.before[..n]), last, Concat(z.after));
    }
  }

  lemma RightEncodes(l: InputState, z: Zipper)
    requires Encodes(l, z)
    ensures Encodes(Press(l, Right), Move(z, Edit(Right)))
  {
    NextOfZipper(l, z);
    if z.after != [] {
      var c := z.after[0];
      assert AllChars([c]);
      AllCharsJoin(z.before, [c]);
      ConcatAppend(z.before, [c]);
      assert Concat([c]) == c + [];
      Assoc(Concat(z.before), c, Concat(z.after[1..]));
    }
  }

  lemma EndsEncode(l: InputState, z: Zipper)
    requires Encodes(l, z)
    ensures Encodes(Press(l, Home), Move(z, Edit(Home)))
    ensures Encodes(Press(l, End), Move(z, Edit(End)))
  {
    AllCharsJoin(z.before, z.after);
    ConcatAppend(z.before, z.after);
    assert Concat(z.before + z.after) + [] == l.text && [] + l.text == l.text;
  }

  lemma StrokeRefines(l: InputState, z: Zipper, s: Stroke)
    requires Encodes(l, z) && Typable(s)
    ensures Encodes(PressAll(l, KeysOf(s)), Move(z, s))
  {
    match s
    case Type(c) =>
      TypeBytes(l, c);
      TypeEncodes(l, z, c);
    case Edit(key) =>
      OneKey(l, key);
      BackEncodes(l, z);
      RightEncodes(l, z);
      EndsEncode(l, z);
  }

  function AllKeys(strokes: seq<Stroke>): seq<EditKey> {
    if strokes == [] then [] else KeysOf(strokes[0]) + AllKeys(strokes[1..])
  }

  function MoveAll(z: Zipper, strokes: seq<Stroke>): Zipper
    decreases |strokes|
  {
    if strokes == [] then z else MoveAll(Move(z, strokes[0]), strokes[1..])
  }

  lemma {:induction false} PressAllAppend(l: InputState, a: seq<EditKey>, b: seq<EditKey>)
    requires Within(l)
    ensures PressAll(l, a + b) == PressAll(PressAll(l, a), b)
    decreases |a|
  {
    if a == [] {
      assert a + b == b;
    } else {
      PressWithin(l, a[0]);
      assert (a + b)[1..] == a[1..] + b;
      PressAllAppend(Press(l, a[0]), a[1..], b);
    }
  }

  /** However the user types whole characters and presses editing keys, the byte buffer and byte
      cursor hold exactly the characters before and after a cursor between characters. */
  lemma {:induction false} EditingRefinesZipper(l: InputState, z: Zipper, strokes: seq<Stroke>)
    requires Encodes(l, z)
    requires forall i :: 0 <= i < |strokes| ==> Typable(strokes[i])
    ensures Encodes(PressAll(l, AllKeys(strokes)), MoveAll(z, strokes))
    decreases |strokes|
  {
    if strokes != [] {
      StrokeRefines(l, z, strokes[0]);
      EditingRefinesZipper(PressAll(l, KeysOf(strokes[0])), Move(z, strokes[0]), strokes[1..]);
      PressAllAppend(l, KeysOf(strokes[0]), AllKeys(strokes[1..]));
    }
  }

  /** Typing a character and pressing Backspace leaves the line as it was. */
  lemma TypeThenBackspace(l: InputState, z: Zipper, c: seq<byte>)
    requires Encodes(l, z) && IsChar(c) && NEWLINE !in c
    ensures PressAll(l, KeysOf(Type(c)) + [Backspace]) == l
  {
    var strokes := [Type(c), Edit(Backspace)];
    var w := Move(Move(z, Type(c)), Edit(Backspace));
    StrokeRefines(l, z, Type(c));
    var m := PressAll(l, KeysOf(Type(c)));
    StrokeRefines(m, Move(z, Type(c)), Edit(Backspace));
    PressAllAppend(l, KeysOf(Type(c)), [Backspace]);
    assert w.before == z.before;
  }
}
