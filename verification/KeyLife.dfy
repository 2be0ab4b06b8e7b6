/** The pad bytes used over the life of a key file: any number of sessions, each of which opens the
    file and sends lines, and closes the key at its end or is cut off before that (src/key.c, with
    the sends and `chat_end` of src/chat.c). */
module KeyLife {
  import opened Bytes
  import opened Keys
  import opened Frames
  import opened Pads

  /** A send: the head at its start, its payload and frame, and whether the key ran out. */
  datatype Use = Use(start: nat, payload: seq<byte>, frame: seq<byte>, failed: bool)

  /** How many pad bytes the message of a send was encrypted with. */
  function Width(u: Use): nat {
    if u.failed then 0 else |u.payload|
  }

  /** What a send does. */
  function UseOf(k: KeyState, payload: seq<byte>): Use {
    var out := BeginFrame(k, payload);
    Use(k.head, payload, out.frame, out.failed)
  }

  /** One open key, a list of sends in order; the failed ones use up key bytes all the same. */
  function Session(k: KeyState, lines: seq<seq<byte>>): (r: (KeyState, seq<Use>))
    decreases |lines|
  {
    if lines == [] then (k, [])
    else
      var (k', uses) := Session(BeginFrame(k, lines[0]).key, lines[1..]);
      (k', [UseOf(k, lines[0])] + uses)
  }

  /** A session with a key file: the lines sent, and whether the key was closed after them. A program
      that a signal ends does not close it. */
  datatype Day = Day(lines: seq<seq<byte>>, closed: bool)

  function DayUses(file: seq<byte>, day: Day): seq<Use> {
    match Open(file)
    case None => []
    case Some(k) => Session(k, day.lines).1
  }

  /** The file after a session. Only a close writes to it. */
  function After(file: seq<byte>, day: Day): seq<byte> {
    match Open(file)
    case None => file
    case Some(k) => if day.closed then Close(Session(k, day.lines).0) else file
  }

  /** The file after all sessions, and all sends. */
  function Sessions(file: seq<byte>, days: seq<Day>): (r: (seq<byte>, seq<Use>))
    decreases |days|
  {
    if days == [] then (file, [])
    else
      var (disk, more) := Sessions(After(file, days[0]), days[1..]);
      (disk, DayUses(file, days[0]) + more)
  }

  function Payloads(uses: seq<Use>): seq<seq<byte>> {
    if uses == [] then [] else [uses[0].payload] + Payloads(uses[1..])
  }

  function AllLines(days: seq<Day>): seq<seq<byte>> {
    if days == [] then [] else days[0].lines + AllLines(days[1..])
  }

  lemma {:induction false} PayloadsJoin(a: seq<Use>, b: seq<Use>)
    ensures Payloads(a + b) == Payloads(a) + Payloads(b)
  {
    if a == [] {
      assert a + b == b;
    } else {
      assert (a + b)[1..] == a[1..] + b;
      PayloadsJoin(a[1..], b);
    }
  }

  /** The frame's header names the size and the start, and its body is the payload under the pad. */
  predicate MadeWith(frame: seq<byte>, payload: seq<byte>, start: nat, pad: seq<byte>) {
    && |pad| == |payload| && |frame| == HEADER_SIZE + |payload|
    && FrameSize(frame) == |payload| % TWO32 && FrameHead(frame) == start
    && frame[HEADER_SIZE..] == Mask(pad, payload)
  }

  /** The pad of `u` lies between the heads `low` and `high`, and its frame is made with it. */
  predicate UseIn(file: seq<byte>, u: Use, low: nat, high: nat) {
    && low <= u.start && u.start + Width(u) <= high && u.start < TWO64
    && (!u.failed ==> MadeWith(u.frame, u.payload, u.start, ReadAt(file, DATA_OFFSET + u.start, |u.payload|)))
  }

  predicate UsesIn(file: seq<byte>, uses: seq<Use>, low: nat, high: nat) {
    && low <= high
    && (forall i :: 0 <= i < |uses| ==> UseIn(file, uses[i], low, high))
    && forall i, j :: 0 <= i < j < |uses| ==> uses[i].start + Width(uses[i]) <= uses[j].start
  }

  lemma UsesJoin(file: seq<byte>, a: seq<Use>, b: seq<Use>, low: nat, mid: nat, high: nat)
    requires UsesIn(file, a, low, mid) && UsesIn(file, b, mid, high)
    ensures UsesIn(file, a + b, low, high)
  {
    forall i | 0 <= i < |a + b|
      ensures UseIn(file, (a + b)[i], low, high)
    {
      assert (a + b)[i] == if i < |a| then a[i] else b[i - |a|];
    }
  }

  /** A frame that does not fail is made with the bytes at the key's head. */
  lemma MadeOfPad(k: KeyState, payload: seq<byte>)
    requires Coherent(k) && !BeginFrame(k, payload).failed
    ensures MadeWith(BeginFrame(k, payload).frame, payload, k.head,
                     ReadAt(k.stream.bytes, DATA_OFFSET + k.head, |payload|))
  {
    FrameFields(k, payload);
    assert DATA_OFFSET + k.head == k.stream.pos;
  }

  lemma WidthTaken(k: KeyState, payload: seq<byte>)
    requires Coherent(k)
    ensures var out := BeginFrame(k, payload);
      && Coherent(out.key) && out.key.stream.bytes == k.stream.bytes
      && k.head + (if out.failed then 0 else |payload|) <= out.key.head
  {
    EncryptCoherent(k, payload);
  }

  lemma FirstUse(k: KeyState, payload: seq<byte>)
    requires Coherent(k)
    ensures UseIn(k.stream.bytes, UseOf(k, payload), k.head, BeginFrame(k, payload).key.head)
  {
    WidthTaken(k, payload);
    if !BeginFrame(k, payload).failed {
      MadeOfPad(k, payload);
    }
  }

  lemma UseThen(file: seq<byte>, u: Use, uses: seq<Use>, low: nat, mid: nat, high: nat)
    requires low <= mid && UseIn(file, u, low, mid) && UsesIn(file, uses, mid, high)
    ensures UsesIn(file, [u] + uses, low, high)
  {
    UsesJoin(file, [u], uses, low, mid, high);
  }

  /** All lines of a session are sent, in order. */
  lemma {:induction false} SessionSends(k: KeyState, lines: seq<seq<byte>>)
    ensures Payloads(Session(k, lines).1) == lines
    decreases |lines|
  {
    if lines != [] {
      var next := BeginFrame(k, lines[0]).key;
      SessionSends(next, lines[1..]);
      assert ([UseOf(k, lines[0])] + Session(next, lines[1..]).1)[1..] == Session(next, lines[1..]).1;
      assert [lines[0]] + lines[1..] == lines;
    }
  }

  lemma {:induction false} SessionUses(k: KeyState, lines: seq<seq<byte>>)
    requires Coherent(k)
    ensures var (k', uses) := Session(k, lines);
      && Coherent(k') && k'.stream.bytes == k.stream.bytes
      && UsesIn(k.stream.bytes, uses, k.head, k'.head)
    decreases |lines|
  {
    if lines != [] {
      var next := BeginFrame(k, lines[0]).key;
      WidthTaken(k, lines[0]);
      FirstUse(k, lines[0]);
      SessionUses(next, lines[1..]);
      var (k', uses) := Session(next, lines[1..]);
      UseThen(k.stream.bytes, UseOf(k, lines[0]), uses, k.head, next.head, k'.head);
    }
  }

  lemma UseSamePad(f: seq<byte>, g: seq<byte>, u: Use, low: nat, high: nat)
    requires SamePad(f, g) && UseIn(f, u, low, high)
    ensures UseIn(g, u, low, high)
  {
    SamePadRead(f, g, DATA_OFFSET + u.start, |u.payload|);
  }

  lemma UsesSamePad(f: seq<byte>, g: seq<byte>, uses: seq<Use>, low: nat, high: nat)
    requires SamePad(f, g) && UsesIn(f, uses, low, high)
    ensures UsesIn(g, uses, low, high)
  {
    forall i | 0 <= i < |uses|
      ensures UseIn(g, uses[i], low, high)
    {
      UseSamePad(f, g, uses[i], low, high);
    }
  }

  // ----- What is kept over sessions

  /** A key file that opens at the position of its saved head. */
  predicate Sound(file: seq<byte>) {
    KeyFile(file) && SavedHead(file) + DATA_OFFSET < TWO63
  }

  /** The head at the end of a session. */
  function LastHead(file: seq<byte>, day: Day): nat
    requires Sound(file)
  {
    OpenCoherent(file);
    Session(Open(file).value, day.lines).0.head
  }

  lemma DayKeeps(file: seq<byte>, day: Day)
    requires Sound(file)
    ensures Sound(After(file, day)) && SamePad(file, After(file, day))
    ensures SavedHead(After(file, day)) == if day.closed then LastHead(file, day) else SavedHead(file)
    ensures UsesIn(file, DayUses(file, day), SavedHead(file), LastHead(file, day))
    ensures Payloads(DayUses(file, day)) == day.lines
  {
    OpenCoherent(file);
    var k := Open(file).value;
    SessionUses(k, day.lines);
    SessionSends(k, day.lines);
    CloseWritesHead(Session(k, day.lines).0);
  }

  predicate AllClosed(days: seq<Day>) {
    forall i :: 0 <= i < |days| ==> days[i].closed
  }

  /** When every session closes the key, the pads of the messages are disjoint and ascending, start no
      earlier than the saved head, and end no later than the head saved last; each frame's header
      carries the start of its own pad. */
  lemma {:induction false} PadUsedOnce(file: seq<byte>, days: seq<Day>)
    requires Sound(file) && AllClosed(days)
    ensures var (disk, uses) := Sessions(file, days);
      && Sound(disk) && SamePad(file, disk)
      && UsesIn(file, uses, SavedHead(file), SavedHead(disk)) && Payloads(uses) == AllLines(days)
    decreases |days|
  {
    if days != [] {
      var next := After(file, days[0]);
      assert days[0].closed;
      DayKeeps(file, days[0]);
      PadUsedOnce(next, days[1..]);
      var (disk, more) := Sessions(next, days[1..]);
      UsesSamePad(next, file, more, SavedHead(next), SavedHead(disk));
      UsesJoin(file, DayUses(file, days[0]), more, SavedHead(file), SavedHead(next), SavedHead(disk));
      PayloadsJoin(DayUses(file, days[0]), more);
    }
  }

  // ----- Sessions that are cut off

  /** A session encrypts something exactly when there is key for its first line that is not empty. */
  predicate Encrypts(k: KeyState, lines: seq<seq<byte>>)
    decreases |lines|
  {
    lines != [] && if lines[0] == [] then Encrypts(k, lines[1..]) else Enough(k, |lines[0]|)
  }

  predicate DayEncrypts(file: seq<byte>, day: Day) {
    Open(file).Some? && Encrypts(Open(file).value, day.lines)
  }

  predicate NoneEncrypts(file: seq<byte>, days: seq<Day>)
    decreases |days|
  {
    days != [] ==> !DayEncrypts(file, days[0]) && NoneEncrypts(After(file, days[0]), days[1..])
  }

  /** After a session that encrypted something and did not close the key, no session encrypts
      anything. */
  predicate Careful(file: seq<byte>, days: seq<Day>)
    decreases |days|
  {
    days != [] ==>
      && (DayEncrypts(file, days[0]) && !days[0].closed ==> NoneEncrypts(After(file, days[0]), days[1..]))
      && Careful(After(file, days[0]), days[1..])
  }

  /** The key has run out. */
  predicate Spent(k: KeyState) {
    !Enough(k, 1)
  }

  predicate Idle(uses: seq<Use>) {
    forall i :: 0 <= i < |uses| ==> Width(uses[i]) == 0
  }

  /** Some message is encrypted with a pad that starts at `head`. */
  predicate UsesFrom(uses: seq<Use>, head: nat) {
    exists i :: 0 <= i < |uses| && uses[i].start == head && Width(uses[i]) > 0
  }

  lemma SendOf(k: KeyState, line: seq<byte>)
    requires Coherent(k)
    ensures var out := BeginFrame(k, line);
      && Coherent(out.key) && out.key.stream.bytes == k.stream.bytes
      && (line == [] ==> out.key == k && !out.failed)
      && (line != [] && Enough(k, |line|) ==> !out.failed)
      && (line != [] && !Enough(k, |line|) ==> out.failed && Spent(out.key))
  {
    EncryptCoherent(k, line);
  }

  lemma IdleCons(u: Use, uses: seq<Use>)
    requires Width(u) == 0 && Idle(uses)
    ensures Idle([u] + uses)
  {
  }

  lemma UsesFromBehind(a: seq<Use>, b: seq<Use>, head: nat)
    requires UsesFrom(b, head)
    ensures UsesFrom(a + b, head)
  {
    var i :| 0 <= i < |b| && b[i].start == head && Width(b[i]) > 0;
    assert (a + b)[|a| + i] == b[i];
  }

  lemma UsesFromFront(a: seq<Use>, b: seq<Use>, head: nat)
    requires UsesFrom(a, head)
    ensures UsesFrom(a + b, head)
  {
    var i :| 0 <= i < |a| && a[i].start == head && Width(a[i]) > 0;
    assert (a + b)[i] == a[i];
  }

  lemma {:induction false} SpentSession(k: KeyState, lines: seq<seq<byte>>)
    requires Coherent(k) && Spent(k)
    ensures !Encrypts(k, lines) && Idle(Session(k, lines).1)
    ensures Coherent(Session(k, lines).0) && Spent(Session(k, lines).0)
    decreases |lines|
  {
    if lines != [] {
      var out := BeginFrame(k, lines[0]);
      SendOf(k, lines[0]);
      SpentSession(k, lines[1..]);
      SpentSession(out.key, lines[1..]);
      IdleCons(UseOf(k, lines[0]), Session(out.key, lines[1..]).1);
    }
  }

  /** The first bytes a session encrypts are masked from its first head on; one that encrypts nothing
      leaves the head or the key spent. */
  lemma {:induction false} SessionFirst(k: KeyState, lines: seq<seq<byte>>)
    requires Coherent(k)
    ensures var (k', uses) := Session(k, lines);
      if Encrypts(k, lines) then UsesFrom(uses, k.head) else Idle(uses) && (k'.head == k.head || Spent(k'))
    decreases |lines|
  {
    if lines != [] {
      var out := BeginFrame(k, lines[0]);
      var u := UseOf(k, lines[0]);
      SendOf(k, lines[0]);
      var uses := Session(out.key, lines[1..]).1;
      if lines[0] == [] {
        SessionFirst(k, lines[1..]);
        if Encrypts(k, lines) {
          UsesFromBehind([u], uses, k.head);
        } else {
          IdleCons(u, uses);
        }
      } else if Enough(k, |lines[0]|) {
        assert ([u] + uses)[0] == u;
      } else {
        SpentSession(out.key, lines[1..]);
        IdleCons(u, uses);
      }
    }
  }

  predicate SpentFile(file: seq<byte>) {
    Sound(file) && Open(file).Some? && Spent(Open(file).value)
  }

  lemma DayFirst(file: seq<byte>, day: Day)
    requires Sound(file)
    ensures Sound(After(file, day))
    ensures if DayEncrypts(file, day) then UsesFrom(DayUses(file, day), SavedHead(file))
            else Idle(DayUses(file, day))
                 && (SavedHead(After(file, day)) == SavedHead(file) || SpentFile(After(file, day)))
    ensures SpentFile(file) ==> !DayEncrypts(file, day) && SpentFile(After(file, day))
  {
    DayKeeps(file, day);
    OpenCoherent(file);
    OpenCoherent(After(file, day));
    var k := Open(file).value;
    SessionUses(k, day.lines);
    SessionFirst(k, day.lines);
    if Spent(k) {
      SpentSession(k, day.lines);
    }
  }

  lemma {:induction false} SpentLife(file: seq<byte>, days: seq<Day>)
    requires SpentFile(file)
    ensures NoneEncrypts(file, days)
    decreases |days|
  {
    if days != [] {
      DayFirst(file, days[0]);
      SpentLife(After(file, days[0]), days[1..]);
    }
  }

  lemma IdleJoin(a: seq<Use>, b: seq<Use>)
    requires Idle(a) && Idle(b)
    ensures Idle(a + b)
  {
  }

  /** The first bytes that sessions encrypt are masked from the saved head on. */
  lemma {:induction false} LifeFirst(file: seq<byte>, days: seq<Day>)
    requires Sound(file)
    ensures var uses := Sessions(file, days).1;
      if NoneEncrypts(file, days) then Idle(uses) else UsesFrom(uses, SavedHead(file))
    decreases |days|
  {
    if days != [] {
      var next := After(file, days[0]);
      var first, more := DayUses(file, days[0]), Sessions(next, days[1..]).1;
      DayKeeps(file, days[0]);
      DayFirst(file, days[0]);
      LifeFirst(next, days[1..]);
      if DayEncrypts(file, days[0]) {
        UsesFromFront(first, more, SavedHead(file));
      } else if NoneEncrypts(next, days[1..]) {
        IdleJoin(first, more);
      } else {
        if SpentFile(next) {
          SpentLife(next, days[1..]);
        }
        UsesFromBehind(first, more, SavedHead(file));
      }
    }
  }

  // ----- No pad byte is used twice

  /** The pads of messages are disjoint and ascending. */
  predicate Apart(uses: seq<Use>) {
    forall i, j :: 0 <= i < j < |uses| && Width(uses[i]) > 0 && Width(uses[j]) > 0 ==>
      uses[i].start + Width(uses[i]) <= uses[j].start
  }

  /** Each frame that did not fail is made with the pad its header names, from `low` on. */
  predicate Made(file: seq<byte>, uses: seq<Use>, low: nat) {
    forall i :: 0 <= i < |uses| ==> UseIn(file, uses[i], low, TWO64)
  }

  predicate PadsOnce(file: seq<byte>, days: seq<Day>)
    requires KeyFile(file)
  {
    var uses := Sessions(file, days).1;
    Made(file, uses, SavedHead(file)) && Apart(uses)
  }

  lemma MadeLater(f: seq<byte>, g: seq<byte>, uses: seq<Use>, low: nat, later: nat)
    requires SamePad(f, g) && low <= later && Made(g, uses, later)
    ensures Made(f, uses, low)
  {
    forall i | 0 <= i < |uses|
      ensures UseIn(f, uses[i], low, TWO64)
    {
      UseSamePad(g, f, uses[i], later, TWO64);
    }
  }

  lemma MadeJoin(file: seq<byte>, a: seq<Use>, b: seq<Use>, low: nat)
    requires Made(file, a, low) && Made(file, b, low)
    ensures Made(file, a + b, low)
  {
    forall i | 0 <= i < |a + b|
      ensures UseIn(file, (a + b)[i], low, TWO64)
    {
      assert (a + b)[i] == if i < |a| then a[i] else b[i - |a|];
    }
  }

  lemma UsesInMade(file: seq<byte>, uses: seq<Use>, low: nat, high: nat)
    requires UsesIn(file, uses, low, high) && high < TWO64
    ensures Made(file, uses, low) && Apart(uses)
  {
  }

  /** Closed or not, every frame is made with the pad its header names. */
  lemma {:induction false} AllMade(file: seq<byte>, days: seq<Day>)
    requires Sound(file)
    ensures Made(file, Sessions(file, days).1, SavedHead(file))
    decreases |days|
  {
    if days != [] {
      var next := After(file, days[0]);
      DayKeeps(file, days[0]);
      AllMade(next, days[1..]);
      UsesInMade(file, DayUses(file, days[0]), SavedHead(file), LastHead(file, days[0]));
      MadeLater(file, next, Sessions(next, days[1..]).1, SavedHead(file), SavedHead(next));
      MadeJoin(file, DayUses(file, days[0]), Sessions(next, days[1..]).1, SavedHead(file));
    }
  }

  lemma IdleBeside(a: seq<Use>, b: seq<Use>)
    requires Apart(a) && Apart(b) && (Idle(a) || Idle(b))
    ensures Apart(a + b)
  {
    forall i, j | 0 <= i < j < |a + b| && Width((a + b)[i]) > 0 && Width((a + b)[j]) > 0
      ensures (a + b)[i].start + Width((a + b)[i]) <= (a + b)[j].start
    {
      assert (a + b)[i] == if i < |a| then a[i] else b[i - |a|];
      assert (a + b)[j] == if j < |a| then a[j] else b[j - |a|];
    }
  }

  lemma ApartJoin(file: seq<byte>, a: seq<Use>, b: seq<Use>, low: nat, mid: nat)
    requires UsesIn(file, a, low, mid) && Apart(b)
    requires forall j :: 0 <= j < |b| ==> b[j].start >= mid
    ensures Apart(a + b)
  {
    forall i, j | 0 <= i < j < |a + b| && Width((a + b)[i]) > 0 && Width((a + b)[j]) > 0
      ensures (a + b)[i].start + Width((a + b)[i]) <= (a + b)[j].start
    {
      assert (a + b)[i] == if i < |a| then a[i] else b[i - |a|];
      assert (a + b)[j] == if j < |a| then a[j] else b[j - |a|];
    }
  }

  lemma {:induction false} CarefulApart(file: seq<byte>, days: seq<Day>)
    requires Sound(file) && Careful(file, days)
    ensures Apart(Sessions(file, days).1)
    decreases |days|
  {
    if days != [] {
      var next := After(file, days[0]);
      var first, more := DayUses(file, days[0]), Sessions(next, days[1..]).1;
      DayKeeps(file, days[0]);
      UsesInMade(file, first, SavedHead(file), LastHead(file, days[0]));
      CarefulApart(next, days[1..]);
      if days[0].closed {
        AllMade(next, days[1..]);
        ApartJoin(file, first, more, SavedHead(file), SavedHead(next));
      } else {
        DayFirst(file, days[0]);
        LifeFirst(next, days[1..]);
        IdleBeside(first, more);
      }
    }
  }

  /** Two messages are masked with pads that start at the same byte of the file. */
  predicate Repeats(file: seq<byte>, u: Use, v: Use) {
    && u.start == v.start && Width(u) > 0 && Width(v) > 0 && DATA_OFFSET + u.start < |file|
    && |u.frame| > HEADER_SIZE && u.frame[HEADER_SIZE] == Xor(file[DATA_OFFSET + u.start], u.payload[0])
    && |v.frame| > HEADER_SIZE && v.frame[HEADER_SIZE] == Xor(file[DATA_OFFSET + u.start], v.payload[0])
  }

  predicate SomeRepeat(file: seq<byte>, uses: seq<Use>) {
    exists i, j :: 0 <= i < j < |uses| && Repeats(file, uses[i], uses[j])
  }

  lemma FirstByte(file: seq<byte>, u: Use, low: nat)
    requires UseIn(file, u, low, TWO64) && Width(u) > 0
    ensures DATA_OFFSET + u.start < |file| && |u.frame| > HEADER_SIZE
    ensures u.frame[HEADER_SIZE] == Xor(file[DATA_OFFSET + u.start], u.payload[0])
  {
    var pad := ReadAt(file, DATA_OFFSET + u.start, |u.payload|);
    assert u.frame[HEADER_SIZE] == u.frame[HEADER_SIZE..][0] == Mask(pad, u.payload)[0];
  }

  lemma TwoFrom(file: seq<byte>, uses: seq<Use>, i: nat, j: nat, low: nat)
    requires Made(file, uses, low) && i < j < |uses| && uses[i].start == uses[j].start
    requires Width(uses[i]) > 0 && Width(uses[j]) > 0
    ensures Repeats(file, uses[i], uses[j])
  {
    FirstByte(file, uses[i], low);
    FirstByte(file, uses[j], low);
  }

  lemma SameStart(file: seq<byte>, a: seq<Use>, b: seq<Use>, low: nat, head: nat)
    requires Made(file, a + b, low) && UsesFrom(a, head) && UsesFrom(b, head)
    ensures SomeRepeat(file, a + b)
  {
    var i :| 0 <= i < |a| && a[i].start == head && Width(a[i]) > 0;
    var j :| 0 <= j < |b| && b[j].start == head && Width(b[j]) > 0;
    assert (a + b)[i] == a[i] && (a + b)[|a| + j] == b[j];
    TwoFrom(file, a + b, i, |a| + j, low);
  }

  lemma RepeatBehind(f: seq<byte>, g: seq<byte>, a: seq<Use>, b: seq<Use>)
    requires SamePad(f, g) && SomeRepeat(g, b)
    ensures SomeRepeat(f, a + b)
  {
    var i, j :| 0 <= i < j < |b| && Repeats(g, b[i], b[j]);
    var at := b[i].start;
    assert f[DATA_OFFSET + at] == f[DATA_OFFSET..][at] && g[DATA_OFFSET + at] == g[DATA_OFFSET..][at];
    assert (a + b)[|a| + i] == b[i] && (a + b)[|a| + j] == b[j];
    assert Repeats(f, (a + b)[|a| + i], (a + b)[|a| + j]);
  }

  /** If a session encrypts something after one that did and was cut off, two messages begin with the
      same pad byte. */
  lemma {:induction false} CarelessRepeats(file: seq<byte>, days: seq<Day>)
    requires Sound(file) && !Careful(file, days)
    ensures SomeRepeat(file, Sessions(file, days).1)
    decreases |days|
  {
    var next := After(file, days[0]);
    var first, more := DayUses(file, days[0]), Sessions(next, days[1..]).1;
    DayKeeps(file, days[0]);
    if !Careful(next, days[1..]) {
      CarelessRepeats(next, days[1..]);
      RepeatBehind(file, next, first, more);
    } else {
      DayFirst(file, days[0]);
      LifeFirst(next, days[1..]);
      AllMade(file, days);
      SameStart(file, first, more, SavedHead(file), SavedHead(file));
    }
  }

  lemma {:induction false} NeverOpens(file: seq<byte>, days: seq<Day>)
    requires Open(file).None?
    ensures Sessions(file, days) == (file, []) && Careful(file, days)
    decreases |days|
  {
    if days != [] {
      NeverOpens(file, days[1..]);
      assert DayUses(file, days[0]) + [] == [];
    }
  }

  /** With a saved head whose offset is below 2^64, no pad byte is used for two messages exactly when
      no session encrypts anything after one that did and was cut off. From 2^63 on the file does not
      open at all. */
  lemma PadUsedOnceIff(file: seq<byte>, days: seq<Day>)
    requires KeyFile(file) && SavedHead(file) + DATA_OFFSET < TWO64
    ensures PadsOnce(file, days) <==> Careful(file, days)
  {
    if !Sound(file) {
      NeverOpens(file, days);
    } else if Careful(file, days) {
      AllMade(file, days);
      CarefulApart(file, days);
    } else {
      CarelessRepeats(file, days);
    }
  }

  lemma OneSend(k: KeyState, line: seq<byte>)
    ensures var out := BeginFrame(k, line);
      Session(k, [line]) == (out.key, [UseOf(k, line)])
  {
    var out := BeginFrame(k, line);
    var u := UseOf(k, line);
    assert [line][1..] == [] && [u] + [] == [u];
    assert Session(BeginFrame(k, line).key, []) == (BeginFrame(k, line).key, []);
  }

  /** For example: a session that sends one byte is cut off, and the next one sends another. */
  lemma CutOffRepeats(file: seq<byte>, a: byte, b: byte, closed: bool)
    requires Sound(file) && DATA_OFFSET + SavedHead(file) < |file|
    ensures var days := [Day([[a]], false), Day([[b]], closed)];
      var uses := Sessions(file, days).1;
      && !Careful(file, days) && |uses| == 2 && uses[0].payload == [a] && uses[1].payload == [b]
      && Repeats(file, uses[0], uses[1])
  {
    var days := [Day([[a]], false), Day([[b]], closed)];
    OneByteDay(file, a, false);
    OneByteDay(file, b, closed);
    TwoDays(file, days[0], days[1]);
    AllMade(file, days);
    TwoFrom(file, Sessions(file, days).1, 0, 1, SavedHead(file));
  }

  lemma OneByteDay(file: seq<byte>, a: byte, closed: bool)
    requires Sound(file) && DATA_OFFSET + SavedHead(file) < |file|
    ensures var uses := DayUses(file, Day([[a]], closed));
      && |uses| == 1 && uses[0].payload == [a] && uses[0].start == SavedHead(file) && Width(uses[0]) == 1
    ensures DayEncrypts(file, Day([[a]], closed))
  {
    OpenCoherent(file);
    OneSend(Open(file).value, [a]);
    SendOf(Open(file).value, [a]);
  }

  lemma TwoDays(file: seq<byte>, first: Day, second: Day)
    requires !first.closed
    ensures Sessions(file, [first, second]).1 == DayUses(file, first) + DayUses(file, second)
    ensures DayEncrypts(file, first) && DayEncrypts(file, second) ==> !Careful(file, [first, second])
  {
    var days := [first, second];
    assert days[1..] == [second] && [second][1..] == [];
    assert Sessions(file, [second]).1 == DayUses(file, second) + [];
    assert After(file, first) == file;
  }

  /** From 2^64 on the sum of head and offset wraps: the file opens, and the first byte sent is masked
      with a byte of the file's own header. */
  lemma WrappedHeadUsesHeader(file: seq<byte>, payload: byte)
    requires KeyFile(file) && SavedHead(file) + DATA_OFFSET >= TWO64
    ensures var at := SavedHead(file) + DATA_OFFSET - TWO64;
      && at < DATA_OFFSET && Open(file).Some?
      && BeginFrame(Open(file).value, [payload]).frame
         == Header(1, SavedHead(file)) + [Xor(file[at], payload)]
    ensures Careful(file, [Day([[payload]], true)]) && !PadsOnce(file, [Day([[payload]], true)])
  {
    var k := Open(file).value;
    var at := SavedHead(file) + DATA_OFFSET - TWO64;
    var day := Day([[payload]], true);
    assert k.stream == Stream(file, at) && k.head == SavedHead(file);
    assert ReadAt(file, at, 1) == [file[at]];
    OneSend(k, [payload]);
    OneDay(file, day);
    assert !UseIn(file, Sessions(file, [day]).1[0], SavedHead(file), TWO64);
  }

  lemma OneDay(file: seq<byte>, day: Day)
    requires day.closed
    ensures Sessions(file, [day]).1 == DayUses(file, day) && Careful(file, [day])
  {
    assert [day][1..] == [];
    assert DayUses(file, day) + [] == DayUses(file, day);
  }

  /** The head may have any value for which `PadUsedOnceIff` holds, and no other. */
  lemma HeadBoundIff(file: seq<byte>)
    requires KeyFile(file)
    ensures (forall days | Careful(file, days) :: PadsOnce(file, days)) <==> SavedHead(file) + DATA_OFFSET < TWO64
  {
    if SavedHead(file) + DATA_OFFSET < TWO64 {
      forall days | Careful(file, days)
        ensures PadsOnce(file, days)
      {
        PadUsedOnceIff(file, days);
      }
    } else {
      WrappedHeadUsesHeader(file, 0);
    }
  }
}
