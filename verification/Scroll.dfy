/** The message history on the screen: counting its lines, laying it out from the bottom up,
    scrolling, and what a new message does to it (src/ui.c, and chat_push_message of src/chat.c). */
module Scroll {
  import opened Bytes
  import opened Text
  import opened Endpoints

  /** A header line, then the wrapped text. */
  function MessageLines(m: Message, width: nat): (n: nat)
    requires width > 0
    ensures n >= 1
  {
    1 + Lines(|Chars(m.text)|, width)
  }

  function HistoryLines(h: seq<Message>, width: nat): nat
    requires width > 0
  {
    if h == [] then 0 else HistoryLines(h[..|h| - 1], width) + MessageLines(h[|h| - 1], width)
  }

  lemma HistoryLinesPush(h: seq<Message>, m: Message, width: nat)
    requires width > 0
    ensures HistoryLines(h + [m], width) == HistoryLines(h, width) + MessageLines(m, width)
  {
    assert (h + [m])[..|h|] == h;
  }

  lemma HistoryLinesNext(h: seq<Message>, width: nat, i: nat)
    requires width > 0 && i < |h|
    ensures HistoryLines(h[..i + 1], width) == HistoryLines(h[..i], width) + MessageLines(h[i], width)
  {
    assert h[..i + 1][..i] == h[..i];
  }

  // ----- The history box

  /** The terminal's size and the height of the input box. */
  datatype Screen = Screen(cols: nat, rows: nat, inputRows: nat)

  /** The history box: `line` is how many lines it is scrolled back. */
  datatype Pane = Pane(history: seq<Message>, line: nat, width: nat, height: int)

  /** The comparison with the height is unsigned: a negative one is huge. */
  function Fitting(height: int): int {
    if height < 0 then TWO32 + height else height
  }

  /** `ui_update`: the scrollbar takes a column when the history does not fit. */
  function Layout(p: Pane, s: Screen): Pane
    requires s.cols >= 2
  {
    var height := s.rows - s.inputRows - 2;
    p.(width := if HistoryLines(p.history, s.cols) > Fitting(height) then s.cols - 1 else s.cols, height := height)
  }

  function Push(p: Pane, m: Message, s: Screen): Pane
    requires p.width > 0 && s.cols >= 2
  {
    Layout(p.(history := p.history + [m],
              line := if p.line != 0 then p.line + MessageLines(m, p.width) else 0), s)
  }

  /** The sum of a `size_t` and an `int` wraps when the height is negative. */
  function Up(p: Pane, s: Screen): Pane
    requires p.width > 0 && s.cols >= 2
  {
    Layout(if (p.line + p.height) % TWO64 < HistoryLines(p.history, p.width) then p.(line := p.line + 1) else p, s)
  }

  function Down(p: Pane, s: Screen): Pane
    requires s.cols >= 2
  {
    Layout(if p.line > 0 then p.(line := p.line - 1) else p, s)
  }

  /** The screen row of the header of message `i`; with `i` the number of messages, the row below
      the last one. */
  function RowOf(p: Pane, y: int, i: nat): int
    requires p.width > 0 && i <= |p.history|
  {
    y + p.height + p.line - (HistoryLines(p.history, p.width) - HistoryLines(p.history[..i], p.width))
  }

  /** A message as drawn: its index and the row of its header. */
  datatype Drawn = Drawn(index: nat, row: int)

  /** The message reaches into the box, or its header touches the row below it. */
  predicate Reaches(p: Pane, y: int, i: nat)
    requires p.width > 0 && i < |p.history|
  {
    RowOf(p, y, i) <= y + p.height && RowOf(p, y, i + 1) >= 0
  }

  /** The messages from index `from` on that reach the box, last one first. */
  function DrawnFrom(p: Pane, y: int, from: nat): seq<Drawn>
    requires p.width > 0 && from <= |p.history|
    decreases |p.history| - from
  {
    if from == |p.history| then []
    else if Reaches(p, y, from) then DrawnFrom(p, y, from + 1) + [Drawn(from, RowOf(p, y, from))]
    else DrawnFrom(p, y, from + 1)
  }

  class HistoryView {
    var history: seq<Message>
    var line: nat
    var width: nat
    var height: int
    var screen: Screen

    predicate Valid()
      reads this
    {
      width > 0 && screen.cols >= 2
    }

    function State(): Pane
      reads this
    {
      Pane(history, line, width, height)
    }

    constructor (s: Screen)
      requires s.cols >= 2
      ensures Valid() && screen == s && State() == Layout(Pane([], 0, s.cols, 0), s)
    {
      history, line, screen, width, height := [], 0, s, s.cols, 0;
      new;
      Update();
    }

    method CountLines(columns: nat) returns (lines: nat)
      requires columns > 0
      ensures lines == HistoryLines(history, columns)
    {
      lines := 0;
      for i := 0 to |history|
        invariant lines == HistoryLines(history[..i], columns)
      {
        HistoryLinesNext(history, columns, i);
        var textLines := StringLines(history[i].text, columns);
        lines := lines + (1 + textLines);
      }
      assert history[..|history|] == history;
    }

    method Update()
      requires screen.cols >= 2
      modifies this`width, this`height
      ensures Valid() && State() == Layout(old(State()), screen)
    {
      width := screen.cols;
      height := screen.rows - screen.inputRows - 2;
      var lines := CountLines(width);
      if lines > Fitting(height) {
        width := width - 1;
      }
    }

    method PushMessage(m: Message)
      requires Valid()
      modifies this
      ensures Valid() && screen == old(screen) && State() == Push(old(State()), m, screen)
    {
      history := history + [m];
      if line != 0 {
        var textLines := StringLines(m.text, width);
        line := line + (1 + textLines);
      }
      Update();
    }

    method KeyUp()
      requires Valid()
      modifies this
      ensures Valid() && screen == old(screen) && State() == Up(old(State()), screen)
    {
      var lines := CountLines(width);
      if (line + height) % TWO64 < lines {
        line := line + 1;
      }
      Update();
    }

    method KeyDown()
      requires Valid()
      modifies this
      ensures Valid() && screen == old(screen) && State() == Down(old(State()), screen)
    {
      if line > 0 {
        line := line - 1;
      }
      Update();
    }

    /** The loop of `draw_history`: from the last message up, until the top of the screen. */
    method DrawHistory(y: int) returns (drawn: seq<Drawn>)
      requires Valid()
      ensures drawn == DrawnFrom(State(), y, 0)
    {
      drawn := [];
      var row := y + height + line;
      var i := |history| - 1;
      assert history[..|history|] == history;
      while i >= 0 && row >= 0
        invariant -1 <= i < |history| && row == RowOf(State(), y, i + 1)
        invariant drawn == DrawnFrom(State(), y, i + 1)
      {
        HistoryLinesNext(history, width, i);
        var textLines := StringLines(history[i].text, width);
        row := row - (1 + textLines);
        if row <= y + height {
          drawn := drawn + [Drawn(i, row)];
        }
        i := i - 1;
      }
      NoneAbove(State(), y, i + 1);
    }
  }

  // ----- What the layout promises

  lemma {:induction false} RowsAscend(p: Pane, y: int, i: nat, j: nat)
    requires p.width > 0 && i <= j <= |p.history|
    ensures RowOf(p, y, i) <= RowOf(p, y, j)
  {
    if i < j {
      RowsAscend(p, y, i, j - 1);
      HistoryLinesNext(p.history, p.width, j - 1);
    }
  }

  /** Above a message whose header is off the screen, no message reaches it. */
  lemma {:induction false} NoneAbove(p: Pane, y: int, i: nat)
    requires p.width > 0 && i <= |p.history| && (i == 0 || RowOf(p, y, i) < 0)
    ensures DrawnFrom(p, y, 0) == DrawnFrom(p, y, i)
  {
    if i > 0 {
      RowsAscend(p, y, i - 1, i);
      NoneAbove(p, y, i - 1);
    }
  }

  /** The messages drawn are exactly those that reach the box, each on its own row. */
  lemma {:induction false} DrawnExactly(p: Pane, y: int, from: nat, d: Drawn)
    requires p.width > 0 && from <= |p.history|
    ensures d in DrawnFrom(p, y, from)
       <==> from <= d.index < |p.history| && Reaches(p, y, d.index) && d.row == RowOf(p, y, d.index)
    decreases |p.history| - from
  {
    if from < |p.history| {
      DrawnExactly(p, y, from + 1, d);
    }
  }

  /** Messages tile the rows: each takes its lines, the next one starts right below, and the last
      one ends `line` rows below the bottom of the box. */
  lemma MessagesTile(p: Pane, y: int, i: nat)
    requires p.width > 0 && i < |p.history|
    ensures RowOf(p, y, i + 1) == RowOf(p, y, i) + MessageLines(p.history[i], p.width)
    ensures RowOf(p, y, |p.history|) == y + p.height + p.line
    ensures RowOf(p, y, 0) == y + p.height + p.line - HistoryLines(p.history, p.width)
  {
    HistoryLinesNext(p.history, p.width, i);
    assert p.history[..|p.history|] == p.history;
  }

  /** History, input and the two rows between them fill the screen; the history gives up a column to the
      scrollbar exactly when it does not fit. */
  lemma LayoutFills(p: Pane, s: Screen)
    requires s.cols >= 2
    ensures var q := Layout(p, s);
      && q.height + s.inputRows + 2 == s.rows && q.history == p.history && q.line == p.line
      && (q.width == s.cols <==> HistoryLines(p.history, s.cols) <= Fitting(q.height))
      && (q.width == s.cols || q.width == s.cols - 1)
  {
  }

  /** At the bottom of the history, scrolling forward does nothing and a new message ends on the last
      row of the box. Scrolled back, the one moves the view by a line and the other by the message. */
  lemma BottomStays(p: Pane, m: Message, s: Screen, y: int)
    requires s.cols >= 2 && p == Layout(p, s)
    ensures p.line == 0 ==> Down(p, s) == p
    ensures p.line > 0 ==> Down(p, s) == p.(line := p.line - 1)
    ensures var q := Push(p, m, s);
      RowOf(q, y, |q.history|) == y + q.height + if p.line == 0 then 0 else p.line + MessageLines(m, p.width)
  {
    var all := p.history + [m];
    assert all[..|all|] == all;
    assert p.line > 0 ==> Layout(p.(line := p.line - 1), s) == p.(line := p.line - 1);
  }

  /** Without the message the history fits the box, and with it no longer. */
  predicate ScrollbarAppears(p: Pane, m: Message, s: Screen)
    requires s.cols > 0
  {
    HistoryLines(p.history, s.cols) <= Fitting(p.height) < HistoryLines(p.history + [m], s.cols)
  }

  /** A new message makes the box a column narrower exactly when it brings up the scrollbar, and does
      not change the layout otherwise; so once the scrollbar is up, it stays up. */
  lemma ScrollbarStays(p: Pane, m: Message, s: Screen)
    requires s.cols >= 2 && p == Layout(p, s)
    ensures Push(p, m, s).height == p.height
    ensures ScrollbarAppears(p, m, s) <==> Push(p, m, s).width != p.width
    ensures ScrollbarAppears(p, m, s) ==> p.width == s.cols && Push(p, m, s).width == s.cols - 1
  {
    HistoryLinesPush(p.history, m, s.cols);
  }

  /** The lines of the messages from `i` on. */
  function LinesFrom(h: seq<Message>, width: nat, i: nat): int
    requires width > 0 && i <= |h|
  {
    HistoryLines(h, width) - HistoryLines(h[..i], width)
  }

  /** The message takes as many lines in one width as in the other. */
  predicate SameLines(m: Message, narrow: nat, wide: nat)
    requires narrow > 0 && wide > 0
  {
    MessageLines(m, narrow) == MessageLines(m, wide)
  }

  lemma MessageNarrower(m: Message, narrow: nat, wide: nat)
    requires 0 < narrow <= wide
    ensures MessageLines(m, narrow) >= MessageLines(m, wide)
  {
    var chars := |Chars(m.text)|;
    if chars > 0 {
      QuotientShrinks(chars - 1, narrow, wide);
    }
  }

  /** Messages together take as many lines in a narrower box exactly when each of them does. */
  lemma {:induction false} SameLinesFrom(h: seq<Message>, i: nat, narrow: nat, wide: nat)
    requires 0 < narrow <= wide && i <= |h|
    ensures LinesFrom(h, narrow, i) >= LinesFrom(h, wide, i)
    ensures LinesFrom(h, narrow, i) == LinesFrom(h, wide, i)
       <==> forall j :: i <= j < |h| ==> SameLines(h[j], narrow, wide)
    decreases |h| - i
  {
    if i == |h| {
      assert h[..i] == h;
    } else {
      SameLinesFrom(h, i + 1, narrow, wide);
      HistoryLinesNext(h, narrow, i);
      HistoryLinesNext(h, wide, i);
      MessageNarrower(h[i], narrow, wide);
    }
  }

  lemma RowAfterPush(p: Pane, m: Message, s: Screen, y: int, i: nat)
    requires s.cols >= 2 && p == Layout(p, s) && i <= |p.history|
    ensures var q, all := Push(p, m, s), p.history + [m];
      && q.width > 0 && q.history == all
      && RowOf(p, y, i) == y + p.height + p.line - LinesFrom(all, p.width, i) + MessageLines(m, p.width)
      && RowOf(q, y, i) == y + p.height + q.line - LinesFrom(all, q.width, i)
  {
    HistoryLinesPush(p.history, m, p.width);
    assert (p.history + [m])[..i] == p.history[..i];
  }

  /** A new message leaves message `i` on its row exactly when the view is scrolled back and, should
      the scrollbar come up, the messages from `i` on all take the same lines in one column less. */
  lemma PushAnchors(p: Pane, m: Message, s: Screen, y: int, i: nat)
    requires s.cols >= 2 && p == Layout(p, s) && i <= |p.history|
    ensures RowOf(Push(p, m, s), y, i) == RowOf(p, y, i)
       <==> && p.line != 0
            && (ScrollbarAppears(p, m, s) ==>
                  forall j :: i <= j <= |p.history| ==> SameLines((p.history + [m])[j], s.cols - 1, s.cols))
  {
    var q, all := Push(p, m, s), p.history + [m];
    RowAfterPush(p, m, s, y, i);
    ScrollbarStays(p, m, s);
    SameLinesFrom(all, i, q.width, p.width);
    SomeLines(all, q.width, i);
  }

  lemma SomeLines(h: seq<Message>, width: nat, i: nat)
    requires width > 0 && i < |h|
    ensures LinesFrom(h, width, i) > 0
  {
    LinesRise(h, width, i, |h|);
    assert h[..|h|] == h;
  }

  lemma {:induction false} LinesRise(h: seq<Message>, width: nat, i: nat, j: nat)
    requires width > 0 && i < j <= |h|
    ensures HistoryLines(h[..i], width) < HistoryLines(h[..j], width)
  {
    HistoryLinesNext(h, width, j - 1);
    if i < j - 1 {
      LinesRise(h, width, i, j - 1);
    }
  }

  /** A scrolled-back view that shows nothing above the first message always stays in place: the
      scrollbar is up already. `ScrollInBounds` says that scrolling and messages keep it so. */
  lemma ScrolledBackStays(p: Pane, m: Message, s: Screen, y: int, i: nat)
    requires s.cols >= 2 && p == Layout(p, s) && p.height >= 0 && i <= |p.history|
    requires p.line != 0 && InBounds(p)
    ensures RowOf(Push(p, m, s), y, i) == RowOf(p, y, i)
  {
    assert !ScrollbarAppears(p, m, s);
    PushAnchors(p, m, s, y, i);
  }

  /** For example, when the terminal has grown since the view was scrolled back: in two columns and
      two rows, with "ab" one line back, another "ab" brings up the scrollbar and moves the first one
      two rows up. */
  lemma ScrollbarMoves(y: int)
    ensures var m, s := Message(Remote, Ascii("ab")), Screen(2, 5, 1);
      var p := Pane([m], 1, 2, 2);
      && p == Layout(p, s) && ScrollbarAppears(p, m, s)
      && RowOf(Push(p, m, s), y, 0) == RowOf(p, y, 0) - 2
  {
    var m := Message(Remote, Ascii("ab"));
    var c, d := [97 as byte], [98 as byte];
    assert m.text == Concat([c, d]) + [] by {
      assert [c, d][1..] == [d];
      assert Concat([d]) == d && Concat([c, d]) == c + d;
    }
    CharsOf([c, d], []);
    assert |Chars(m.text)| == 2;
    assert MessageLines(m, 2) == 2 && MessageLines(m, 1) == 3;
    HistoryLinesPush([], m, 2);
    HistoryLinesPush([], m, 1);
    HistoryLinesPush([m], m, 2);
    HistoryLinesPush([m], m, 1);
    assert [] + [m] == [m];
    RowAfterPush(Pane([m], 1, 2, 2), m, Screen(2, 5, 1), y, 0);
  }

  /** Narrower text takes at least as many lines. */
  lemma {:induction false} NarrowerIsLonger(h: seq<Message>, narrow: nat, wide: nat)
    requires 0 < narrow <= wide
    ensures HistoryLines(h, narrow) >= HistoryLines(h, wide)
  {
    if h != [] {
      NarrowerIsLonger(h[..|h| - 1], narrow, wide);
      MessageNarrower(h[|h| - 1], narrow, wide);
    }
  }

  lemma QuotientShrinks(x: nat, narrow: nat, wide: nat)
    requires 0 < narrow <= wide
    ensures x / wide <= x / narrow
  {
    var q := x / wide;
    assert q * wide <= x by {
      assert x == q * wide + x % wide;
    }
    assert q * narrow <= q * wide by {
      ProductOrder(narrow, wide, q);
    }
    AtMostQuotient(q, x, narrow);
  }

  /** Scrolling back moves every message one row down, and scrolling forward undoes it; when there are
      no lines above, nothing moves. The sum of line and height wraps when the height is negative. */
  lemma UpThenDown(p: Pane, s: Screen, y: int, i: nat)
    requires s.cols >= 2 && p == Layout(p, s) && i <= |p.history|
    ensures if (p.line + p.height) % TWO64 < HistoryLines(p.history, p.width)
            then RowOf(Up(p, s), y, i) == RowOf(p, y, i) + 1 && Down(Up(p, s), s) == p
            else Up(p, s) == p
  {
    var moved := p.(line := p.line + 1);
    assert Layout(moved, s) == moved;
  }

  /** Never scrolled past the first message. */
  predicate InBounds(p: Pane)
    requires p.width > 0
  {
    p.line == 0 || p.line + p.height <= HistoryLines(p.history, p.width)
  }

  /** Scrolling and new messages never move the view past the first message. */
  lemma ScrollInBounds(p: Pane, m: Message, s: Screen)
    requires s.cols >= 2 && p == Layout(p, s) && p.line + p.height < TWO64 && InBounds(p)
    ensures InBounds(Up(p, s)) && InBounds(Down(p, s)) && InBounds(Push(p, m, s))
  {
    HistoryLinesPush(p.history, m, p.width);
    NarrowerIsLonger(p.history + [m], Push(p, m, s).width, p.width);
  }
}
