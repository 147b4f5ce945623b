/** The consoles of kernel/console.c: the cursor and the window of each within video memory. */
module Consoles {
  const SCREEN_WIDTH: nat := 80
  const SCREEN_SIZE: nat := 80 * 25
  const NR_CONSOLES: nat := 3

  /** Directions of scroll_screen. */
  const SCR_UP := 1
  const SCR_DN := -1

  /** V_MEM_SIZE >> 1: the number of character cells of video memory. */
  const V_MEM_CELLS: nat := 0x4000

  const NEWLINE: bv8 := 0x0A
  const BACKSPACE_CHAR: bv8 := 0x08
  const BLANK: bv8 := 0x20
  const PROMPT: bv8 := 0x23

  // ---------------------------------------------------------------- positions

  /** A console as numbers: its share of video memory, cursor and window start, all in cells. */
  datatype View = View(original: nat, limit: nat, start: nat, cursor: nat)

  /**
   What keeps the scrolling loop of out_char going to an end: the cursor is in the console's own
   memory, and the window starts a whole number of lines into it, at most one line too far.
   */
  ghost predicate ViewOk(v: View) {
    && SCREEN_SIZE < v.limit
    && v.original <= v.cursor < v.original + v.limit
    && v.original <= v.start
    && (v.start - v.original) % SCREEN_WIDTH == 0
    && v.start + SCREEN_SIZE < v.original + v.limit + SCREEN_WIDTH
  }

  /** The cursor is not below the window. */
  ghost predicate Shown(v: View) {
    v.cursor < v.start + SCREEN_SIZE
  }

  /** Where the cursor goes, counted from the start of the console's memory. */
  function Moved(p: nat, limit: nat, ch: bv8): nat
    requires SCREEN_SIZE < limit
  {
    var q := if p >= limit - 1 then 0 else p;
    if ch == NEWLINE then
      if q < limit - SCREEN_WIDTH then SCREEN_WIDTH * (q / SCREEN_WIDTH + 1) else 0
    else if ch == BACKSPACE_CHAR then
      if q > 0 then q - 1 else 0
    else q + 1
  }

  /** Whether out_char starts over at the top of the console's memory. */
  predicate StartsOver(p: nat, limit: nat, ch: bv8)
    requires SCREEN_SIZE < limit
  {
    p >= limit - 1 || (ch == NEWLINE && p >= limit - SCREEN_WIDTH)
  }

  /** The first window, at or below the one at `start`, that does not end above the cursor. */
  ghost predicate IsWindowFor(v: View, start: nat, t: nat) {
    && start <= t && (t - start) % SCREEN_WIDTH == 0
    && v.cursor < t + SCREEN_SIZE
    && (t > start ==> v.cursor >= t - SCREEN_WIDTH + SCREEN_SIZE)
  }

  // ---------------------------------------------------------------- what the operations do

  ghost function Scrolled(v: View, direction: int): (w: View)
    requires ViewOk(v)
    ensures ViewOk(w) && w == v.(start := w.start)
  {
    if direction == SCR_UP && v.start > v.original then v.(start := v.start - SCREEN_WIDTH)
    else if direction == SCR_DN && v.start + SCREEN_SIZE < v.original + v.limit then v.(start := v.start + SCREEN_WIDTH)
    else v
  }

  /** Writing one character: move the cursor, then scroll down to it, line by line. */
  ghost function Written(v: View, ch: bv8): (w: View)
    requires ViewOk(v)
    ensures ViewOk(w) && Shown(w) && w.original == v.original && w.limit == v.limit
    ensures w.cursor == v.original + Moved(v.cursor - v.original, v.limit, ch)
  {
    var p := v.cursor - v.original;
    FollowCursor(v.(cursor := v.original + Moved(p, v.limit, ch),
                    start := if StartsOver(p, v.limit, ch) then v.original else v.start))
  }

  /** The scrolling loop of out_char. */
  ghost function FollowCursor(v: View): (w: View)
    requires ViewOk(v)
    ensures ViewOk(w) && Shown(w) && w == v.(start := w.start) && IsWindowFor(v, v.start, w.start)
    decreases v.cursor - v.start
  {
    if Shown(v) then v else FollowCursor(Scrolled(v, SCR_DN))
  }

  ghost function Blanked(n: nat): seq<bv8> {
    seq(n, i => BLANK)
  }

  /** Video memory after writing one character. Only a console that is full touches all of it. */
  ghost function Drawn(cells: seq<bv8>, v: View, ch: bv8): (d: seq<bv8>)
    requires ViewOk(v) && v.original + v.limit <= |cells|
    ensures |d| == |cells|
  {
    var full := v.cursor >= v.original + v.limit - 1;
    var before := if full then Blanked(|cells|) else cells;
    var at := if full then v.original else v.cursor;
    if ch == NEWLINE then before
    else if ch == BACKSPACE_CHAR then (if at > v.original then before[at - 1 := BLANK] else before)
    else before[at := ch]
  }

  class Console {
    const video: array<bv8>
    const original: nat
    const limit: nat
    var start: nat
    var cursor: nat

    ghost function ViewOf(): View
      reads this
    {
      View(original, limit, start, cursor)
    }

    ghost predicate Valid()
      reads this
    {
      && video.Length == V_MEM_CELLS
      && original + limit <= V_MEM_CELLS
      && ViewOk(ViewOf())
    }

    /** The arithmetic of init_screen; the first console keeps the boot cursor. */
    constructor (video: array<bv8>, nr: nat, bootCursor: nat)
      requires video.Length == V_MEM_CELLS && nr < NR_CONSOLES
      requires nr == 0 ==> bootCursor < V_MEM_CELLS / NR_CONSOLES
      ensures Valid() && this.video == video && start == original
      ensures original == nr * limit && limit == V_MEM_CELLS / NR_CONSOLES
      ensures cursor == if nr == 0 then bootCursor else original
    {
      var share := V_MEM_CELLS / NR_CONSOLES;
      this.video, original, limit := video, nr * share, share;
      start := nr * share;
      cursor := if nr == 0 then bootCursor else nr * share;
      new;
      assert nr == 0 || nr == 1 || nr == 2;
    }

    method ScrollScreen(direction: int)
      requires Valid()
      modifies this`start
      ensures Valid() && ViewOf() == Scrolled(old(ViewOf()), direction)
    {
      if direction == SCR_UP {
        if start > original {
          start := start - SCREEN_WIDTH;
        }
      } else if direction == SCR_DN {
        if start + SCREEN_SIZE < original + limit {
          start := start + SCREEN_WIDTH;
        }
      }
    }

    /** The loop that blanks video memory before a console starts over. */
    method BlankVideo()
      requires Valid()
      modifies video
      ensures video[..] == Blanked(V_MEM_CELLS)
    {
      for i := 0 to V_MEM_CELLS
        invariant forall j :: 0 <= j < i ==> video[j] == BLANK
      {
        video[i] := BLANK;
      }
    }

    /** The first half of out_char: write the character and move the cursor. */
    method WriteAt(ch: bv8)
      requires Valid()
      modifies this`start, this`cursor, video
      ensures Valid()
      ensures cursor == original + Moved(old(cursor) - original, limit, ch)
      ensures start == if StartsOver(old(cursor) - original, limit, ch) then original else old(start)
      ensures video[..] == Drawn(old(video[..]), old(ViewOf()), ch)
    {
      if cursor >= original + limit - 1 {
        cursor := original;
        start := original;
        BlankVideo();
      }
      if ch == NEWLINE {
        if cursor < original + limit - SCREEN_WIDTH {
          cursor := original + SCREEN_WIDTH * ((cursor - original) / SCREEN_WIDTH + 1);
        } else {
          cursor := original;
          start := original;
        }
      } else if ch == BACKSPACE_CHAR {
        if cursor > original {
          cursor := cursor - 1;
          video[cursor] := BLANK;
        }
      } else {
        if cursor < original + limit - 1 {
          video[cursor] := ch;
          cursor := cursor + 1;
        }
      }
    }

    method OutChar(ch: bv8)
      requires Valid()
      modifies this`start, this`cursor, video
      ensures Valid() && ViewOf() == Written(old(ViewOf()), ch)
      ensures video[..] == Drawn(old(video[..]), old(ViewOf()), ch)
    {
      WriteAt(ch);
      ghost var moved := ViewOf();
      while cursor >= start + SCREEN_SIZE
        invariant Valid() && FollowCursor(ViewOf()) == FollowCursor(moved)
        decreases cursor - start
        modifies this`start
      {
        ScrollScreen(SCR_DN);
      }
    }

    /** out_str */
    method OutStr(str: seq<bv8>)
      requires Valid()
      modifies this`start, this`cursor, video
      ensures Valid() && ViewOf() == WrittenAll(old(ViewOf()), str)
      ensures video[..] == DrawnAll(old(video[..]), old(ViewOf()), str)
    {
      hide ViewOk, Written, Drawn;
      ghost var v, cells := ViewOf(), video[..];
      for i := 0 to |str|
        invariant Valid() && ViewOf() == WrittenAll(v, str[..i])
        invariant video[..] == DrawnAll(cells, v, str[..i])
      {
        assert str[..i + 1][..i] == str[..i];
        OutChar(str[i]);
      }
      assert str[..|str|] == str;
    }
  }

  // ---------------------------------------------------------------- text on a console

  /** Where the cursor is after a whole text. */
  function MovedBy(p: nat, limit: nat, text: seq<bv8>): nat
    requires SCREEN_SIZE < limit
  {
    if text == [] then p else Moved(MovedBy(p, limit, text[..|text| - 1]), limit, text[|text| - 1])
  }

  /** What is done to a console: characters are written to it, and the user scrolls it. */
  datatype Action = Out(ch: bv8) | Scroll(direction: int)

  ghost function After(v: View, actions: seq<Action>): (w: View)
    requires ViewOk(v)
    ensures ViewOk(w)
  {
    if actions == [] then v
    else
      var u := After(v, actions[..|actions| - 1]);
      match actions[|actions| - 1]
      case Out(ch) => Written(u, ch)
      case Scroll(direction) => Scrolled(u, direction)
  }

  ghost function TextOf(actions: seq<Action>): seq<bv8> {
    if actions == [] then []
    else
      var t := TextOf(actions[..|actions| - 1]);
      match actions[|actions| - 1]
      case Out(ch) => t + [ch]
      case Scroll(_) => t
  }

  /**
   Any mix of writing and scrolling keeps the cursor in the console's own memory and the window
   on a line; the cursor depends on the text alone, and after writing it is not below the window.
   */
  lemma {:induction false} ConsoleRun(v: View, actions: seq<Action>)
    requires ViewOk(v)
    ensures var w := After(v, actions);
            && ViewOk(w) && w.original == v.original && w.limit == v.limit
            && w.cursor == v.original + MovedBy(v.cursor - v.original, v.limit, TextOf(actions))
            && (actions != [] && actions[|actions| - 1].Out? ==> Shown(w))
  {
    hide ViewOk, Moved, FollowCursor, Written, Scrolled;
    if actions != [] {
      ConsoleRun(v, actions[..|actions| - 1]);
      if actions[|actions| - 1].Out? {
        var t := TextOf(actions[..|actions| - 1]);
        assert TextOf(actions)[..|t|] == t;
      }
    }
  }

  ghost function WrittenAll(v: View, text: seq<bv8>): (w: View)
    requires ViewOk(v)
    ensures ViewOk(w) && w.original == v.original && w.limit == v.limit
  {
    if text == [] then v else Written(WrittenAll(v, text[..|text| - 1]), text[|text| - 1])
  }

  ghost function DrawnAll(cells: seq<bv8>, v: View, text: seq<bv8>): (d: seq<bv8>)
    requires ViewOk(v) && v.original + v.limit <= |cells|
    ensures |d| == |cells|
  {
    if text == [] then cells
    else
      var n := |text| - 1;
      Drawn(DrawnAll(cells, v, text[..n]), WrittenAll(v, text[..n]), text[n])
  }

  predicate IsPrintable(text: seq<bv8>) {
    forall i :: 0 <= i < |text| ==> text[i] != NEWLINE && text[i] != BACKSPACE_CHAR
  }

  lemma OneMoreCell(cells: seq<bv8>, at: nat, text: seq<bv8>)
    requires text != [] && at + |text| <= |cells|
    ensures var n := |text| - 1;
            (cells[..at] + text[..n] + cells[at + n..])[at + n := text[n]] == cells[..at] + text + cells[at + |text|..]
  {
  }

  lemma PlainOut(cells: seq<bv8>, v: View, ch: bv8)
    requires ViewOk(v) && v.original + v.limit <= |cells| && v.cursor < v.original + v.limit - 1
    requires ch != NEWLINE && ch != BACKSPACE_CHAR
    ensures Written(v, ch).cursor == v.cursor + 1 && Drawn(cells, v, ch) == cells[v.cursor := ch]
  {
  }

  /**
   Printable text that fits stands in the cells from the old cursor on, and no other cell of
   video memory, of this console or another, has changed.
   */
  lemma {:induction false} TextStands(cells: seq<bv8>, v: View, text: seq<bv8>)
    requires ViewOk(v) && v.original + v.limit <= |cells| && IsPrintable(text)
    requires v.cursor + |text| < v.original + v.limit
    ensures DrawnAll(cells, v, text) == cells[..v.cursor] + text + cells[v.cursor + |text|..]
    ensures WrittenAll(v, text).cursor == v.cursor + |text|
  {
    hide ViewOk, Written, Drawn;
    if text == [] {
      assert cells == cells[..v.cursor] + text + cells[v.cursor..];
    } else {
      var n := |text| - 1;
      TextStands(cells, v, text[..n]);
      PlainOut(DrawnAll(cells, v, text[..n]), WrittenAll(v, text[..n]), text[n]);
      OneMoreCell(cells, v.cursor, text);
    }
  }

  // ---------------------------------------------------------------- control characters

  /** A console that is full goes on as if it were blank and at the top of its memory. */
  lemma FullStartsOver(cells: seq<bv8>, v: View, ch: bv8)
    requires ViewOk(v) && v.original + v.limit <= |cells| && v.cursor >= v.original + v.limit - 1
    ensures var top := v.(cursor := v.original, start := v.original);
            && ViewOk(top) && Written(v, ch) == Written(top, ch)
            && exists blank :: |blank| == |cells| && (forall i :: 0 <= i < |blank| ==> blank[i] == BLANK)
                               && Drawn(cells, v, ch) == Drawn(blank, top, ch)
  {
    assert Drawn(cells, v, ch) == Drawn(Blanked(|cells|), v.(cursor := v.original, start := v.original), ch);
  }

  /** `line` is the first cell of the line after the one that `at` is in. */
  ghost predicate IsNextLine(v: View, at: nat, line: nat) {
    v.original <= at < line <= at + SCREEN_WIDTH && (line - v.original) % SCREEN_WIDTH == 0
  }

  /**
   A line end moves the cursor to the beginning of the next line, at most a line further, and
   writes nothing; from the last line on it goes back to the top, and the window with it.
   */
  lemma LineEnd(cells: seq<bv8>, v: View)
    requires ViewOk(v) && v.original + v.limit <= |cells| && v.cursor < v.original + v.limit - 1
    ensures Drawn(cells, v, NEWLINE) == cells
    ensures var w := Written(v, NEWLINE);
            if v.cursor < v.original + v.limit - SCREEN_WIDTH then IsNextLine(v, v.cursor, w.cursor)
            else w.cursor == v.original && w.start == v.original
  {
    var p := v.cursor - v.original;
    assert p == SCREEN_WIDTH * (p / SCREEN_WIDTH) + p % SCREEN_WIDTH;
    if p < v.limit - SCREEN_WIDTH {
      assert (SCREEN_WIDTH * (p / SCREEN_WIDTH + 1)) % SCREEN_WIDTH == 0;
    }
  }

  /** A backspace goes back one cell and blanks it, but not beyond the top. */
  lemma BackspaceErases(cells: seq<bv8>, v: View)
    requires ViewOk(v) && v.original + v.limit <= |cells| && v.cursor < v.original + v.limit - 1
    ensures var w, d := Written(v, BACKSPACE_CHAR), Drawn(cells, v, BACKSPACE_CHAR);
            if v.cursor > v.original then w.cursor == v.cursor - 1 && d == cells[v.cursor - 1 := BLANK]
            else w.cursor == v.cursor && d == cells
  {
  }

  /** The window goes down line by line, and only as far as the cursor needs it. */
  lemma WindowFollows(v: View, ch: bv8)
    requires ViewOk(v) && v.cursor < v.original + v.limit - 1
    requires ch == NEWLINE ==> v.cursor < v.original + v.limit - SCREEN_WIDTH
    ensures var w := Written(v, ch);
            && w.start >= v.start && (w.start - v.start) % SCREEN_WIDTH == 0
            && w.cursor < w.start + SCREEN_SIZE
            && (w.start > v.start ==> w.cursor >= w.start - SCREEN_WIDTH + SCREEN_SIZE)
  {
  }

  /** Scrolling moves the window by one line, within the console's memory. */
  lemma ScrollMovesALine(v: View)
    requires ViewOk(v)
    ensures Scrolled(v, SCR_UP).start == if v.start > v.original then v.start - SCREEN_WIDTH else v.start
    ensures Scrolled(v, SCR_DN).start ==
              if v.start + SCREEN_SIZE < v.original + v.limit then v.start + SCREEN_WIDTH else v.start
  {
  }

  /** If the window moved at all, scrolling the other way brings it back. */
  lemma ScrollingUndone(v: View, direction: int)
    requires ViewOk(v) && Scrolled(v, direction) != v
    ensures Scrolled(Scrolled(v, direction), -direction) == v
  {
    ScrollMovesALine(v);
  }

  // ---------------------------------------------------------------- lines

  lemma {:induction false} WrittenInParts(cells: seq<bv8>, v: View, a: seq<bv8>, b: seq<bv8>)
    requires ViewOk(v) && v.original + v.limit <= |cells|
    ensures WrittenAll(v, a + b) == WrittenAll(WrittenAll(v, a), b)
    ensures DrawnAll(cells, v, a + b) == DrawnAll(DrawnAll(cells, v, a), WrittenAll(v, a), b)
    decreases |b|
  {
    hide ViewOk, Written, Drawn;
    if b == [] {
      assert a + b == a;
    } else {
      var n := |b| - 1;
      assert (a + b)[..|a| + n] == a + b[..n];
      WrittenInParts(cells, v, a, b[..n]);
    }
  }

  lemma OneWritten(cells: seq<bv8>, v: View, ch: bv8)
    requires ViewOk(v) && v.original + v.limit <= |cells|
    ensures WrittenAll(v, [ch]) == Written(v, ch) && DrawnAll(cells, v, [ch]) == Drawn(cells, v, ch)
  {
    hide ViewOk, Written, Drawn;
    assert [ch][..0] == [];
  }

  /** TextStands, cell by cell. */
  lemma {:induction false} CellsOfText(cells: seq<bv8>, v: View, text: seq<bv8>)
    requires ViewOk(v) && v.original + v.limit <= |cells| && IsPrintable(text)
    requires v.cursor + |text| < v.original + v.limit
    ensures WrittenAll(v, text).cursor == v.cursor + |text|
    ensures forall i :: 0 <= i < |cells| ==>
              DrawnAll(cells, v, text)[i] ==
                if v.cursor <= i < v.cursor + |text| then text[i - v.cursor] else cells[i]
  {
    hide WrittenAll, DrawnAll;
    TextStands(cells, v, text);
  }

  lemma OneNextLine(v: View, at: nat, m: nat, n: nat)
    requires IsNextLine(v, at, m) && IsNextLine(v, at, n)
    ensures m == n
  {
    var a, b := (m - v.original) / SCREEN_WIDTH, (n - v.original) / SCREEN_WIDTH;
    assert m - v.original == SCREEN_WIDTH * a && n - v.original == SCREEN_WIDTH * b;
  }

  lemma SameLines(v: View, w: View, at: nat, line: nat)
    requires w.original == v.original
    ensures IsNextLine(w, at, line) <==> IsNextLine(v, at, line)
  {
  }

  /** A line and its end leave the cursor at the beginning of the next line. */
  lemma {:induction false} LineAndEnd(cells: seq<bv8>, v: View, a: seq<bv8>, line: nat)
    requires ViewOk(v) && v.original + v.limit <= |cells| && IsPrintable(a)
    requires v.cursor + |a| < v.original + v.limit - SCREEN_WIDTH && IsNextLine(v, v.cursor + |a|, line)
    ensures WrittenAll(v, a + [NEWLINE]).cursor == line > v.cursor + |a|
    ensures DrawnAll(cells, v, a + [NEWLINE]) == DrawnAll(cells, v, a)
  {
    hide ViewOk, Shown, Written, Drawn, WrittenAll, DrawnAll, IsNextLine, Moved, IsPrintable;
    var w, d := WrittenAll(v, a), DrawnAll(cells, v, a);
    CellsOfText(cells, v, a);
    assert w.cursor == v.cursor + |a|;
    LineEnd(d, w);
    SameLines(v, w, w.cursor, Written(w, NEWLINE).cursor);
    OneNextLine(v, w.cursor, line, Written(w, NEWLINE).cursor);
    OneWritten(d, w, NEWLINE);
    WrittenInParts(cells, v, a, [NEWLINE]);
  }

  /**
   Two lines that fit: the first stands from the cursor on, the second from the beginning of the
   next line on, and no other cell of video memory has changed.
   */
  lemma {:induction false} TwoLinesStand(cells: seq<bv8>, v: View, a: seq<bv8>, b: seq<bv8>, line: nat)
    requires ViewOk(v) && v.original + v.limit <= |cells| && IsPrintable(a) && IsPrintable(b)
    requires v.cursor + |a| < v.original + v.limit - SCREEN_WIDTH && IsNextLine(v, v.cursor + |a|, line)
    requires line + |b| < v.original + v.limit
    ensures WrittenAll(v, a + [NEWLINE] + b).cursor == line + |b|
    ensures forall i :: 0 <= i < |cells| ==>
              DrawnAll(cells, v, a + [NEWLINE] + b)[i] ==
                if v.cursor <= i < v.cursor + |a| then a[i - v.cursor]
                else if line <= i < line + |b| then b[i - line]
                else cells[i]
  {
    hide ViewOk, Shown, Written, Drawn, WrittenAll, DrawnAll, Moved, IsPrintable, IsNextLine;
    LineAndEnd(cells, v, a, line);
    CellsOfText(cells, v, a);
    WrittenInParts(cells, v, a + [NEWLINE], b);
    CellsOfText(DrawnAll(cells, v, a), WrittenAll(v, a + [NEWLINE]), b);
  }

  /**
   A printable character and a backspace after it leave the cursor where it was exactly if the
   character was not written in one of the last two cells; the cell is then blank and no other
   cell has changed. Otherwise a full console started over, and all of video memory is blank.
   */
  lemma BackspaceUndoesIff(cells: seq<bv8>, v: View, ch: bv8)
    requires ViewOk(v) && v.original + v.limit <= |cells| && ch != NEWLINE && ch != BACKSPACE_CHAR
    ensures Written(Written(v, ch), BACKSPACE_CHAR).cursor == v.cursor <==> v.cursor < v.original + v.limit - 2
    ensures Drawn(Drawn(cells, v, ch), Written(v, ch), BACKSPACE_CHAR) ==
              if v.cursor < v.original + v.limit - 2 then cells[v.cursor := BLANK] else Blanked(|cells|)
  {
  }
}
