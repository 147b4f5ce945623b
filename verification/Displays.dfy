/**
 Several consoles on one video memory: what the terminals write and the user scrolls, in any
 order, and what is then to be seen in the share of each console.
 */
module Displays {
  import opened Consoles

  /** tty_do_write: a line end is followed by a prompt. */
  function Echo(ch: bv8): seq<bv8> {
    if ch == NEWLINE then [NEWLINE, PROMPT] else [ch]
  }

  /** The echo of a character is written one character after the other. */
  lemma EchoWritten(cells: seq<bv8>, v: View, ch: bv8)
    requires ViewOk(v) && v.original + v.limit <= |cells|
    ensures var w, d := Written(v, ch), Drawn(cells, v, ch);
            && WrittenAll(v, Echo(ch)) == (if ch == NEWLINE then Written(w, PROMPT) else w)
            && DrawnAll(cells, v, Echo(ch)) == (if ch == NEWLINE then Drawn(d, w, PROMPT) else d)
  {
    hide ViewOk, Written, Drawn;
    assert [ch][..0] == [] && [ch, PROMPT][..1] == [ch];
    assert WrittenAll(v, [ch]) == Written(v, ch) && DrawnAll(cells, v, [ch]) == Drawn(cells, v, ch);
  }

  function EchoAll(text: seq<bv8>): seq<bv8> {
    if text == [] then [] else EchoAll(text[..|text| - 1]) + Echo(text[|text| - 1])
  }

  /** Something is done to console `nr`. */
  datatype ScreenEvent = On(nr: nat, action: Action)

  /** All consoles and the video memory they share. */
  datatype Desk = Desk(views: seq<View>, cells: seq<bv8>)

  ghost predicate DeskOk(d: Desk) {
    && |d.views| == NR_CONSOLES
    && forall i :: 0 <= i < NR_CONSOLES ==>
         ViewOk(d.views[i]) && d.views[i].original + d.views[i].limit <= |d.cells|
  }

  /** The shares of two consoles do not overlap. */
  ghost predicate SharesApart(v: View, w: View) {
    v.original + v.limit <= w.original || w.original + w.limit <= v.original
  }

  ghost predicate AllSharesApart(d: Desk) {
    forall i, j :: 0 <= i < j < |d.views| ==> SharesApart(d.views[i], d.views[j])
  }

  ghost function DeskStep(d: Desk, e: ScreenEvent): (r: Desk)
    requires DeskOk(d)
    ensures DeskOk(r)
  {
    if e.nr >= NR_CONSOLES then d
    else
      var v := d.views[e.nr];
      match e.action
      case Out(ch) => Desk(d.views[e.nr := Written(v, ch)], Drawn(d.cells, v, ch))
      case Scroll(direction) => d.(views := d.views[e.nr := Scrolled(v, direction)])
  }

  ghost function DeskAfter(d: Desk, es: seq<ScreenEvent>): (r: Desk)
    requires DeskOk(d)
    ensures DeskOk(r)
  {
    if es == [] then d else DeskStep(DeskAfter(d, es[..|es| - 1]), es[|es| - 1])
  }

  /** The text that was written to console `t`. */
  ghost function TextOn(es: seq<ScreenEvent>, t: nat): seq<bv8> {
    if es == [] then []
    else
      var e := es[|es| - 1];
      TextOn(es[..|es| - 1], t) + if e.nr == t && e.action.Out? then [e.action.ch] else []
  }

  /** No console was full when a character was written to it, which would have blanked them all. */
  ghost predicate NeverFull(d: Desk, es: seq<ScreenEvent>)
    requires DeskOk(d)
  {
    es == [] ||
    (&& NeverFull(d, es[..|es| - 1])
     && var e := es[|es| - 1];
        (e.nr < NR_CONSOLES && e.action.Out? ==>
           var v := DeskAfter(d, es[..|es| - 1]).views[e.nr];
           v.cursor < v.original + v.limit - 1))
  }

  ghost function Share(cells: seq<bv8>, v: View): seq<bv8>
    requires v.original + v.limit <= |cells|
  {
    cells[v.original..v.original + v.limit]
  }

  lemma DeskAfterMore(d: Desk, es: seq<ScreenEvent>, more: seq<ScreenEvent>)
    requires DeskOk(d)
    ensures DeskAfter(d, es + more) == DeskAfter(DeskAfter(d, es), more)
    decreases |more|
  {
    if more == [] {
      assert es + more == es;
    } else {
      assert (es + more)[..|es + more| - 1] == es + more[..|more| - 1];
      DeskAfterMore(d, es, more[..|more| - 1]);
    }
  }

  lemma TextOnMore(es: seq<ScreenEvent>, more: seq<ScreenEvent>, t: nat)
    ensures TextOn(es + more, t) == TextOn(es, t) + TextOn(more, t)
    decreases |more|
  {
    if more == [] {
      assert es + more == es;
    } else {
      assert (es + more)[..|es + more| - 1] == es + more[..|more| - 1];
      TextOnMore(es, more[..|more| - 1], t);
    }
  }

  /** What tty_do_write does to console `t` for the character `ch`. */
  ghost function EchoEvents(t: nat, ch: bv8): seq<ScreenEvent> {
    if ch == NEWLINE then [On(t, Out(NEWLINE)), On(t, Out(PROMPT))] else [On(t, Out(ch))]
  }

  lemma ScrollOnDesk(d: Desk, es: seq<ScreenEvent>, t: nat, direction: int)
    requires DeskOk(d) && t < NR_CONSOLES
    ensures var r := DeskAfter(d, es);
            DeskAfter(d, es + [On(t, Scroll(direction))]) == r.(views := r.views[t := Scrolled(r.views[t], direction)])
  {
    hide ViewOk, Scrolled;
    assert (es + [On(t, Scroll(direction))])[..|es|] == es;
  }

  lemma OneOut(d: Desk, t: nat, ch: bv8)
    requires DeskOk(d) && t < NR_CONSOLES
    ensures DeskAfter(d, [On(t, Out(ch))]) ==
              Desk(d.views[t := Written(d.views[t], ch)], Drawn(d.cells, d.views[t], ch))
  {
    hide ViewOk, Written, Drawn;
    assert [On(t, Out(ch))][..0] == [];
  }

  lemma EchoOnDesk(d: Desk, t: nat, ch: bv8)
    requires DeskOk(d) && t < NR_CONSOLES
    ensures DeskAfter(d, EchoEvents(t, ch)) ==
              Desk(d.views[t := WrittenAll(d.views[t], Echo(ch))], DrawnAll(d.cells, d.views[t], Echo(ch)))
  {
    hide ViewOk, Written, Drawn, WrittenAll, DrawnAll;
    EchoWritten(d.cells, d.views[t], ch);
    OneOut(d, t, ch);
    if ch == NEWLINE {
      var first, second := [On(t, Out(NEWLINE))], [On(t, Out(PROMPT))];
      assert EchoEvents(t, ch) == first + second;
      DeskAfterMore(d, first, second);
      OneOut(DeskAfter(d, first), t, PROMPT);
    }
  }

  lemma EchoText(t: nat, ch: bv8, i: nat)
    ensures TextOn(EchoEvents(t, ch), i) == if i == t then Echo(ch) else []
  {
    if ch == NEWLINE {
      var first, second := [On(t, Out(NEWLINE))], [On(t, Out(PROMPT))];
      assert EchoEvents(t, ch) == first + second;
      TextOnMore(first, second, i);
      assert first[..0] == [] == second[..0];
    }
  }

  // ---------------------------------------------------------------- what is seen

  /** Writing depends on the cursor, not on the window. */
  lemma WrittenAlike(v: View, w: View, ch: bv8)
    requires ViewOk(v) && ViewOk(w) && v == w.(start := v.start)
    ensures Written(v, ch) == Written(w, ch).(start := Written(v, ch).start)
  {
  }

  /** A character changes the share of its own console as if that console were alone. */
  lemma DrawnAlike(c: seq<bv8>, d: seq<bv8>, v: View, w: View, ch: bv8)
    requires ViewOk(v) && ViewOk(w) && v == w.(start := v.start)
    requires v.original + v.limit <= |c| == |d| && Share(c, v) == Share(d, v)
    ensures Share(Drawn(c, v, ch), v) == Share(Drawn(d, w, ch), v)
  {
    assert forall i :: v.original <= i < v.original + v.limit ==> c[i] == Share(c, v)[i - v.original];
    assert forall i :: v.original <= i < v.original + v.limit ==> d[i] == Share(d, v)[i - v.original];
  }

  /** A console that is not full leaves the shares of the others alone. */
  lemma DrawnElsewhere(c: seq<bv8>, v: View, w: View, ch: bv8)
    requires ViewOk(v) && ViewOk(w) && SharesApart(v, w)
    requires v.original + v.limit <= |c| && w.original + w.limit <= |c|
    requires v.cursor < v.original + v.limit - 1
    ensures Share(Drawn(c, v, ch), w) == Share(c, w)
  {
  }

  /** Console `t` of desk `r` looks as if only `text` had been written to it, and nothing to others. */
  ghost predicate LooksLike(d: Desk, r: Desk, t: nat, text: seq<bv8>)
    requires DeskOk(d) && DeskOk(r) && t < NR_CONSOLES
  {
    && |r.cells| == |d.cells|
    && r.views[t] == WrittenAll(d.views[t], text).(start := r.views[t].start)
    && Share(r.cells, d.views[t]) == Share(DrawnAll(d.cells, d.views[t], text), d.views[t])
  }

  lemma {:induction false} OwnOut(d: Desk, r: Desk, t: nat, text: seq<bv8>, ch: bv8)
    requires DeskOk(d) && DeskOk(r) && t < NR_CONSOLES && LooksLike(d, r, t, text)
    requires r.views[t].original == d.views[t].original && r.views[t].limit == d.views[t].limit
    ensures LooksLike(d, DeskStep(r, On(t, Out(ch))), t, text + [ch])
  {
    hide Written, Drawn;
    var v, before := WrittenAll(d.views[t], text), DrawnAll(d.cells, d.views[t], text);
    assert (text + [ch])[..|text|] == text;
    WrittenAlike(r.views[t], v, ch);
    DrawnAlike(r.cells, before, r.views[t], v, ch);
  }

  lemma {:induction false} OtherOut(d: Desk, r: Desk, t: nat, text: seq<bv8>, nr: nat, ch: bv8)
    requires DeskOk(d) && DeskOk(r) && t < NR_CONSOLES && LooksLike(d, r, t, text)
    requires r.views[t].original == d.views[t].original && r.views[t].limit == d.views[t].limit
    requires nr < NR_CONSOLES && nr != t && SharesApart(r.views[nr], r.views[t])
    requires r.views[nr].cursor < r.views[nr].original + r.views[nr].limit - 1
    ensures LooksLike(d, DeskStep(r, On(nr, Out(ch))), t, text)
  {
    hide Written, Drawn;
    DrawnElsewhere(r.cells, r.views[nr], r.views[t], ch);
  }

  lemma {:induction false} LooksLikeStep(d: Desk, r: Desk, t: nat, text: seq<bv8>, e: ScreenEvent)
    requires DeskOk(d) && AllSharesApart(d) && DeskOk(r) && t < NR_CONSOLES
    requires forall i :: 0 <= i < NR_CONSOLES ==>
               r.views[i].original == d.views[i].original && r.views[i].limit == d.views[i].limit
    requires LooksLike(d, r, t, text)
    requires e.nr < NR_CONSOLES && e.action.Out? ==>
               r.views[e.nr].cursor < r.views[e.nr].original + r.views[e.nr].limit - 1
    ensures LooksLike(d, DeskStep(r, e), t, text + if e.nr == t && e.action.Out? then [e.action.ch] else [])
  {
    hide ViewOk, Written, Drawn, Scrolled, WrittenAll, DrawnAll, Share;
    assert text + [] == text;
    if e.nr >= NR_CONSOLES || e.action.Scroll? {
    } else if e.nr == t {
      OwnOut(d, r, t, text, e.action.ch);
    } else {
      assert if e.nr < t then SharesApart(d.views[e.nr], d.views[t]) else SharesApart(d.views[t], d.views[e.nr]);
      OtherOut(d, r, t, text, e.nr, e.action.ch);
    }
  }

  lemma {:induction false} SharesStay(d: Desk, es: seq<ScreenEvent>)
    requires DeskOk(d)
    ensures forall i :: 0 <= i < NR_CONSOLES ==>
              && DeskAfter(d, es).views[i].original == d.views[i].original
              && DeskAfter(d, es).views[i].limit == d.views[i].limit
  {
    if es != [] {
      SharesStay(d, es[..|es| - 1]);
    }
  }

  /**
   In any mix of writing to the consoles and scrolling them in which none was full, every console
   looks as if its own text had been written to it and nothing else had happened.
   */
  lemma {:induction false} EachConsoleIsAlone(d: Desk, es: seq<ScreenEvent>, t: nat)
    requires DeskOk(d) && AllSharesApart(d) && NeverFull(d, es) && t < NR_CONSOLES
    ensures LooksLike(d, DeskAfter(d, es), t, TextOn(es, t))
  {
    hide ViewOk, Written, Drawn, Scrolled, DeskStep;
    if es != [] {
      var before := es[..|es| - 1];
      EachConsoleIsAlone(d, before, t);
      SharesStay(d, before);
      LooksLikeStep(d, DeskAfter(d, before), t, TextOn(before, t), es[|es| - 1]);
    }
  }

  lemma {:induction false} PrintableEcho(text: seq<bv8>)
    requires IsPrintable(text)
    ensures EchoAll(text) == text
  {
    if text != [] {
      PrintableEcho(text[..|text| - 1]);
    }
  }

  lemma {:induction false} EchoInParts(a: seq<bv8>, b: seq<bv8>)
    ensures EchoAll(a + b) == EchoAll(a) + EchoAll(b)
    decreases |b|
  {
    hide Echo;
    if b == [] {
      assert a + b == a;
    } else {
      var n := |b| - 1;
      assert (a + b)[..|a| + n] == a + b[..n];
      EchoInParts(a, b[..n]);
    }
  }

  lemma LineEndEcho()
    ensures EchoAll([NEWLINE]) == [NEWLINE, PROMPT]
  {
    assert [NEWLINE][..0] == [];
  }

  /** The echo of two lines has the prompt at the beginning of the second. */
  lemma {:induction false} TwoLinesEcho(a: seq<bv8>, b: seq<bv8>)
    requires IsPrintable(a) && IsPrintable(b)
    ensures EchoAll(a + [NEWLINE] + b) == a + [NEWLINE] + ([PROMPT] + b)
  {
    hide EchoAll, IsPrintable;
    EchoInParts(a, [NEWLINE]);
    EchoInParts(a + [NEWLINE], b);
    PrintableEcho(a);
    PrintableEcho(b);
    LineEndEcho();
    assert a + [NEWLINE, PROMPT] + b == a + [NEWLINE] + ([PROMPT] + b);
  }

  lemma ShareAt(cells: seq<bv8>, v: View, k: nat)
    requires v.original <= k < v.original + v.limit <= |cells|
    ensures Share(cells, v)[k - v.original] == cells[k]
  {
  }

  lemma PartAt(before: seq<bv8>, text: seq<bv8>, c: nat, i: nat)
    requires c + |text| <= |before| && i < |text|
    ensures (before[..c] + text + before[c + |text|..])[c + i] == text[i]
  {
  }

  /** Printable text that fits and is echoed stands in the cells from the cursor on. */
  lemma {:induction false} PlainTextStands(before: seq<bv8>, after: seq<bv8>, v: View, text: seq<bv8>, i: nat)
    requires ViewOk(v) && v.original + v.limit <= |before| == |after| && i < |text|
    requires IsPrintable(text) && v.cursor + |text| < v.original + v.limit
    requires Share(after, v) == Share(DrawnAll(before, v, EchoAll(text)), v)
    ensures after[v.cursor + i] == text[i]
  {
    hide DrawnAll, EchoAll, IsPrintable;
    PrintableEcho(text);
    TextStands(before, v, text);
    ShareAt(after, v, v.cursor + i);
    ShareAt(DrawnAll(before, v, text), v, v.cursor + i);
    PartAt(before, text, v.cursor, i);
  }

  /**
   Two lines that fit and are echoed: the first stands in the cells from the cursor on, the
   second on the next line behind the prompt.
   */
  lemma {:induction false} TwoLinesSeen(before: seq<bv8>, after: seq<bv8>, v: View, a: seq<bv8>, b: seq<bv8>,
                                        line: nat, i: nat)
    requires ViewOk(v) && v.original + v.limit <= |before| == |after| && IsPrintable(a) && IsPrintable(b)
    requires v.cursor + |a| < v.original + v.limit - SCREEN_WIDTH && IsNextLine(v, v.cursor + |a|, line)
    requires line + 1 + |b| < v.original + v.limit
    requires Share(after, v) == Share(DrawnAll(before, v, EchoAll(a + [NEWLINE] + b)), v)
    ensures i < |a| ==> after[v.cursor + i] == a[i]
    ensures after[line] == PROMPT && (i < |b| ==> after[line + 1 + i] == b[i])
  {
    hide DrawnAll, EchoAll, Share;
    var all := DrawnAll(before, v, EchoAll(a + [NEWLINE] + b));
    TwoLinesEcho(a, b);
    TwoLinesStand(before, v, a, [PROMPT] + b, line);
    ShareAt(after, v, line);
    ShareAt(all, v, line);
    if i < |a| {
      ShareAt(after, v, v.cursor + i);
      ShareAt(all, v, v.cursor + i);
    }
    if i < |b| {
      ShareAt(after, v, line + 1 + i);
      ShareAt(all, v, line + 1 + i);
    }
  }
}
