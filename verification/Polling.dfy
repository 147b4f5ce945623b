/**
 The polling loop of task_tty (kernel/tty.c) on the terminals: every call in it is a sequence of
 turns of the pipeline of Typing, so what Typing proves of the pipeline holds of the terminals.
 */
module Polling {
  import opened Options
  import opened Rings
  import opened ScanCodes
  import opened KeyMeaning
  import opened KeyboardCode
  import opened TerminalCode
  import opened Consoles
  import opened Displays
  import opened Typing

  ghost function TtyObjects(t: Tty): set<object> {
    {t, t.inBuf, t.inBuf.buf, t.console}
  }

  ghost function Objects(ts: Terminals): set<object> {
    {ts, ts.keyboard, ts.keyboard.kbIn, ts.keyboard.kbIn.buf, ts.video}
    + (set i, o | 0 <= i < |ts.ttys| && o in TtyObjects(ts.ttys[i]) :: o)
  }

  /** Everything is an object of its own, but the consoles share video memory. */
  ghost predicate Separate(ts: Terminals) {
    && |ts.ttys| == NR_CONSOLES
    && AllApart(ts.ttys)
    && DeskOk(ts.desk0) && AllSharesApart(ts.desk0)
    && ts.video != ts.keyboard.kbIn.buf
    && (forall i :: 0 <= i < |ts.ttys| ==> ts.ttys[i].console.video == ts.video)
  }

  ghost predicate ShowsTty(t: Tty, input: seq<bv32>, written: seq<bv8>, view: View)
    reads TtyObjects(t)
  {
    t.Valid() && t.Pending() == input && t.written == written && t.console.ViewOf() == view
  }

  /** The consoles and video memory now, if `screen` was done to them since the start. */
  ghost function DeskOf(ts: Terminals, screen: seq<ScreenEvent>): (d: Desk)
    requires DeskOk(ts.desk0)
    ensures DeskOk(d)
  {
    DeskAfter(ts.desk0, screen)
  }

  /** The terminals are in state `p` of the pipeline, between two calls of keyboard_read. */
  ghost predicate Shows(ts: Terminals, p: Pipe)
    reads Objects(ts)
  {
    && PipeShape(p) && p.taken == [] && |ts.ttys| == NR_CONSOLES
    && ts.keyboard.Valid() && ts.keyboard.kbIn.buf.Length == KB_IN_BYTES
    && p.kb == ts.keyboard.kbIn.Contents() && p.mods == ts.keyboard.ModsOf() && p.current == ts.nrCurrent
    && DeskOk(ts.desk0) && DeskOf(ts, p.screen).cells == ts.video[..]
    && (forall i :: 0 <= i < NR_CONSOLES ==>
          ShowsTty(ts.ttys[i], p.input[i], p.written[i], DeskOf(ts, p.screen).views[i]))
  }

  lemma ShowsFacts(ts: Terminals, p: Pipe)
    requires Shows(ts, p)
    ensures PipeShape(p) && p.taken == [] && ts.keyboard.Valid() && |ts.ttys| == NR_CONSOLES
  {
  }

  /** A keyboard interrupt between two calls. */
  method Interrupt(ts: Terminals, ghost p: Pipe)
    requires Separate(ts) && Shows(ts, p) && ts.keyboard.wire != []
    modifies ts.keyboard`wire, ts.keyboard.kbIn, ts.keyboard.kbIn.buf
    ensures Shows(ts, Turned(p, Arrive(old(ts.keyboard.wire)[0])))
    ensures ts.keyboard.wire == old(ts.keyboard.wire)[1..]
    ensures old(ts.keyboard.kbIn.count) < KB_IN_BYTES ==> ts.keyboard.Supply() == old(ts.keyboard.Supply())
  {
    ts.keyboard.KeyboardHandler();
  }

  /** tty_do_write */
  method WriteTty(ts: Terminals, i: nat, ghost p: Pipe)
    requires Separate(ts) && Shows(ts, p) && i < NR_CONSOLES
    modifies TtyObjects(ts.ttys[i]), ts.video
    ensures Shows(ts, Turned(p, Write(i)))
  {
    hide ViewOk, Written, Drawn, DeskAfter, WrittenAll, DrawnAll, CharOf;
    if p.input[i] != [] {
      ghost var es := EchoEvents(i, CharOf(p.input[i][0]));
      DeskAfterMore(ts.desk0, p.screen, es);
      EchoOnDesk(DeskOf(ts, p.screen), i, CharOf(p.input[i][0]));
    }
    ts.ttys[i].DoWrite();
  }

  /** What is left in the buffer and on the wire after `used` bytes, if the buffer is used up first. */
  lemma SupplySplit(kb: seq<bv8>, wire: seq<bv8>, kb': seq<bv8>, wire': seq<bv8>, used: nat)
    requires used <= |kb| + |wire| && kb' + wire' == (kb + wire)[used..]
    requires |wire'| == Least(|wire|, |kb'| + |wire'|)
    ensures kb' == kb[Least(used, |kb|)..]
    ensures wire' == wire[if used <= |kb| then 0 else used - |kb|..]
  {
    var all := (kb + wire)[used..];
    assert kb' == all[..|kb'|] && wire' == all[|kb'|..];
  }

  /** keyboard_read with a token for the terminal that is shown is Handle of the pipeline. */
  lemma HandleIsReacted(p: Pipe, t: Token, s: Screen)
    requires PipeShape(p) && ViewOk(s.view) && s.current == p.current && s.pending == p.input[p.current]
    ensures var s' := match Passed(p.mods, t)
                      case None => s
                      case Some(key) => Reacted(s, key);
            var q := Handle(p, t);
            && PipeShape(q) && q.taken == [] && q.kb == p.kb && q.mods == ModsAfterToken(p.mods, t)
            && q.current == s'.current && q.written == p.written
            && q.input == p.input[p.current := s'.pending]
  {
    hide Passed, Reacts, ViewOk;
  }

  /** And it scrolls the window of that terminal, if it scrolls anything. */
  lemma {:induction false} HandleOnDesk(p: Pipe, t: Token, s: Screen, d: Desk)
    requires PipeShape(p) && DeskOk(d) && ViewOk(s.view) && DeskAfter(d, p.screen).views[p.current] == s.view
    ensures var s' := match Passed(p.mods, t)
                      case None => s
                      case Some(key) => Reacted(s, key);
            DeskAfter(d, Handle(p, t).screen) ==
              DeskAfter(d, p.screen).(views := DeskAfter(d, p.screen).views[p.current := s'.view])
  {
    hide Passed, Reacts, ViewOk, Scrolled, ModsAfterToken, DeskAfter;
    var r := DeskAfter(d, p.screen);
    assert r.views[p.current := r.views[p.current]] == r.views;
    if Passed(p.mods, t).Some? && Reacts(Passed(p.mods, t).value).Scroll? {
      ScrollOnDesk(d, p.screen, p.current, Reacts(Passed(p.mods, t).value).direction);
    }
  }

  /** The bytes make up whole tokens, so that keyboard_read never waits for ever. */
  ghost predicate IsWhole(bs: seq<bv8>) {
    Decode(bs).1 == []
  }

  lemma WholeStep(bs: seq<bv8>)
    requires IsWhole(bs) && bs != []
    ensures Parse(bs).Parsed? && Parse(bs).used <= |bs| && IsWhole(bs[Parse(bs).used..])
  {
    DecodeStep(bs);
  }

  /** The pipeline after a keyboard_read that took `used` bytes, first of those in the buffer. */
  ghost function AfterRead(p: Pipe, wire: seq<bv8>, used: nat): Pipe
    requires PipeShape(p) && (used > 0 ==> Parse(p.kb + wire).Parsed?)
  {
    if used == 0 then p else Handle(p.(kb := p.kb[Least(used, |p.kb|)..]), Parse(p.kb + wire).token)
  }

  /** Its parts, from those before the call and what the call does to the terminal that is shown. */
  lemma AfterReadParts(p: Pipe, wire: seq<bv8>, used: nat, s: Screen, d: Desk)
    requires PipeShape(p) && p.taken == [] && (used > 0 ==> Parse(p.kb + wire).Parsed?)
    requires DeskOk(d) && ViewOk(s.view) && DeskAfter(d, p.screen).views[p.current] == s.view
    requires s.current == p.current && s.pending == p.input[p.current]
    ensures var q, r := AfterRead(p, wire, used), DeskAfter(d, p.screen);
            var passed := if used == 0 then None else Passed(p.mods, Parse(p.kb + wire).token);
            var s' := if passed.Some? then Reacted(s, passed.value) else s;
            && PipeShape(q) && q.taken == [] && q.kb == p.kb[Least(used, |p.kb|)..]
            && q.mods == (if used == 0 then p.mods else ModsAfterToken(p.mods, Parse(p.kb + wire).token))
            && q.current == s'.current && q.written == p.written && q.input == p.input[p.current := s'.pending]
            && DeskAfter(d, q.screen) == r.(views := r.views[p.current := s'.view])
  {
    hide Parse, Passed, Reacted, ModsAfterToken, ViewOk, DeskAfter, Handle;
    if used > 0 {
      HandleIsReacted(p.(kb := p.kb[Least(used, |p.kb|)..]), Parse(p.kb + wire).token, s);
      HandleOnDesk(p.(kb := p.kb[Least(used, |p.kb|)..]), Parse(p.kb + wire).token, s, d);
    }
  }

  /** Such a call is a sequence of turns. */
  lemma TurnsOfRead(p: Pipe, wire: seq<bv8>, used: nat) returns (turns: seq<Turn>)
    requires PipeShape(p) && p.taken == [] && used <= |p.kb| + |wire|
    requires used > 0 ==> Parse(p.kb + wire).Parsed? && used == Parse(p.kb + wire).used
    ensures MayAll(p, turns) && TurnedBy(p, turns) == AfterRead(p, wire, used)
    ensures Arrived(turns) + wire[if used <= |p.kb| then 0 else used - |p.kb|..] == wire
  {
    hide Parse, Handle, TurnedBy, MayAll, Arrived;
    if used == 0 {
      turns := [];
      NoTurns(p);
    } else {
      BetweenCalls(p, wire);
      turns := ReadIsTurns(p, wire);
    }
  }

  /** What keyboard_read for terminal `i` can change is no part of the other terminals. */
  lemma OthersApart(ts: Terminals, i: nat, j: nat)
    requires Separate(ts) && i < NR_CONSOLES && j < NR_CONSOLES && i != j
    ensures TtyObjects(ts.ttys[j]) !! TtyObjects(ts.ttys[i]) + {ts, ts.keyboard, ts.keyboard.kbIn, ts.keyboard.kbIn.buf}
  {
    if i < j {
      assert Apart(ts.ttys[i], ts.ttys[j]);
    } else {
      assert Apart(ts.ttys[j], ts.ttys[i]);
    }
  }

  /** keyboard_read for the terminal that is shown. */
  method ReadShown(ts: Terminals, ghost p: Pipe) returns (ghost used: nat)
    requires Separate(ts) && Shows(ts, p) && IsWhole(ts.keyboard.Supply())
    modifies ts`nrCurrent, ts.keyboard, ts.keyboard.kbIn, ts.keyboard.kbIn.buf, TtyObjects(ts.ttys[ts.nrCurrent])
    ensures used > 0 ==> Parse(p.kb + old(ts.keyboard.wire)).Parsed? && used == Parse(p.kb + old(ts.keyboard.wire)).used
    ensures Shows(ts, AfterRead(p, old(ts.keyboard.wire), used))
    ensures used <= |p.kb| + old(|ts.keyboard.wire|)
    ensures ts.keyboard.wire == old(ts.keyboard.wire)[if used <= |p.kb| then 0 else used - |p.kb|..]
    ensures IsWhole(ts.keyboard.Supply())
  {
    hide IsWhole, Parse, Passed, Reacted, ModsAfterToken, ViewOk, DeskAfter, AfterRead, Least, AllSharesApart, AllApart;
    ghost var kb, wire := ts.keyboard.kbIn.Contents(), ts.keyboard.wire;
    ghost var i, s := ts.nrCurrent, ts.ScreenOf(ts.ttys[ts.nrCurrent]);
    if kb + wire != [] {
      WholeStep(kb + wire);
    }
    used := ts.KeyboardRead(ts.ttys[ts.nrCurrent]);
    SupplySplit(kb, wire, ts.keyboard.kbIn.Contents(), ts.keyboard.wire, used);
    AfterReadParts(p, wire, used, s, ts.desk0);
    forall j | 0 <= j < NR_CONSOLES && j != i
      ensures ShowsTty(ts.ttys[j], p.input[j], p.written[j], DeskOf(ts, p.screen).views[j])
    {
      OthersApart(ts, i, j);
    }
  }

  /** tty_do_read: nothing, or one call of keyboard_read for the terminal that is shown. */
  method ReadTty(ts: Terminals, i: nat, ghost p: Pipe) returns (ghost turns: seq<Turn>)
    requires Separate(ts) && Shows(ts, p) && i < NR_CONSOLES
    requires IsWhole(ts.keyboard.Supply())
    modifies ts`nrCurrent, ts.keyboard, ts.keyboard.kbIn, ts.keyboard.kbIn.buf, TtyObjects(ts.ttys[i])
    ensures MayAll(p, turns) && Shows(ts, TurnedBy(p, turns))
    ensures Arrived(turns) + ts.keyboard.wire == old(ts.keyboard.wire)
    ensures IsWhole(ts.keyboard.Supply())
  {
    hide IsWhole, Parse, Handle, TurnedBy, MayAll, Arrived, Shows, AfterRead;
    ShowsFacts(ts, p);
    turns := [];
    NoTurns(p);
    assert [] + ts.keyboard.wire == ts.keyboard.wire;
    if ts.nrCurrent == i {
      ghost var wire := ts.keyboard.wire;
      ghost var used := ReadShown(ts, p);
      turns := TurnsOfRead(p, wire, used);
    }
  }

  /** The body of the loop of task_tty: read from and write to one terminal. */
  method PollTty(ts: Terminals, i: nat, ghost p: Pipe) returns (ghost turns: seq<Turn>)
    requires Separate(ts) && Shows(ts, p) && i < NR_CONSOLES && IsWhole(ts.keyboard.Supply())
    modifies ts`nrCurrent, ts.keyboard, ts.keyboard.kbIn, ts.keyboard.kbIn.buf,
             TtyObjects(ts.ttys[i]), ts.video
    ensures MayAll(p, turns) && Shows(ts, TurnedBy(p, turns))
    ensures Arrived(turns) + ts.keyboard.wire == old(ts.keyboard.wire)
    ensures IsWhole(ts.keyboard.Supply())
  {
    hide Shows, TurnedBy, MayAll, Arrived, IsWhole, Turned;
    ShowsFacts(ts, p);
    turns := ReadTty(ts, i, p);
    ghost var q := TurnedBy(p, turns);
    ShowsFacts(ts, q);
    WriteTty(ts, i, q);
    ShowsFacts(ts, Turned(q, Write(i)));
    OneTurnLast(p, turns, Write(i));
    assert Arrived(turns) + [] == Arrived(turns);
    turns := turns + [Write(i)];
  }

  /** More turns, which account for what has left the wire. */
  lemma MoreTurns(p: Pipe, turns: seq<Turn>, more: seq<Turn>, wire: seq<bv8>, wire': seq<bv8>)
    requires PipeShape(p) && MayAll(p, turns) && MayAll(TurnedBy(p, turns), more)
    requires Arrived(more) + wire' == wire
    ensures MayAll(p, turns + more) && TurnedBy(p, turns + more) == TurnedBy(TurnedBy(p, turns), more)
    ensures Arrived(turns + more) + wire' == Arrived(turns) + wire
  {
    hide TurnedBy, MayAll, Arrived;
    TurnsCompose(p, turns, more);
    assert (Arrived(turns) + Arrived(more)) + wire' == Arrived(turns) + (Arrived(more) + wire');
  }

  /** One round of the loop of task_tty. */
  method PollOnce(ts: Terminals, ghost p: Pipe) returns (ghost turns: seq<Turn>)
    requires Separate(ts) && Shows(ts, p) && IsWhole(ts.keyboard.Supply())
    modifies Objects(ts)
    ensures MayAll(p, turns) && Shows(ts, TurnedBy(p, turns))
    ensures Arrived(turns) + ts.keyboard.wire == old(ts.keyboard.wire)
    ensures IsWhole(ts.keyboard.Supply())
  {
    hide Shows, TurnedBy, MayAll, Arrived, IsWhole, AllApart, DeskOk;
    ShowsFacts(ts, p);
    turns := [];
    NoTurns(p);
    assert [] + ts.keyboard.wire == ts.keyboard.wire;
    for i := 0 to NR_CONSOLES
      invariant MayAll(p, turns) && Shows(ts, TurnedBy(p, turns))
      invariant Arrived(turns) + ts.keyboard.wire == old(ts.keyboard.wire)
      invariant ts.keyboard.Valid() && IsWhole(ts.keyboard.Supply())
    {
      ghost var wire := ts.keyboard.wire;
      ghost var more := PollTty(ts, i, TurnedBy(p, turns));
      MoreTurns(p, turns, more, wire, ts.keyboard.wire);
      turns := turns + more;
      ShowsFacts(ts, TurnedBy(p, turns));
    }
  }

  /** The set-up of task_tty, before any key was pressed. */
  method Boot(wire: seq<bv8>, bootCursor: nat) returns (ts: Terminals)
    requires bootCursor < V_MEM_CELLS / NR_CONSOLES
    ensures Separate(ts) && Shows(ts, EMPTY_PIPE) && ts.keyboard.wire == wire
  {
    ts := new Terminals(wire, bootCursor);
  }

  /** Keyboard interrupts in a row, while there are bytes and the buffer has room. */
  method TakeInterrupts(ts: Terminals, n: nat, ghost p: Pipe) returns (ghost turns: seq<Turn>)
    requires Separate(ts) && Shows(ts, p) && IsWhole(ts.keyboard.Supply())
    modifies ts.keyboard`wire, ts.keyboard.kbIn, ts.keyboard.kbIn.buf
    ensures MayAll(p, turns) && Shows(ts, TurnedBy(p, turns))
    ensures Arrived(turns) + ts.keyboard.wire == old(ts.keyboard.wire)
    ensures IsWhole(ts.keyboard.Supply())
  {
    hide Shows, TurnedBy, MayAll, Arrived, IsWhole, Turned;
    ShowsFacts(ts, p);
    turns := [];
    NoTurns(p);
    assert [] + ts.keyboard.wire == ts.keyboard.wire;
    var i := 0;
    while i < n && ts.keyboard.wire != [] && ts.keyboard.kbIn.count < KB_IN_BYTES
      invariant MayAll(p, turns) && Shows(ts, TurnedBy(p, turns))
      invariant Arrived(turns) + ts.keyboard.wire == old(ts.keyboard.wire)
      invariant ts.keyboard.Valid() && IsWhole(ts.keyboard.Supply())
    {
      ghost var q, b := TurnedBy(p, turns), ts.keyboard.wire[0];
      assert (Arrived(turns) + [b]) + ts.keyboard.wire[1..] == Arrived(turns) + ts.keyboard.wire;
      Interrupt(ts, q);
      OneTurnLast(p, turns, Arrive(b));
      turns := turns + [Arrive(b)];
      ShowsFacts(ts, TurnedBy(p, turns));
      i := i + 1;
    }
  }

  /** Terminal `t` has taken out only text that the keys mean, and all of it when nothing is left. */
  ghost predicate TypedRight(ts: Terminals, es: seq<KeyEvent>, t: nat)
    requires |ts.ttys| == NR_CONSOLES && t < NR_CONSOLES
    reads Objects(ts), TtyObjects(ts.ttys[t])
  {
    && ts.ttys[t].Valid()
    && ts.ttys[t].written <= MeaningOf(TokensOf(es)).text[t]
    && (ts.keyboard.wire == [] && ts.keyboard.kbIn.count == 0 && ts.ttys[t].Pending() == [] ==>
          ts.ttys[t].written == MeaningOf(TokensOf(es)).text[t])
  }

  /** The console of terminal `t` shows the echo of what the terminal has taken out. */
  ghost predicate SeenRight(ts: Terminals, t: nat)
    requires |ts.ttys| == NR_CONSOLES && t < NR_CONSOLES && DeskOk(ts.desk0)
    reads Objects(ts), TtyObjects(ts.ttys[t])
  {
    var v, echo := ts.desk0.views[t], EchoAll(ts.ttys[t].written);
    && ts.video.Length == |ts.desk0.cells|
    && ts.ttys[t].console.cursor == WrittenAll(v, echo).cursor
    && Share(ts.video[..], v) == Share(DrawnAll(ts.desk0.cells, v, echo), v)
  }

  /**
   task_tty for any number of rounds, with any number of interrupts before each, and more
   whenever keyboard_read waits: if no input buffer was full, every terminal has taken out a
   prefix of what the keys mean, and all of it when nothing is left; and if no console was full,
   every console shows the echo of what its terminal has taken out.
   */
  method RunTask(ts: Terminals, interrupts: seq<nat>, ghost es: seq<KeyEvent>) returns (ghost turns: seq<Turn>)
    requires Separate(ts) && Shows(ts, EMPTY_PIPE)
    requires (forall e :: e in es ==> InSet(e)) && ts.keyboard.wire == EncodeAll(es)
    modifies Objects(ts)
    ensures MayAll(EMPTY_PIPE, turns) && Shows(ts, TurnedBy(EMPTY_PIPE, turns))
    ensures !TurnedBy(EMPTY_PIPE, turns).lost ==> forall t :: 0 <= t < NR_CONSOLES ==> TypedRight(ts, es, t)
    ensures NeverFull(ts.desk0, TurnedBy(EMPTY_PIPE, turns).screen) ==>
              forall t :: 0 <= t < NR_CONSOLES ==> SeenRight(ts, t)
  {
    hide TurnedBy, MayAll, Arrived, EncodeAll, Shows, IsWhole, TypedRight, SeenRight, NeverFull, AllApart, DeskOk;
    turns := [];
    NoTurns(EMPTY_PIPE);
    ShowsFacts(ts, EMPTY_PIPE);
    StartsWhole(ts, es);
    assert [] + ts.keyboard.wire == ts.keyboard.wire;
    for k := 0 to |interrupts|
      invariant MayAll(EMPTY_PIPE, turns) && Shows(ts, TurnedBy(EMPTY_PIPE, turns))
      invariant Arrived(turns) + ts.keyboard.wire == EncodeAll(es)
      invariant ts.keyboard.Valid() && IsWhole(ts.keyboard.Supply())
    {
      ghost var wire := ts.keyboard.wire;
      ghost var more := TakeInterrupts(ts, interrupts[k], TurnedBy(EMPTY_PIPE, turns));
      MoreTurns(EMPTY_PIPE, turns, more, wire, ts.keyboard.wire);
      turns, wire := turns + more, ts.keyboard.wire;
      more := PollOnce(ts, TurnedBy(EMPTY_PIPE, turns));
      MoreTurns(EMPTY_PIPE, turns, more, wire, ts.keyboard.wire);
      turns := turns + more;
      ShowsFacts(ts, TurnedBy(EMPTY_PIPE, turns));
    }
    AfterTurns(ts, turns, es);
  }

  /** What Typing and Displays say of the turns, said of the terminals. */
  lemma AfterTurns(ts: Terminals, turns: seq<Turn>, es: seq<KeyEvent>)
    requires Separate(ts) && MayAll(EMPTY_PIPE, turns) && Shows(ts, TurnedBy(EMPTY_PIPE, turns))
    requires (forall e :: e in es ==> InSet(e)) && Arrived(turns) + ts.keyboard.wire == EncodeAll(es)
    ensures !TurnedBy(EMPTY_PIPE, turns).lost ==> forall t :: 0 <= t < NR_CONSOLES ==> TypedRight(ts, es, t)
    ensures NeverFull(ts.desk0, TurnedBy(EMPTY_PIPE, turns).screen) ==>
              forall t :: 0 <= t < NR_CONSOLES ==> SeenRight(ts, t)
  {
    hide TypedRight, SeenRight, Shows, TurnedBy, MayAll, Arrived;
    forall t | 0 <= t < NR_CONSOLES
      ensures !TurnedBy(EMPTY_PIPE, turns).lost ==> TypedRight(ts, es, t)
      ensures NeverFull(ts.desk0, TurnedBy(EMPTY_PIPE, turns).screen) ==> SeenRight(ts, t)
    {
      if !TurnedBy(EMPTY_PIPE, turns).lost {
        WrittenText(ts, turns, es, t);
      }
      if NeverFull(ts.desk0, TurnedBy(EMPTY_PIPE, turns).screen) {
        SeenText(ts, turns, t);
      }
    }
  }

  lemma StartsWhole(ts: Terminals, es: seq<KeyEvent>)
    requires Shows(ts, EMPTY_PIPE) && ts.keyboard.wire == EncodeAll(es)
    requires forall e :: e in es ==> InSet(e)
    ensures ts.keyboard.Valid() && IsWhole(ts.keyboard.Supply())
  {
    DecodeEncode(es, []);
    DecodeStep([]);
    assert EncodeAll(es) + [] == EncodeAll(es);
    assert ts.keyboard.Supply() == EncodeAll(es);
  }

  lemma WrittenText(ts: Terminals, turns: seq<Turn>, es: seq<KeyEvent>, t: nat)
    requires MayAll(EMPTY_PIPE, turns) && !TurnedBy(EMPTY_PIPE, turns).lost && t < NR_CONSOLES
    requires Shows(ts, TurnedBy(EMPTY_PIPE, turns))
    requires (forall e :: e in es ==> InSet(e)) && Arrived(turns) + ts.keyboard.wire == EncodeAll(es)
    ensures TypedRight(ts, es, t)
  {
    hide TurnedBy, MayAll, Arrived, MeaningOf, EncodeAll;
    TypedTextArrives(turns, es, t);
    assert ts.keyboard.wire == [] ==> Arrived(turns) == EncodeAll(es);
  }

  lemma SeenText(ts: Terminals, turns: seq<Turn>, t: nat)
    requires MayAll(EMPTY_PIPE, turns) && t < NR_CONSOLES && Separate(ts)
    requires Shows(ts, TurnedBy(EMPTY_PIPE, turns))
    requires NeverFull(ts.desk0, TurnedBy(EMPTY_PIPE, turns).screen)
    ensures SeenRight(ts, t)
  {
    hide TurnedBy, MayAll, ViewOk, DeskAfter, NeverFull, WrittenAll, DrawnAll, EchoAll;
    var p := TurnedBy(EMPTY_PIPE, turns);
    WrittenTextIsSeen(turns, ts.desk0, t);
    assert ShowsTty(ts.ttys[t], p.input[t], p.written[t], DeskOf(ts, p.screen).views[t]);
  }

  /** Printable text that fits is then to be read in video memory, from the first cursor on. */
  lemma PlainTextIsSeen(ts: Terminals, t: nat)
    requires |ts.ttys| == NR_CONSOLES && t < NR_CONSOLES && DeskOk(ts.desk0) && SeenRight(ts, t)
    requires IsPrintable(ts.ttys[t].written)
    requires ts.desk0.views[t].cursor + |ts.ttys[t].written| < ts.desk0.views[t].original + ts.desk0.views[t].limit
    ensures ts.desk0.views[t].cursor + |ts.ttys[t].written| <= ts.video.Length
    ensures forall i :: 0 <= i < |ts.ttys[t].written| ==>
              ts.video[ts.desk0.views[t].cursor + i] == ts.ttys[t].written[i]
  {
    hide WrittenAll, DrawnAll, Share, EchoAll, IsPrintable;
    forall i | 0 <= i < |ts.ttys[t].written|
      ensures ts.video[ts.desk0.views[t].cursor + i] == ts.ttys[t].written[i]
    {
      PlainTextStands(ts.desk0.cells, ts.video[..], ts.desk0.views[t], ts.ttys[t].written, i);
    }
  }

  /** Two lines that fit are to be read as two lines, with the prompt in front of the second. */
  lemma {:induction false} TwoLinesAreSeen(ts: Terminals, t: nat, a: seq<bv8>, b: seq<bv8>, line: nat)
    requires |ts.ttys| == NR_CONSOLES && t < NR_CONSOLES && DeskOk(ts.desk0) && SeenRight(ts, t)
    requires ts.ttys[t].written == a + [NEWLINE] + b && IsPrintable(a) && IsPrintable(b)
    requires var v := ts.desk0.views[t];
             && v.cursor + |a| < v.original + v.limit - SCREEN_WIDTH && IsNextLine(v, v.cursor + |a|, line)
             && line + 1 + |b| < v.original + v.limit
    ensures line + 1 + |b| < ts.video.Length && ts.video[line] == PROMPT
    ensures forall i :: 0 <= i < |a| ==> ts.video[ts.desk0.views[t].cursor + i] == a[i]
    ensures forall i :: 0 <= i < |b| ==> ts.video[line + 1 + i] == b[i]
  {
    hide WrittenAll, DrawnAll, Share, EchoAll, IsPrintable;
    var cells, v := ts.desk0.cells, ts.desk0.views[t];
    TwoLinesSeen(cells, ts.video[..], v, a, b, line, 0);
    forall i | 0 <= i < |a| ensures ts.video[v.cursor + i] == a[i] {
      TwoLinesSeen(cells, ts.video[..], v, a, b, line, i);
    }
    forall i | 0 <= i < |b| ensures ts.video[line + 1 + i] == b[i] {
      TwoLinesSeen(cells, ts.video[..], v, a, b, line, i);
    }
  }
}
