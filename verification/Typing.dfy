/**
 From key to console: the interrupt handler, the parser and the writer as three parties that
 take turns in any order, joined by the two ring buffers.
 */
module Typing {
  import opened Options
  import opened Rings
  import opened KeyCodes
  import opened ScanCodes
  import opened KeyMeaning
  import opened KeyboardCode
  import opened TerminalCode
  import opened Consoles
  import opened Displays

  // ---------------------------------------------------------------- what should be typed

  /** What a sequence of keys means: who is shown, and the characters typed at each terminal. */
  datatype Meaning = Meaning(current: nat, text: seq<seq<bv8>>)

  ghost function MeaningStep(w: Meaning, m: Mods, t: Token): (r: Meaning)
    ensures |r.text| == |w.text|
  {
    match Passed(m, t)
    case None => w
    case Some(key) =>
      (match Reacts(key)
       case PutKey(k) =>
         if w.current < |w.text| then w.(text := w.text[w.current := w.text[w.current] + [CharOf(k)]]) else w
       case Select(nr) => w.(current := Selected(w.current, nr))
       case _ => w)
  }

  ghost function MeaningOf(ts: seq<Token>): (w: Meaning)
    ensures |w.text| == NR_CONSOLES
  {
    if ts == [] then Meaning(0, [[], [], []])
    else MeaningStep(MeaningOf(ts[..|ts| - 1]), ModsAfter(ts[..|ts| - 1]), ts[|ts| - 1])
  }

  // ---------------------------------------------------------------- the pipeline

  /**
   kb_in, the bytes that the current keyboard_read has taken so far, the modifiers, the input
   buffers, what tty_do_write has read out of each, and all that was done to the consoles; `lost`
   records that a ring was full.
   */
  datatype Pipe = Pipe(kb: seq<bv8>, taken: seq<bv8>, mods: Mods, current: nat,
                       input: seq<seq<bv32>>, written: seq<seq<bv8>>, screen: seq<ScreenEvent>, lost: bool)

  /** A keyboard interrupt, get_byte_from_kbuf within keyboard_read, and tty_do_write. */
  datatype Turn = Arrive(b: bv8) | Fetch | Write(t: nat)

  const EMPTY_PIPE := Pipe([], [], INITIAL_MODS, 0, [[], [], []], [[], [], []], [], false)

  ghost predicate PipeShape(p: Pipe) {
    |p.input| == |p.written| == NR_CONSOLES && p.current < NR_CONSOLES
  }

  /** The terminal task writes only when it is not in the middle of keyboard_read. */
  ghost predicate MayTurn(p: Pipe, turn: Turn) {
    match turn
    case Arrive(_) => true
    case Fetch => p.kb != []
    case Write(t) => p.taken == [] && t < NR_CONSOLES
  }

  /** keyboard_read with the complete token `t`. */
  ghost function Handle(p: Pipe, t: Token): Pipe
    requires PipeShape(p)
  {
    var q := p.(taken := [], mods := ModsAfterToken(p.mods, t));
    match Passed(p.mods, t)
    case None => q
    case Some(key) =>
      (match Reacts(key)
       case PutKey(k) =>
         q.(input := q.input[q.current := Offer(q.input[q.current], k, TTY_IN_BYTES)],
            lost := q.lost || |q.input[q.current]| >= TTY_IN_BYTES)
       case Scroll(direction) => q.(screen := q.screen + [On(q.current, Consoles.Scroll(direction))])
       case Select(nr) => q.(current := Selected(q.current, nr))
       case Ignore => q)
  }

  ghost function Turned(p: Pipe, turn: Turn): (q: Pipe)
    requires PipeShape(p) && MayTurn(p, turn)
    ensures PipeShape(q)
  {
    match turn
    case Arrive(b) => p.(kb := Offer(p.kb, b, KB_IN_BYTES), lost := p.lost || |p.kb| >= KB_IN_BYTES)
    case Fetch =>
      var q := p.(kb := p.kb[1..], taken := p.taken + [p.kb[0]]);
      (match Parse(q.taken)
       case Incomplete => q
       case Parsed(t, _) => Handle(q, t))
    case Write(t) =>
      if p.input[t] == [] then p
      else
        var ch := CharOf(p.input[t][0]);
        p.(input := p.input[t := p.input[t][1..]],
           written := p.written[t := p.written[t] + [ch]],
           screen := p.screen + EchoEvents(t, ch))
  }

  ghost predicate MayAll(p: Pipe, turns: seq<Turn>)
    requires PipeShape(p)
    decreases |turns|
  {
    turns == [] || (MayTurn(p, turns[0]) && MayAll(Turned(p, turns[0]), turns[1..]))
  }

  /** The pipeline after any sequence of turns. */
  ghost function TurnedBy(p: Pipe, turns: seq<Turn>): (q: Pipe)
    requires PipeShape(p) && MayAll(p, turns)
    ensures PipeShape(q)
    decreases |turns|
  {
    if turns == [] then p else TurnedBy(Turned(p, turns[0]), turns[1..])
  }

  /** The bytes that the keyboard delivered, in order. */
  ghost function Arrived(turns: seq<Turn>): seq<bv8> {
    if turns == [] then []
    else (if turns[0].Arrive? then [turns[0].b] else []) + Arrived(turns[1..])
  }

  lemma {:induction false} ArrivedInParts(a: seq<Turn>, b: seq<Turn>)
    ensures Arrived(a + b) == Arrived(a) + Arrived(b)
    decreases |a|
  {
    if a == [] {
      assert a + b == b;
    } else {
      assert (a + b)[0] == a[0] && (a + b)[1..] == a[1..] + b;
      ArrivedInParts(a[1..], b);
    }
  }

  /** Taking the turns of `a` and then those of `b`. */
  lemma {:induction false} TurnsCompose(p: Pipe, a: seq<Turn>, b: seq<Turn>)
    requires PipeShape(p) && MayAll(p, a) && MayAll(TurnedBy(p, a), b)
    ensures MayAll(p, a + b) && TurnedBy(p, a + b) == TurnedBy(TurnedBy(p, a), b)
    ensures Arrived(a + b) == Arrived(a) + Arrived(b)
    decreases |a|
  {
    hide Turned, MayTurn, PipeShape, Arrived;
    ArrivedInParts(a, b);
    if a == [] {
      assert a + b == b;
    } else {
      assert (a + b)[0] == a[0] && (a + b)[1..] == a[1..] + b;
      TurnsCompose(Turned(p, a[0]), a[1..], b);
      assert MayAll(p, a + b);
    }
  }

  lemma {:induction false} LossIsFinal(p: Pipe, turns: seq<Turn>)
    requires PipeShape(p) && MayAll(p, turns) && p.lost
    ensures TurnedBy(p, turns).lost
    decreases |turns|
  {
    hide Passed, Reacts, Parse;
    if turns != [] {
      LossIsFinal(Turned(p, turns[0]), turns[1..]);
    }
  }

  // ---------------------------------------------------------------- invariant

  ghost function Chars(keys: seq<bv32>): (s: seq<bv8>)
    ensures |s| == |keys| && forall i :: 0 <= i < |s| ==> s[i] == CharOf(keys[i])
  {
    seq(|keys|, i requires 0 <= i < |keys| => CharOf(keys[i]))
  }

  /** What was taken out of the input buffers and what is left there is what `ts` means. */
  ghost predicate TextMeans(input: seq<seq<bv32>>, written: seq<seq<bv8>>, ts: seq<Token>)
    requires |input| == |written| == NR_CONSOLES
  {
    forall t :: 0 <= t < NR_CONSOLES ==> written[t] + Chars(input[t]) == MeaningOf(ts).text[t]
  }

  /** `ts` has been handled, `done` are its bytes, and nothing that came later is out of place. */
  ghost predicate OnTheWay(p: Pipe, arrived: seq<bv8>, done: seq<bv8>, ts: seq<Token>) {
    && PipeShape(p)
    && arrived == done + p.taken + p.kb
    && Decode(done) == (ts, [])
    && Parse(p.taken).Incomplete?
    && p.mods == ModsAfter(ts)
    && p.current == MeaningOf(ts).current
    && TextMeans(p.input, p.written, ts)
  }

  /** Decoding a stream that ends with a complete token goes on with what follows. */
  lemma {:induction false} DecodeAppend(bs: seq<bv8>, more: seq<bv8>)
    requires Decode(bs).1 == []
    ensures Decode(bs + more) == (Decode(bs).0 + Decode(more).0, Decode(more).1)
    decreases |bs|
  {
    hide Parse, Decode;
    DecodeStep(bs);
    DecodeStep(bs + more);
    if Parse(bs).Incomplete? {
      assert bs == [] && bs + more == more;
      assert Decode(bs).0 + Decode(more).0 == Decode(more).0;
    } else {
      var used := Parse(bs).used;
      ParseLocal(bs, more);
      assert (bs + more)[used..] == bs[used..] + more;
      DecodeAppend(bs[used..], more);
      assert [Parse(bs).token] + (Decode(bs[used..]).0 + Decode(more).0) == Decode(bs).0 + Decode(more).0;
    }
  }

  lemma ArriveKeeps(p: Pipe, arrived: seq<bv8>, done: seq<bv8>, ts: seq<Token>, b: bv8)
    requires OnTheWay(p, arrived, done, ts) && !Turned(p, Arrive(b)).lost
    ensures OnTheWay(Turned(p, Arrive(b)), arrived + [b], done, ts)
  {
    assert arrived + [b] == done + p.taken + (p.kb + [b]);
    assert Turned(p, Arrive(b)).kb == p.kb + [b];
  }

  lemma OneKeyOn(written: seq<bv8>, input: seq<bv32>)
    requires input != []
    ensures written + [CharOf(input[0])] + Chars(input[1..]) == written + Chars(input)
  {
    hide CharOf;
    assert Chars(input) == [CharOf(input[0])] + Chars(input[1..]);
  }

  lemma WriteKeeps(p: Pipe, arrived: seq<bv8>, done: seq<bv8>, ts: seq<Token>, t: nat)
    requires OnTheWay(p, arrived, done, ts) && MayTurn(p, Write(t))
    ensures OnTheWay(Turned(p, Write(t)), arrived, done, ts)
  {
    hide MeaningOf, ModsAfter, Decode, Parse, CharOf, Chars, Handle, EchoEvents;
    if p.input[t] != [] {
      OneKeyOn(p.written[t], p.input[t]);
    }
  }

  /** The first time the bytes taken make a token, they are just the bytes of that token. */
  lemma TokenIsWhole(taken: seq<bv8>, b: bv8)
    requires Parse(taken).Incomplete? && Parse(taken + [b]).Parsed?
    ensures Decode(taken + [b]) == ([Parse(taken + [b]).token], [])
  {
    hide Parse, Decode;
    var bs := taken + [b];
    ParsePrefix(bs, |taken|);
    assert bs[..|taken|] == taken;
    DecodeStep(bs);
    DecodeStep([]);
    assert Parse(bs).used == |bs| && bs[|bs|..] == [];
    assert [Parse(bs).token] + [] == [Parse(bs).token];
  }

  lemma MeaningGrows(ts: seq<Token>, t: Token)
    ensures MeaningOf(ts + [t]) == MeaningStep(MeaningOf(ts), ModsAfter(ts), t)
    ensures ModsAfter(ts + [t]) == ModsAfterToken(ModsAfter(ts), t)
  {
    assert (ts + [t])[..|ts|] == ts;
  }

  /** Handling a token types what it means. */
  lemma HandleMeans(p: Pipe, ts: seq<Token>, t: Token)
    requires PipeShape(p) && p.mods == ModsAfter(ts) && p.current == MeaningOf(ts).current
    requires TextMeans(p.input, p.written, ts)
    requires !Handle(p, t).lost
    ensures var q := Handle(p, t);
            && PipeShape(q) && q.kb == p.kb && q.taken == []
            && q.mods == ModsAfter(ts + [t]) && q.current == MeaningOf(ts + [t]).current
            && TextMeans(q.input, q.written, ts + [t])
  {
    hide Passed, Reacts, ModsAfterToken, CharOf, MeaningOf, ModsAfter;
    MeaningGrows(ts, t);
    var q := Handle(p, t);
    forall i | 0 <= i < NR_CONSOLES
      ensures q.written[i] + Chars(q.input[i]) == MeaningOf(ts + [t]).text[i]
    {
      if Passed(p.mods, t).Some? && Reacts(Passed(p.mods, t).value).PutKey? && i == p.current {
        var k := Reacts(Passed(p.mods, t).value).key;
        assert Chars(q.input[i]) == Chars(p.input[i]) + [CharOf(k)];
      }
    }
  }

  lemma FetchTurn(p: Pipe)
    requires PipeShape(p) && p.kb != []
    ensures var taken := p.taken + [p.kb[0]];
            Turned(p, Fetch) ==
              match Parse(taken)
              case Incomplete => p.(kb := p.kb[1..], taken := taken)
              case Parsed(t, _) => Handle(p.(kb := p.kb[1..]), t)
  {
  }

  lemma OneByteOn(a: seq<bv8>, b: seq<bv8>, c: seq<bv8>)
    requires c != []
    ensures a + b + c == a + (b + [c[0]]) + c[1..] == (a + (b + [c[0]])) + [] + c[1..]
  {
  }

  lemma FetchKeeps(p: Pipe, arrived: seq<bv8>, done: seq<bv8>, ts: seq<Token>)
    returns (done': seq<bv8>, ts': seq<Token>)
    requires OnTheWay(p, arrived, done, ts) && MayTurn(p, Fetch) && !Turned(p, Fetch).lost
    ensures OnTheWay(Turned(p, Fetch), arrived, done', ts')
  {
    hide Parse, Decode, MeaningOf, ModsAfter, Turned, Handle, TextMeans;
    assert Parse([]).Incomplete? by {
      ParseLocal([], []);
    }
    FetchTurn(p);
    var taken := p.taken + [p.kb[0]];
    OneByteOn(done, p.taken, p.kb);
    if Parse(taken).Incomplete? {
      done', ts' := done, ts;
    } else {
      var t := Parse(taken).token;
      done', ts' := done + taken, ts + [t];
      TokenIsWhole(p.taken, p.kb[0]);
      DecodeAppend(done, taken);
      HandleMeans(p.(kb := p.kb[1..]), ts, t);
      DecodeStep([]);
    }
  }

  lemma TurnKeeps(p: Pipe, arrived: seq<bv8>, done: seq<bv8>, ts: seq<Token>, turn: Turn)
    returns (done': seq<bv8>, ts': seq<Token>)
    requires OnTheWay(p, arrived, done, ts) && MayTurn(p, turn) && !Turned(p, turn).lost
    ensures OnTheWay(Turned(p, turn), arrived + Arrived([turn]), done', ts')
  {
    done', ts' := done, ts;
    assert Arrived([turn]) == if turn.Arrive? then [turn.b] else [];
    match turn {
      case Arrive(b) =>
        ArriveKeeps(p, arrived, done, ts, b);
      case Write(t) =>
        WriteKeeps(p, arrived, done, ts, t);
        assert arrived + [] == arrived;
      case Fetch =>
        done', ts' := FetchKeeps(p, arrived, done, ts);
        assert arrived + [] == arrived;
    }
  }

  /** As long as no ring was full, everything that arrived is somewhere on the way. */
  lemma {:induction false} TurnsKeep(p: Pipe, arrived: seq<bv8>, done: seq<bv8>, ts: seq<Token>, turns: seq<Turn>)
    returns (done': seq<bv8>, ts': seq<Token>)
    requires PipeShape(p) && OnTheWay(p, arrived, done, ts) && MayAll(p, turns) && !TurnedBy(p, turns).lost
    ensures OnTheWay(TurnedBy(p, turns), arrived + Arrived(turns), done', ts')
    decreases |turns|
  {
    hide OnTheWay, Turned, MayTurn, Arrived;
    if turns == [] {
      done', ts' := done, ts;
      NoTurns(p);
      assert arrived + [] == arrived;
    } else {
      var q := Turned(p, turns[0]);
      if q.lost {
        LossIsFinal(q, turns[1..]);
      }
      var done1, ts1 := TurnKeeps(p, arrived, done, ts, turns[0]);
      done', ts' := TurnsKeep(q, arrived + Arrived([turns[0]]), done1, ts1, turns[1..]);
      TurnsCompose(p, [turns[0]], turns[1..]);
      assert [turns[0]] + turns[1..] == turns;
      assert (arrived + Arrived([turns[0]])) + Arrived(turns[1..]) == arrived + Arrived(turns);
    }
  }

  lemma NoTurns(p: Pipe)
    requires PipeShape(p)
    ensures MayAll(p, []) && TurnedBy(p, []) == p && Arrived([]) == []
  {
  }

  // ---------------------------------------------------------------- one call of keyboard_read

  lemma OneTurnFirst(p: Pipe, turn: Turn, turns: seq<Turn>)
    requires PipeShape(p) && MayTurn(p, turn) && MayAll(Turned(p, turn), turns)
    ensures MayAll(p, [turn] + turns) && TurnedBy(p, [turn] + turns) == TurnedBy(Turned(p, turn), turns)
    ensures Arrived([turn] + turns) == (if turn.Arrive? then [turn.b] else []) + Arrived(turns)
  {
    assert ([turn] + turns)[1..] == turns;
  }

  lemma OneTurnLast(p: Pipe, turns: seq<Turn>, turn: Turn)
    requires PipeShape(p) && MayAll(p, turns) && MayTurn(TurnedBy(p, turns), turn)
    ensures MayAll(p, turns + [turn]) && TurnedBy(p, turns + [turn]) == Turned(TurnedBy(p, turns), turn)
    ensures Arrived(turns + [turn]) == Arrived(turns) + if turn.Arrive? then [turn.b] else []
  {
    hide Turned, MayTurn;
    var q := TurnedBy(p, turns);
    NoTurns(Turned(q, turn));
    OneTurnFirst(q, turn, []);
    assert [turn] + [] == [turn];
    TurnsCompose(p, turns, [turn]);
  }

  lemma ParseBounds(bs: seq<bv8>, n: nat)
    requires Parse(bs).Parsed? && n <= |bs|
    ensures 0 < Parse(bs).used <= |bs|
    ensures n < Parse(bs).used <==> Parse(bs[..n]).Incomplete?
    ensures n >= Parse(bs).used ==> Parse(bs[..n]) == Parse(bs)
  {
    ParseLocal(bs, []);
    assert bs + [] == bs;
    ParsePrefix(bs, n);
  }

  lemma ArriveTurn(p: Pipe, b: bv8)
    requires PipeShape(p) && p.kb == []
    ensures Turned(p, Arrive(b)) == p.(kb := [b])
  {
  }

  lemma HandleIgnoresTaken(p: Pipe, taken: seq<bv8>, t: Token)
    requires PipeShape(p)
    ensures Handle(p.(taken := taken), t) == Handle(p, t)
  {
  }

  /** The bytes taken so far, in the buffer, and still to arrive hold a token that is not complete yet. */
  ghost predicate CanRead(p: Pipe, more: seq<bv8>) {
    PipeShape(p) && Parse(p.taken).Incomplete? && Parse(p.taken + (p.kb + more)).Parsed?
  }

  /**
   The turns take the rest of one token, with an interrupt whenever the buffer is empty, and
   have the effect that the contract of KeyboardRead describes.
   */
  ghost predicate ReadsToken(p: Pipe, more: seq<bv8>, turns: seq<Turn>)
    requires PipeShape(p)
  {
    var parsed := Parse(p.taken + (p.kb + more));
    && parsed.Parsed? && |p.taken| < parsed.used <= |p.taken| + |p.kb| + |more|
    && var used := parsed.used - |p.taken|;
       && MayAll(p, turns)
       && Arrived(turns) == more[..if used <= |p.kb| then 0 else used - |p.kb|]
       && TurnedBy(p, turns) == Handle(p.(kb := p.kb[Least(used, |p.kb|)..]), parsed.token)
  }

  lemma BetweenCalls(p: Pipe, more: seq<bv8>)
    requires PipeShape(p) && p.taken == [] && Parse(p.kb + more).Parsed?
    ensures CanRead(p, more) && p.taken + (p.kb + more) == p.kb + more
  {
    assert p.taken + (p.kb + more) == p.kb + more;
  }

  lemma ReadAfterArrival(p: Pipe, more: seq<bv8>, rest: seq<Turn>)
    requires CanRead(p, more) && p.kb == [] && more != []
    requires PipeShape(Turned(p, Arrive(more[0]))) && ReadsToken(Turned(p, Arrive(more[0])), more[1..], rest)
    ensures ReadsToken(p, more, [Arrive(more[0])] + rest)
  {
    hide Parse, Handle, TurnedBy, MayAll, Arrived, Turned;
    ArriveTurn(p, more[0]);
    OneTurnFirst(p, Arrive(more[0]), rest);
    var q, all := Turned(p, Arrive(more[0])), p.taken + (p.kb + more);
    assert q.taken + (q.kb + more[1..]) == all;
    var used := Parse(all).used - |p.taken|;
    assert [more[0]] + more[1..][..used - 1] == more[..used];
    assert q.kb[1..] == [] == p.kb[0..];
    assert q.(kb := []) == p.(kb := []);
  }

  lemma ReadAfterFetch(p: Pipe, more: seq<bv8>, rest: seq<Turn>)
    requires CanRead(p, more) && p.kb != []
    requires Parse(p.taken + [p.kb[0]]).Incomplete?
    requires PipeShape(Turned(p, Fetch)) && ReadsToken(Turned(p, Fetch), more, rest)
    ensures ReadsToken(p, more, [Fetch] + rest)
  {
    hide Parse, Handle, TurnedBy, MayAll, Arrived, Turned;
    FetchTurn(p);
    OneTurnFirst(p, Fetch, rest);
    var q, taken := Turned(p, Fetch), p.taken + [p.kb[0]];
    var all := p.taken + (p.kb + more);
    assert q.taken + (q.kb + more) == all;
    var left := p.kb[Least(Parse(all).used - |p.taken|, |p.kb|)..];
    assert q.kb[Least(Parse(all).used - |taken|, |q.kb|)..] == left;
    HandleIgnoresTaken(p.(kb := left), taken, Parse(all).token);
  }

  lemma ReadAtOnce(p: Pipe, more: seq<bv8>)
    requires CanRead(p, more) && p.kb != []
    requires Parse(p.taken + [p.kb[0]]).Parsed?
    ensures ReadsToken(p, more, [Fetch])
  {
    hide Parse, Handle, TurnedBy, MayAll, Arrived, Turned;
    FetchTurn(p);
    NoTurns(Turned(p, Fetch));
    OneTurnFirst(p, Fetch, []);
    assert [Fetch] + [] == [Fetch];
    var all, taken := p.taken + (p.kb + more), p.taken + [p.kb[0]];
    assert all[..|taken|] == taken && all[..|p.taken|] == p.taken;
    ParseBounds(all, |taken|);
    ParseBounds(all, |p.taken|);
  }

  /** One call of keyboard_read is a sequence of turns, one byte at a time. */
  lemma {:induction false} ReadIsTurns(p: Pipe, more: seq<bv8>) returns (turns: seq<Turn>)
    requires CanRead(p, more)
    ensures ReadsToken(p, more, turns)
    decreases |p.kb| + 2 * |more|
  {
    hide Parse, Handle, TurnedBy, MayAll, Arrived, Turned, ReadsToken;
    var all := p.taken + (p.kb + more);
    ParseBounds(all, |p.taken|);
    assert all[..|p.taken|] == p.taken;
    if p.kb == [] {
      assert |more| > 0;
      ArriveTurn(p, more[0]);
      assert p.taken + ([more[0]] + more[1..]) == all;
      var rest := ReadIsTurns(Turned(p, Arrive(more[0])), more[1..]);
      ReadAfterArrival(p, more, rest);
      turns := [Arrive(more[0])] + rest;
    } else if Parse(p.taken + [p.kb[0]]).Parsed? {
      ReadAtOnce(p, more);
      turns := [Fetch];
    } else {
      FetchTurn(p);
      assert (p.taken + [p.kb[0]]) + (p.kb[1..] + more) == all;
      var rest := ReadIsTurns(Turned(p, Fetch), more);
      ReadAfterFetch(p, more, rest);
      turns := [Fetch] + rest;
    }
  }

  // ---------------------------------------------------------------- what is on the screen

  /** What was written to a console is the echo of what was taken out of its input buffer. */
  ghost predicate ScreenIsEcho(p: Pipe)
    requires PipeShape(p)
  {
    forall t :: 0 <= t < NR_CONSOLES ==> TextOn(p.screen, t) == EchoAll(p.written[t])
  }

  lemma HandleEcho(p: Pipe, t: Token)
    requires PipeShape(p) && ScreenIsEcho(p)
    ensures PipeShape(Handle(p, t)) && ScreenIsEcho(Handle(p, t))
  {
    hide Passed, Reacts, ModsAfterToken;
    var q := Handle(p, t);
    forall i | 0 <= i < NR_CONSOLES ensures TextOn(q.screen, i) == EchoAll(q.written[i]) {
      if q.screen != p.screen {
        assert q.screen[..|p.screen|] == p.screen;
        assert TextOn(q.screen, i) == TextOn(p.screen, i) + [];
      }
    }
  }

  lemma TurnEcho(p: Pipe, turn: Turn)
    requires PipeShape(p) && MayTurn(p, turn) && ScreenIsEcho(p)
    ensures ScreenIsEcho(Turned(p, turn))
  {
    hide Passed, Reacts, Parse, ModsAfterToken, CharOf;
    var q := Turned(p, turn);
    match turn
    case Arrive(_) =>
    case Fetch =>
      var taken := p.taken + [p.kb[0]];
      if Parse(taken).Parsed? {
        HandleEcho(p.(kb := p.kb[1..], taken := taken), Parse(taken).token);
      }
    case Write(t) =>
      if p.input[t] != [] {
        var ch := CharOf(p.input[t][0]);
        forall i | 0 <= i < NR_CONSOLES ensures TextOn(q.screen, i) == EchoAll(q.written[i]) {
          TextOnMore(p.screen, EchoEvents(t, ch), i);
          EchoText(t, ch, i);
          assert (p.written[t] + [ch])[..|p.written[t]|] == p.written[t];
          assert TextOn(p.screen, i) + [] == TextOn(p.screen, i);
        }
      }
  }

  lemma {:induction false} TurnsEcho(p: Pipe, turns: seq<Turn>)
    requires PipeShape(p) && MayAll(p, turns) && ScreenIsEcho(p)
    ensures ScreenIsEcho(TurnedBy(p, turns))
    decreases |turns|
  {
    hide Turned, ScreenIsEcho, MayTurn;
    if turns != [] {
      TurnEcho(p, turns[0]);
      TurnsEcho(Turned(p, turns[0]), turns[1..]);
    }
  }

  /**
   In any interleaving in which no console was full, every console looks as if just the echo of
   what was taken out of its input buffer had been written to it.
   */
  lemma WrittenTextIsSeen(turns: seq<Turn>, d: Desk, t: nat)
    requires MayAll(EMPTY_PIPE, turns) && DeskOk(d) && AllSharesApart(d) && t < NR_CONSOLES
    requires NeverFull(d, TurnedBy(EMPTY_PIPE, turns).screen)
    ensures var p := TurnedBy(EMPTY_PIPE, turns);
            LooksLike(d, DeskAfter(d, p.screen), t, EchoAll(p.written[t]))
  {
    TurnsEcho(EMPTY_PIPE, turns);
    EachConsoleIsAlone(d, TurnedBy(EMPTY_PIPE, turns).screen, t);
  }

  // ---------------------------------------------------------------- end to end

  /** Typing on only appends. */
  lemma {:induction false} TextGrows(ts: seq<Token>, n: nat, t: nat)
    requires n <= |ts| && t < NR_CONSOLES
    ensures MeaningOf(ts[..n]).text[t] <= MeaningOf(ts).text[t]
    decreases |ts|
  {
    hide Passed, Reacts, ModsAfter;
    if n == |ts| {
      assert ts[..n] == ts;
    } else {
      var us := ts[..|ts| - 1];
      assert us[..n] == ts[..n];
      TextGrows(us, n, t);
    }
  }

  /** What was handled is the beginning of what was encoded, and all of it when nothing is left. */
  lemma HandledTokens(done: seq<bv8>, left: seq<bv8>, ts: seq<Token>, es: seq<KeyEvent>)
    requires Decode(done) == (ts, []) && done + left <= EncodeAll(es)
    requires forall e :: e in es ==> InSet(e)
    ensures ts <= TokensOf(es)
    ensures done + left == EncodeAll(es) && Parse(left).Incomplete? ==> ts == TokensOf(es)
  {
    hide Parse, Decode, InSet, Encode;
    var arrived, all := done + left, EncodeAll(es);
    DecodeAppend(done, left);
    DecodeMonotone(arrived, all[|arrived|..]);
    assert arrived + all[|arrived|..] == all;
    DecodeEncode(es, []);
    DecodeStep([]);
    assert Parse([]).Incomplete? by { ParseLocal([], []); }
    assert all + [] == all && TokensOf(es) + [] == TokensOf(es);
    DecodeStep(left);
    assert ts + [] == ts;
  }

  /**
   In any interleaving in which no ring was full, and whatever part of the events has arrived,
   a terminal has written a prefix of what the keys mean; once everything arrived and was read,
   it has written exactly that.
   */
  lemma TypedTextArrives(turns: seq<Turn>, es: seq<KeyEvent>, t: nat)
    requires MayAll(EMPTY_PIPE, turns) && !TurnedBy(EMPTY_PIPE, turns).lost && t < NR_CONSOLES
    requires forall e :: e in es ==> InSet(e)
    requires Arrived(turns) <= EncodeAll(es)
    ensures var p := TurnedBy(EMPTY_PIPE, turns);
            && p.written[t] <= MeaningOf(TokensOf(es)).text[t]
            && (Arrived(turns) == EncodeAll(es) && p.kb == [] && p.input[t] == [] ==>
                  p.written[t] == MeaningOf(TokensOf(es)).text[t])
  {
    hide OnTheWay, TurnedBy, MayAll, Arrived, MeaningOf;
    EmptyOnTheWay();
    var done, ts := TurnsKeep(EMPTY_PIPE, [], [], [], turns);
    assert [] + Arrived(turns) == Arrived(turns);
    OnTheWayText(TurnedBy(EMPTY_PIPE, turns), Arrived(turns), done, ts, es, t);
  }

  lemma OnTheWayText(p: Pipe, arrived: seq<bv8>, done: seq<bv8>, ts: seq<Token>, es: seq<KeyEvent>, t: nat)
    requires PipeShape(p) && OnTheWay(p, arrived, done, ts) && arrived <= EncodeAll(es) && t < NR_CONSOLES
    requires forall e :: e in es ==> InSet(e)
    ensures p.written[t] <= MeaningOf(TokensOf(es)).text[t]
    ensures arrived == EncodeAll(es) && p.kb == [] && p.input[t] == [] ==>
              p.written[t] == MeaningOf(TokensOf(es)).text[t]
  {
    hide Decode, Parse, InSet, Encode, MeaningOf;
    assert arrived == done + (p.taken + p.kb);
    HandledTokens(done, p.taken + p.kb, ts, es);
    TextGrows(TokensOf(es), |ts|, t);
    assert TokensOf(es)[..|ts|] == ts;
    assert p.written[t] + Chars(p.input[t]) == MeaningOf(ts).text[t];
    assert p.kb == [] ==> p.taken + p.kb == p.taken;
  }

  lemma EmptyOnTheWay()
    ensures OnTheWay(EMPTY_PIPE, [], [], [])
  {
    DecodeStep([]);
  }

  lemma {:induction false} CurrentExists(ts: seq<Token>)
    ensures MeaningOf(ts).current < NR_CONSOLES
  {
    hide Passed, Reacts, ModsAfter;
    if ts != [] {
      CurrentExists(ts[..|ts| - 1]);
    }
  }

  /** A key whose entry in the present column of the keymap is a character types that character. */
  lemma PrintableKey(ts: seq<Token>, code: bv8, prefixed: bool)
    requires Keymap(code, ColumnFor(ModsAfter(ts), code, prefixed)) < 0x100
    ensures MeaningOf(ts).current < NR_CONSOLES
    ensures var key, w := Keymap(code, ColumnFor(ModsAfter(ts), code, prefixed)), MeaningOf(ts);
            MeaningOf(ts + [Key(code, prefixed, true)]) ==
              w.(text := w.text[w.current := w.text[w.current] + [key as bv8]])
    ensures MeaningOf(ts + [Key(code, prefixed, false)]) == MeaningOf(ts)
  {
    var m := ModsAfter(ts);
    var key := Keymap(code, ColumnFor(m, code, prefixed));
    CurrentExists(ts);
    assert (ts + [Key(code, prefixed, true)])[..|ts|] == ts;
    assert (ts + [Key(code, prefixed, false)])[..|ts|] == ts;
    assert key & FLAG_EXT == 0 && !IsPad(key);
    FlagsVanish(key, ModsAfterToken(m, Key(code, prefixed, true)), false);
  }
}
