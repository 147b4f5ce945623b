/** The terminals of kernel/tty.c: key dispatch, input buffers, and the polling task. */
module TerminalCode {
  import opened Options
  import opened Rings
  import opened KeyCodes
  import opened ScanCodes
  import opened KeyMeaning
  import opened KeyboardCode
  import opened Consoles
  import opened Displays

  const TTY_IN_BYTES: nat := 256

  /** What in_process can change: the input buffer and window of a terminal, and who is shown. */
  datatype Screen = Screen(pending: seq<bv32>, view: View, current: nat)

  /** select_console ignores the numbers of consoles that do not exist. */
  ghost function Selected(current: nat, nr: nat): nat {
    if nr < NR_CONSOLES then nr else current
  }

  ghost function Reacted(s: Screen, key: bv32): Screen
    requires ViewOk(s.view)
  {
    match Reacts(key)
    case PutKey(k) => s.(pending := Offer(s.pending, k, TTY_IN_BYTES))
    case Scroll(direction) => s.(view := Scrolled(s.view, direction))
    case Select(nr) => s.(current := Selected(s.current, nr))
    case Ignore => s
  }

  class Tty {
    const inBuf: Ring<bv32>
    const console: Console

    /** What DoWrite has taken out of the buffer so far. */
    ghost var written: seq<bv8>

    ghost predicate Valid()
      reads this, inBuf, console
    {
      inBuf.Valid() && inBuf.buf.Length == TTY_IN_BYTES && console.Valid()
    }

    ghost function Pending(): seq<bv32>
      requires Valid()
      reads this, inBuf, inBuf.buf, console
    {
      inBuf.Contents()
    }

    constructor (console: Console)
      requires console.Valid()
      ensures Valid() && fresh(inBuf) && fresh(inBuf.buf) && this.console == console
      ensures Pending() == [] && written == []
    {
      var ring := new Ring<bv32>(TTY_IN_BYTES);
      inBuf, this.console, written := ring, console, [];
    }

    /** put_key */
    method PutKey(key: bv32)
      requires Valid()
      modifies inBuf, inBuf.buf
      ensures Valid() && Pending() == Offer(old(Pending()), key, TTY_IN_BYTES)
    {
      inBuf.Put(key);
    }

    /** tty_do_write */
    method DoWrite()
      requires Valid()
      modifies this`written, inBuf, console, console.video
      ensures Valid()
      ensures old(Pending()) == [] ==>
                && Pending() == [] && written == old(written)
                && console.ViewOf() == old(console.ViewOf()) && console.video[..] == old(console.video[..])
      ensures old(Pending()) != [] ==>
                && Pending() == old(Pending())[1..]
                && written == old(written) + [CharOf(old(Pending())[0])]
                && console.ViewOf() == WrittenAll(old(console.ViewOf()), Echo(CharOf(old(Pending())[0])))
                && console.video[..] ==
                     DrawnAll(old(console.video[..]), old(console.ViewOf()), Echo(CharOf(old(Pending())[0])))
    {
      hide ViewOk, Written, Drawn, WrittenAll, DrawnAll, Echo;
      if inBuf.count != 0 {
        var key := inBuf.Take();
        var ch := CharOf(key);
        written := written + [ch];
        EchoWritten(console.video[..], console.ViewOf(), ch);
        console.OutChar(ch);
        if ch == NEWLINE {
          console.OutChar(PROMPT);
        }
      }
    }
  }

  /** Two terminals share nothing but video memory. */
  ghost predicate Apart(s: Tty, t: Tty) {
    s.inBuf != t.inBuf && s.inBuf.buf != t.inBuf.buf && s.console != t.console
  }

  ghost predicate AllApart(ttys: seq<Tty>) {
    forall i, j :: 0 <= i < j < |ttys| ==> Apart(ttys[i], ttys[j])
  }

  lemma ThreeApart(a: Tty, b: Tty, c: Tty)
    requires Apart(a, b) && Apart(a, c) && Apart(b, c)
    ensures AllApart([a, b, c])
  {
    hide Apart;
  }

  /** init_tty, without the banner that init_screen prints. */
  method InitTty(video: array<bv8>, nr: nat, bootCursor: nat) returns (t: Tty)
    requires video.Length == V_MEM_CELLS && nr < NR_CONSOLES && bootCursor < V_MEM_CELLS / NR_CONSOLES
    ensures t.Valid() && t.Pending() == [] && t.written == []
    ensures t.console.original == nr * t.console.limit && t.console.limit == V_MEM_CELLS / NR_CONSOLES
    ensures fresh(t) && fresh(t.inBuf) && fresh(t.inBuf.buf) && fresh(t.console) && t.console.video == video
  {
    var console := new Console(video, nr, bootCursor);
    t := new Tty(console);
  }

  /** Consoles that begin one after the other make up a desk whose shares do not overlap. */
  lemma ThreeViews(a: Tty, b: Tty, c: Tty, cells: seq<bv8>)
    requires a.Valid() && b.Valid() && c.Valid() && |cells| == V_MEM_CELLS
    requires a.console.limit == b.console.limit == c.console.limit == V_MEM_CELLS / NR_CONSOLES
    requires a.console.original == 0 && b.console.original == V_MEM_CELLS / NR_CONSOLES
    requires c.console.original == 2 * (V_MEM_CELLS / NR_CONSOLES)
    ensures var d := Desk([a.console.ViewOf(), b.console.ViewOf(), c.console.ViewOf()], cells);
            DeskOk(d) && AllSharesApart(d)
  {
    hide ViewOk;
  }

  /** The terminals of tty_table, which share video memory, and what their consoles look like. */
  method InitTtys(video: array<bv8>, bootCursor: nat) returns (ttys: seq<Tty>, ghost desk: Desk)
    requires video.Length == V_MEM_CELLS && bootCursor < V_MEM_CELLS / NR_CONSOLES
    ensures |ttys| == NR_CONSOLES && AllApart(ttys)
    ensures forall i :: 0 <= i < |ttys| ==> ttys[i].Valid() && ttys[i].Pending() == [] && ttys[i].written == []
    ensures forall i :: 0 <= i < |ttys| ==> ttys[i].console.video == video
    ensures DeskOk(desk) && AllSharesApart(desk) && desk.cells == video[..]
    ensures forall i :: 0 <= i < |ttys| ==> ttys[i].console.ViewOf() == desk.views[i]
  {
    hide ViewOk, Tty.Valid, Tty.Pending, AllApart, DeskOk, AllSharesApart;
    var tty0 := InitTty(video, 0, bootCursor);
    var tty1 := InitTty(video, 1, bootCursor);
    var tty2 := InitTty(video, 2, bootCursor);
    ThreeApart(tty0, tty1, tty2);
    ThreeViews(tty0, tty1, tty2, video[..]);
    ttys := [tty0, tty1, tty2];
    desk := Desk([tty0.console.ViewOf(), tty1.console.ViewOf(), tty2.console.ViewOf()], video[..]);
  }

  /** tty_table, nr_current_console, and the keyboard they share. */
  class Terminals {
    const keyboard: Keyboard
    const ttys: seq<Tty>
    const video: array<bv8>
    var nrCurrent: nat

    /** What the consoles look like at the start. */
    ghost const desk0: Desk

    /** The set-up part of task_tty. */
    constructor (wire: seq<bv8>, bootCursor: nat)
      requires bootCursor < V_MEM_CELLS / NR_CONSOLES
      ensures keyboard.Valid() && keyboard.kbIn.buf.Length == KB_IN_BYTES
      ensures keyboard.Supply() == wire && keyboard.kbIn.count == 0 && keyboard.ModsOf() == INITIAL_MODS
      ensures |ttys| == NR_CONSOLES && nrCurrent == 0
      ensures forall i :: 0 <= i < |ttys| ==> ttys[i].Valid() && ttys[i].Pending() == [] && ttys[i].written == []
      ensures AllApart(ttys) && video != keyboard.kbIn.buf && fresh(video)
      ensures forall i :: 0 <= i < |ttys| ==> ttys[i].console.video == video
      ensures DeskOk(desk0) && AllSharesApart(desk0) && desk0.cells == video[..]
      ensures forall i :: 0 <= i < |ttys| ==> ttys[i].console.ViewOf() == desk0.views[i]
    {
      hide ViewOk, Tty.Valid, Tty.Pending, AllApart, DeskOk, AllSharesApart;
      var v := new bv8[V_MEM_CELLS];
      var all, desk := InitTtys(v, bootCursor);
      var kb := new Keyboard(wire);
      keyboard, ttys, video, nrCurrent, desk0 := kb, all, v, 0, desk;
    }

    ghost function ScreenOf(t: Tty): Screen
      requires t.Valid()
      reads this, t, t.inBuf, t.inBuf.buf, t.console
    {
      Screen(t.Pending(), t.console.ViewOf(), nrCurrent)
    }

    /** select_console, without the registers of the display. */
    method SelectConsole(nr: int)
      requires nr >= 0
      modifies this`nrCurrent
      ensures nrCurrent == Selected(old(nrCurrent), nr)
    {
      if nr < 0 || nr >= NR_CONSOLES {
        return;
      }
      nrCurrent := nr;
    }

    /** in_process */
    method InProcess(t: Tty, key: bv32)
      requires t.Valid()
      modifies this`nrCurrent, t.inBuf, t.inBuf.buf, t.console`start
      ensures t.Valid() && ScreenOf(t) == Reacted(old(ScreenOf(t)), key)
    {
      if key & FLAG_EXT == 0 {
        t.PutKey(key);
      } else {
        var raw := key & MASK_RAW;
        if raw == ENTER {
          t.PutKey(0x0A);
        } else if raw == BACKSPACE {
          t.PutKey(0x08);
        } else if raw == UP {
          if key & FLAG_SHIFT_L != 0 || key & FLAG_SHIFT_R != 0 {
            t.console.ScrollScreen(SCR_DN);
          }
        } else if raw == DOWN {
          if key & FLAG_SHIFT_L != 0 || key & FLAG_SHIFT_R != 0 {
            t.console.ScrollScreen(SCR_UP);
          }
        } else if F1 <= raw <= F12 {
          SelectConsole((raw - F1) as nat);
        }
      }
    }

    /** keyboard_read: nothing, or the effect of exactly one token of the bytes at hand. */
    method KeyboardRead(t: Tty) returns (ghost used: nat)
      requires t.Valid() && keyboard.Valid() && keyboard.kbIn.buf.Length == KB_IN_BYTES
      requires keyboard.kbIn.count > 0 ==> Parse(keyboard.Supply()).Parsed?
      modifies this`nrCurrent, t.inBuf, t.inBuf.buf, t.console`start,
               keyboard, keyboard.kbIn, keyboard.kbIn.buf
      ensures t.Valid() && keyboard.Valid()
      ensures used == if old(keyboard.kbIn.count) == 0 then 0 else Parse(old(keyboard.Supply())).used
      ensures used <= |old(keyboard.Supply())| && keyboard.Supply() == old(keyboard.Supply())[used..]
      ensures |keyboard.wire| == Least(old(|keyboard.wire|), |keyboard.Supply()|)
      ensures used == 0 ==> keyboard.ModsOf() == old(keyboard.ModsOf()) && ScreenOf(t) == old(ScreenOf(t))
      ensures used > 0 ==>
                var token := Parse(old(keyboard.Supply())).token;
                && keyboard.ModsOf() == ModsAfterToken(old(keyboard.ModsOf()), token)
                && ScreenOf(t) == match Passed(old(keyboard.ModsOf()), token)
                                  case None => old(ScreenOf(t))
                                  case Some(key) => Reacted(old(ScreenOf(t)), key)
    {
      hide Parse, ModsAfterToken, Passed, Reacts, Scrolled;
      used := 0;
      if keyboard.kbIn.count > 0 {
        ParseLocal(keyboard.Supply(), []);
        assert keyboard.Supply() + [] == keyboard.Supply();
        var scanCode, withE0, special;
        scanCode, withE0, special, used := keyboard.ReadScanCode();
        if special {
          NoKeyMovesNothing(keyboard.ModsOf());
        } else {
          var key, make := keyboard.Translate(scanCode, withE0);
          if make {
            InProcess(t, key);
          }
        }
      }
    }
  }
}
