/**
 keyboard_handler, get_byte_from_kbuf and keyboard_read of kernel/keyboard.c, and in_process,
 put_key, tty_do_read and tty_do_write of kernel/tty.c, on their ring buffers and flags.
 */
module KeyboardCode {
  import opened Options
  import opened Rings
  import opened KeyCodes
  import opened ScanCodes
  import opened KeyMeaning
  import Consoles

  const KB_IN_BYTES: nat := 32

  /** kb_in and the keyboard device behind it. */
  class Keyboard {
    const kbIn: Ring<bv8>

    /** Which modifier keys are down, and the locks. */
    var shiftL: bool
    var shiftR: bool
    var ctrlL: bool
    var ctrlR: bool
    var altL: bool
    var altR: bool
    var capsLock: bool
    var numLock: bool
    var scrollLock: bool

    /** The bytes the device will still deliver; each interrupt hands over the first of them. */
    var wire: seq<bv8>

    ghost predicate Valid()
      reads this, kbIn
    {
      kbIn.Valid()
    }

    ghost function ModsOf(): Mods
      reads this
    {
      Mods(shiftL, shiftR, ctrlL, ctrlR, altL, altR, capsLock, numLock, scrollLock)
    }

    /** Everything keyboard_read can get hold of: what has arrived and what will arrive. */
    ghost function Supply(): seq<bv8>
      requires Valid()
      reads this, kbIn, kbIn.buf
    {
      kbIn.Contents() + wire
    }

    constructor (wire: seq<bv8>)
      ensures Valid() && fresh(kbIn) && fresh(kbIn.buf) && kbIn.buf.Length == KB_IN_BYTES
      ensures kbIn.Contents() == [] && this.wire == wire && ModsOf() == INITIAL_MODS
    {
      shiftL, shiftR, ctrlL, ctrlR, altL, altR := false, false, false, false, false, false;
      capsLock, numLock, scrollLock := false, true, false;
      var ring := new Ring<bv8>(KB_IN_BYTES);
      kbIn, this.wire := ring, wire;
    }

    /** keyboard_handler: a byte that finds the buffer full is lost. */
    method KeyboardHandler()
      requires Valid() && wire != []
      modifies this`wire, kbIn`head, kbIn`count, kbIn.buf
      ensures Valid() && wire == old(wire)[1..]
      ensures kbIn.Contents() == Offer(old(kbIn.Contents()), old(wire)[0], kbIn.buf.Length)
      ensures old(|kbIn.Contents()|) < kbIn.buf.Length ==> Supply() == old(Supply())
    {
      var scanCode := wire[0];
      wire := wire[1..];
      kbIn.Put(scanCode);
    }

    /** get_byte_from_kbuf: wait for interrupts until there is a byte. */
    method GetByte() returns (scanCode: bv8)
      requires Valid() && kbIn.buf.Length > 0 && Supply() != []
      modifies this`wire, kbIn, kbIn.buf
      ensures Valid() && [scanCode] + Supply() == old(Supply())
      ensures |wire| == Least(old(|wire|), |Supply()|)
    {
      while kbIn.count == 0
        invariant Valid() && Supply() == old(Supply())
        invariant wire == old(wire) || (kbIn.count == 1 && |wire| == |Supply()| - 1 < |old(wire)|)
        decreases |wire|
      {
        KeyboardHandler();
      }
      scanCode := kbIn.Take();
    }

    /** get_byte_from_kbuf again, as byte `i` of the supply `bs`. */
    method NextByte(ghost bs: seq<bv8>, ghost i: nat) returns (b: bv8)
      requires Valid() && kbIn.buf.Length > 0 && i < |bs| && Supply() == bs[i..]
      modifies this`wire, kbIn, kbIn.buf
      ensures Valid() && b == bs[i] && Supply() == bs[i + 1..]
      ensures |wire| == Least(old(|wire|), |bs| - i - 1)
    {
      assert bs[i..] == [bs[i]] + bs[i + 1..];
      b := GetByte();
      assert Supply() == ([b] + Supply())[1..];
    }

    /** Behind E1: whether the rest of the code of Pause follows. */
    method ReadPause(ghost bs: seq<bv8>) returns (isPause: bool, ghost used: nat)
      requires Valid() && kbIn.buf.Length > 0 && bs != [] && Supply() == bs[1..]
      requires ParsePause(bs, 1).Parsed?
      modifies this`wire, kbIn, kbIn.buf
      ensures Valid() && 2 <= used <= |bs| && Supply() == bs[used..]
      ensures |wire| == Least(old(|wire|), |bs| - used)
      ensures ParsePause(bs, 1) == Parsed(if isPause then NoKey else KeyOf(0xE1, false), used)
    {
      isPause := true;
      var i := 1;
      while i < 6
        invariant Valid() && 1 <= i <= 6 && i <= |bs| && isPause
        invariant Supply() == bs[i..] && ParsePause(bs, 1) == ParsePause(bs, i)
        invariant |wire| == Least(old(|wire|), |bs| - i)
      {
        var b := NextByte(bs, i);
        if b != PAUSE_CODE[i] {
          isPause := false;
          used := i + 1;
          return;
        }
        i := i + 1;
      }
      used := i;
    }

    /** Behind E0 and the first byte of a code of PrintScreen: whether the rest follows. */
    method ReadPrintScreen(last: bv8, ghost bs: seq<bv8>) returns (isPrintScreen: bool, ghost used: nat)
      requires Valid() && kbIn.buf.Length > 0 && |bs| >= 2 && Supply() == bs[2..]
      requires ParsePrintScreen(bs, last).Parsed?
      modifies this`wire, kbIn, kbIn.buf
      ensures Valid() && 2 <= used <= |bs| && Supply() == bs[used..]
      ensures |wire| == Least(old(|wire|), |bs| - used)
      ensures ParsePrintScreen(bs, last) == Parsed(if isPrintScreen then NoKey else KeyOf(bs[1], true), used)
    {
      isPrintScreen, used := false, 3;
      var b := NextByte(bs, 2);
      if b == 0xE0 {
        b := NextByte(bs, 3);
        isPrintScreen, used := b == last, 4;
      }
    }

    /** Behind E0: the key, or the rest of a code of PrintScreen. */
    method ReadPrefixed(ghost bs: seq<bv8>) returns (scanCode: bv8, special: bool, ghost used: nat)
      requires Valid() && kbIn.buf.Length > 0 && bs != [] && Supply() == bs[1..]
      requires ParsePrefixed(bs).Parsed?
      modifies this`wire, kbIn, kbIn.buf
      ensures Valid() && 2 <= used <= |bs| && Supply() == bs[used..]
      ensures |wire| == Least(old(|wire|), |bs| - used)
      ensures ParsePrefixed(bs) == Parsed(if special then NoKey else KeyOf(scanCode, true), used)
    {
      hide ParsePrintScreen;
      special, used := false, 2;
      scanCode := NextByte(bs, 1);
      if scanCode == 0x2A {
        special, used := ReadPrintScreen(0x37, bs);
      }
      if scanCode == 0xB7 {
        special, used := ReadPrintScreen(0xAA, bs);
      }
    }

    /** The first half of keyboard_read: take the bytes of one key, or of PrintScreen or Pause. */
    method ReadScanCode() returns (scanCode: bv8, withE0: bool, special: bool, ghost used: nat)
      requires Valid() && kbIn.buf.Length > 0 && Parse(Supply()).Parsed?
      modifies this`wire, kbIn, kbIn.buf
      ensures Valid() && used <= |old(Supply())| && Supply() == old(Supply())[used..]
      ensures |wire| == Least(old(|wire|), |Supply()|)
      ensures Parse(old(Supply())) == Parsed(if special then NoKey else KeyOf(scanCode, withE0), used)
    {
      hide ParsePrefixed, ParsePause;
      ghost var bs := Supply();
      assert bs == bs[0..];
      withE0, special, used := false, false, 1;
      scanCode := NextByte(bs, 0);
      if scanCode == 0xE1 {
        special, used := ReadPause(bs);
      } else if scanCode == 0xE0 {
        scanCode, special, used := ReadPrefixed(bs);
        withE0 := !special;
      }
    }

    /** The key of the keymap that a scan code stands for at present. */
    method LookUp(scanCode: bv8, withE0: bool) returns (key: bv32)
      ensures key == Keymap(scanCode & 0x7F, ColumnFor(ModsOf(), scanCode & 0x7F, withE0))
    {
      hide Row;
      var row := Row(scanCode & 0x7F);
      var caps := shiftL || shiftR;
      if capsLock {
        if row.0 >= 0x61 && row.0 <= 0x7A {
          caps := !caps;
        }
      }
      key := row.0;
      if caps {
        key := row.1;
      }
      if withE0 {
        key := row.2;
      }
    }

    /** The keys that count as long as they are held. */
    method RecordHeld(key: bv32, make: bool)
      requires key != CAPS_LOCK && key != NUM_LOCK && key != SCROLL_LOCK
      modifies this`shiftL, this`shiftR, this`ctrlL, this`ctrlR, this`altL
      ensures ModsOf() == Held(old(ModsOf()), key, make)
    {
      if key == SHIFT_L {
        shiftL := make;
      } else if key == SHIFT_R {
        shiftR := make;
      } else if key == CTRL_L {
        ctrlL := make;
      } else if key == CTRL_R {
        ctrlR := make;
      } else if key == ALT_L {
        altL := make;
      } else if key == ALT_R {
        altL := make;
      }
    }

    /** The keys that change something whenever they go down. */
    method RecordLock(key: bv32, make: bool)
      requires key == CAPS_LOCK || key == NUM_LOCK || key == SCROLL_LOCK
      modifies this`capsLock, this`numLock, this`scrollLock
      ensures ModsOf() == Held(old(ModsOf()), key, make)
    {
      if make {
        if key == CAPS_LOCK {
          capsLock := !capsLock;
        } else if key == NUM_LOCK {
          numLock := !numLock;
        } else {
          scrollLock := !scrollLock;
        }
      }
    }

    /** The switch of keyboard_read that records the modifiers. */
    method Record(key: bv32, make: bool)
      modifies this`shiftL, this`shiftR, this`ctrlL, this`ctrlR, this`altL,
               this`capsLock, this`numLock, this`scrollLock
      ensures ModsOf() == Held(old(ModsOf()), key, make)
    {
      hide Held;
      if key == CAPS_LOCK || key == NUM_LOCK || key == SCROLL_LOCK {
        RecordLock(key, make);
      } else {
        RecordHeld(key, make);
      }
    }

    /** The numeric pad. */
    method FromPad(key: bv32) returns (meant: bv32)
      requires IsPad(key)
      ensures meant == PadMeaning(key, numLock)
    {
      meant := key;
      if key == PAD_SLASH {
        meant := 0x2F;
      } else if key == PAD_STAR {
        meant := 0x2A;
      } else if key == PAD_MINUS {
        meant := 0x2D;
      } else if key == PAD_PLUS {
        meant := 0x2B;
      } else if key == PAD_ENTER {
        meant := ENTER;
      } else if numLock && PAD_0 <= key <= PAD_9 {
        meant := key - PAD_0 + 0x30;
      } else if numLock && key == PAD_DOT {
        meant := 0x2E;
      } else {
        match key
        case 0x139 => meant := HOME;
        case 0x133 => meant := END;
        case 0x13B => meant := PAGEUP;
        case 0x135 => meant := PAGEDOWN;
        case 0x132 => meant := INSERT;
        case 0x13A => meant := UP;
        case 0x134 => meant := DOWN;
        case 0x136 => meant := LEFT;
        case 0x138 => meant := RIGHT;
        case 0x131 => meant := DELETE;
        case _ =>
      }
    }

    /** The flags that keyboard_read adds to a key. */
    method AddFlags(raw: bv32, pad: bool) returns (key: bv32)
      ensures key == WithFlags(raw, ModsOf(), pad)
    {
      hide OrIf;
      key := raw;
      key := OrIf(key, shiftL, FLAG_SHIFT_L);
      key := OrIf(key, shiftR, FLAG_SHIFT_R);
      key := OrIf(key, ctrlL, FLAG_CTRL_L);
      key := OrIf(key, ctrlR, FLAG_CTRL_R);
      key := OrIf(key, altL, FLAG_ALT_L);
      key := OrIf(key, altR, FLAG_ALT_R);
      key := OrIf(key, pad, FLAG_PAD);
    }

    /** The second half of keyboard_read, up to the call of in_process. */
    method Translate(scanCode: bv8, withE0: bool) returns (key: bv32, make: bool)
      modifies this`shiftL, this`shiftR, this`ctrlL, this`ctrlR, this`altL,
               this`capsLock, this`numLock, this`scrollLock
      ensures ModsOf() == ModsAfterToken(old(ModsOf()), KeyOf(scanCode, withE0))
      ensures Passed(old(ModsOf()), KeyOf(scanCode, withE0)) == if make then Some(key) else None
    {
      hide Keymap, ColumnFor, Held, PadMeaning, WithFlags;
      make := scanCode & FLAG_BREAK == 0;
      key := LookUp(scanCode, withE0);
      Record(key, make);
      if make {
        var pad := IsPad(key);
        if pad {
          key := FromPad(key);
        }
        key := AddFlags(key, pad);
      }
    }
  }
}
