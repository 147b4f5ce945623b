/**
 What keyboard_read (kernel/keyboard.c) and in_process (kernel/tty.c) make of a key: the state
 of the modifiers, the key value that is passed on, and what the terminal does with it.
 */
module KeyMeaning {
  import opened Options
  import opened KeyCodes
  import opened ScanCodes
  import Consoles

  /** The static flags of kernel/keyboard.c. */
  datatype Mods = Mods(shiftL: bool, shiftR: bool, ctrlL: bool, ctrlR: bool, altL: bool, altR: bool,
                       caps: bool, num: bool, scroll: bool)

  /** init_keyboard */
  const INITIAL_MODS := Mods(false, false, false, false, false, false, false, true, false)

  predicate IsLetter(key: bv32) {
    0x61 <= key <= 0x7A
  }

  function Unprefixed(m: Mods, code: bv8): Column {
    if (m.shiftL || m.shiftR) != (m.caps && IsLetter(Row(code).0)) then Shifted else Unshifted
  }

  function ColumnFor(m: Mods, code: bv8, prefixed: bool): Column {
    if prefixed then Prefixed else Unprefixed(m, code)
  }

  /** The modifiers after `key` went down or up. The right Alt key is recorded as the left one. */
  function Held(m: Mods, key: bv32, make: bool): Mods {
    if key == SHIFT_L then m.(shiftL := make)
    else if key == SHIFT_R then m.(shiftR := make)
    else if key == CTRL_L then m.(ctrlL := make)
    else if key == CTRL_R then m.(ctrlR := make)
    else if key == ALT_L || key == ALT_R then m.(altL := make)
    else if key == CAPS_LOCK then m.(caps := m.caps != make)
    else if key == NUM_LOCK then m.(num := m.num != make)
    else if key == SCROLL_LOCK then m.(scroll := m.scroll != make)
    else m
  }

  predicate IsPad(key: bv32) {
    PAD_SLASH <= key <= PAD_9
  }

  /** The keys of the numeric pad are digits or cursor keys, depending on NumLock. */
  function PadMeaning(key: bv32, num: bool): bv32
    requires IsPad(key)
  {
    if key == PAD_SLASH then 0x2F
    else if key == PAD_STAR then 0x2A
    else if key == PAD_MINUS then 0x2D
    else if key == PAD_PLUS then 0x2B
    else if key == PAD_ENTER then ENTER
    else if num then (if key == PAD_DOT then 0x2E else key - PAD_0 + 0x30)
    else if key == PAD_7 then HOME
    else if key == PAD_1 then END
    else if key == PAD_9 then PAGEUP
    else if key == PAD_3 then PAGEDOWN
    else if key == PAD_0 then INSERT
    else if key == PAD_8 then UP
    else if key == PAD_2 then DOWN
    else if key == PAD_4 then LEFT
    else if key == PAD_6 then RIGHT
    else if key == PAD_DOT then DELETE
    else key
  }

  function OrIf(key: bv32, b: bool, flag: bv32): bv32 {
    if b then key | flag else key
  }

  /** A key value together with the modifiers. */
  function WithFlags(key: bv32, m: Mods, pad: bool): bv32 {
    var shift := OrIf(OrIf(key, m.shiftL, FLAG_SHIFT_L), m.shiftR, FLAG_SHIFT_R);
    var ctrl := OrIf(OrIf(shift, m.ctrlL, FLAG_CTRL_L), m.ctrlR, FLAG_CTRL_R);
    var alt := OrIf(OrIf(ctrl, m.altL, FLAG_ALT_L), m.altR, FLAG_ALT_R);
    OrIf(alt, pad, FLAG_PAD)
  }

  /** The modifiers after a token. */
  function ModsAfterToken(m: Mods, t: Token): Mods {
    match t
    case Key(code, prefixed, make) => Held(m, Keymap(code, ColumnFor(m, code, prefixed)), make)
    case NoKey => m
  }

  /** The value that is passed to in_process, if any. */
  function Passed(m: Mods, t: Token): Option<bv32> {
    match t
    case Key(code, prefixed, true) =>
      var key := Keymap(code, ColumnFor(m, code, prefixed));
      var m' := ModsAfterToken(m, t);
      Some(WithFlags(if IsPad(key) then PadMeaning(key, m'.num) else key, m', IsPad(key)))
    case _ => None
  }

  // ---------------------------------------------------------------- in_process

  /** What a terminal does with a key. */
  datatype Reaction = PutKey(key: bv32) | Scroll(direction: int) | Select(nr: nat) | Ignore

  function Reacts(key: bv32): Reaction {
    var shifted := key & FLAG_SHIFT_L != 0 || key & FLAG_SHIFT_R != 0;
    var raw := key & MASK_RAW;
    if key & FLAG_EXT == 0 then PutKey(key)
    else if raw == ENTER then PutKey(0x0A)
    else if raw == BACKSPACE then PutKey(0x08)
    else if raw == UP then (if shifted then Scroll(Consoles.SCR_DN) else Ignore)
    else if raw == DOWN then (if shifted then Scroll(Consoles.SCR_UP) else Ignore)
    else if F1 <= raw <= F12 then Select((raw - F1) as nat)
    else Ignore
  }

  /** The char that tty_do_write reads from a slot of the input buffer. */
  function CharOf(key: bv32): bv8 {
    (key & 0xFF) as bv8
  }

  /** The flags of a key value are those of the modifiers, and leave the key alone. */
  lemma FlagsAreApart(raw: bv32, m: Mods, pad: bool)
    requires raw <= MASK_RAW
    ensures var key := WithFlags(raw, m, pad);
            && key & MASK_RAW == raw
            && (key & FLAG_SHIFT_L != 0 <==> m.shiftL) && (key & FLAG_SHIFT_R != 0 <==> m.shiftR)
            && (key & FLAG_CTRL_L != 0 <==> m.ctrlL) && (key & FLAG_CTRL_R != 0 <==> m.ctrlR)
            && (key & FLAG_ALT_L != 0 <==> m.altL) && (key & FLAG_ALT_R != 0 <==> m.altR)
            && (key & FLAG_PAD != 0 <==> pad)
  {
  }

  lemma RawDecides(key: bv32, raw: bv32)
    requires key & MASK_RAW == raw
    ensures key & FLAG_EXT == raw & FLAG_EXT && CharOf(key) == CharOf(raw) && raw & MASK_RAW == raw
  {
  }

  /** The flags decide whether a screen is scrolled, and vanish from everything else. */
  lemma FlagsVanish(raw: bv32, m: Mods, pad: bool)
    requires raw <= MASK_RAW
    ensures var r := Reacts(WithFlags(raw, m, pad));
            if raw & FLAG_EXT == 0 then r.PutKey? && CharOf(r.key) == CharOf(raw)
            else if raw == UP || raw == DOWN then
              r == (if m.shiftL || m.shiftR
                    then Scroll(if raw == UP then Consoles.SCR_DN else Consoles.SCR_UP) else Ignore)
            else r == Reacts(raw)
  {
    hide WithFlags, CharOf;
    FlagsAreApart(raw, m, pad);
    RawDecides(WithFlags(raw, m, pad), raw);
  }

  // ---------------------------------------------------------------- modifiers as history

  /** Which modifier a key is, by its scan code alone. */
  function ModifierAt(code: bv8, prefixed: bool): bv32 {
    if prefixed then
      (if code == 0x1D then CTRL_R else if code == 0x38 then ALT_R else 0)
    else if code == 0x2A then SHIFT_L
    else if code == 0x36 then SHIFT_R
    else if code == 0x1D then CTRL_L
    else if code == 0x38 then ALT_L
    else if code == 0x3A then CAPS_LOCK
    else if code == 0x45 then NUM_LOCK
    else if code == 0x46 then SCROLL_LOCK
    else 0
  }

  predicate IsModifier(key: bv32) {
    SHIFT_L <= key <= SCROLL_LOCK
  }

  /** The key itself if it is a modifier, else 0. */
  function ModifierPart(key: bv32): bv32 {
    if IsModifier(key) then key else 0
  }

  /**
   The modifiers of a row are those of ModifierAt, with and without shift, and shift turns a
   letter into its capital.
   */
  ghost predicate RowAgrees(row: Keys, code: bv8) {
    && ModifierPart(row.0) == ModifierPart(row.1) == ModifierAt(code, false)
    && ModifierPart(row.2) == ModifierAt(code, true)
    && (IsLetter(row.0) ==> row.1 == row.0 - 0x20)
  }

  lemma Rows00To0FAgree(code: bv8)
    requires 0x00 <= code < 0x10
    ensures RowAgrees(Rows00To0F(code), code)
  {
  }

  lemma Rows10To1FAgree(code: bv8)
    requires 0x10 <= code < 0x20
    ensures RowAgrees(Rows10To1F(code), code)
  {
  }

  lemma Rows20To2FAgree(code: bv8)
    requires 0x20 <= code < 0x30
    ensures RowAgrees(Rows20To2F(code), code)
  {
  }

  lemma Rows30To3FAgree(code: bv8)
    requires 0x30 <= code < 0x40
    ensures RowAgrees(Rows30To3F(code), code)
  {
  }

  lemma Rows40To7FAgree(code: bv8)
    requires 0x40 <= code
    ensures RowAgrees(Rows40To7F(code), code)
  {
  }

  lemma RowFound(code: bv8)
    ensures RowAgrees(Row(code), code)
  {
    hide Rows00To0F, Rows10To1F, Rows20To2F, Rows30To3F, Rows40To7F, RowAgrees;
    if code < 0x10 {
      Rows00To0FAgree(code);
    } else if code < 0x20 {
      Rows10To1FAgree(code);
    } else if code < 0x30 {
      Rows20To2FAgree(code);
    } else if code < 0x40 {
      Rows30To3FAgree(code);
    } else {
      Rows40To7FAgree(code);
    }
  }

  /** Whatever other keys are held, the keymap finds the same modifier keys. */
  lemma ModifierFound(m: Mods, code: bv8, prefixed: bool)
    ensures var key := Keymap(code, ColumnFor(m, code, prefixed));
            ModifierPart(key) == ModifierAt(code, prefixed)
  {
    hide Row, ModifierPart, ModifierAt;
    RowFound(code);
  }

  /** Only the modifier keys matter to the modifiers. */
  lemma HeldByModifier(m: Mods, key: bv32, make: bool)
    ensures Held(m, key, make) == Held(m, ModifierPart(key), make)
  {
  }

  predicate IsAlt(t: Token) {
    t.Key? && t.code == 0x38
  }

  predicate Is(t: Token, code: bv8, prefixed: bool) {
    t.Key? && t.code == code && t.prefixed == prefixed
  }

  /** `m'` is `m` after the key at `code` has moved, told from the scan code alone. */
  ghost predicate Moves(m: Mods, m': Mods, code: bv8, prefixed: bool, make: bool) {
    && m'.shiftL == (if code == 0x2A && !prefixed then make else m.shiftL)
    && m'.shiftR == (if code == 0x36 && !prefixed then make else m.shiftR)
    && m'.ctrlL == (if code == 0x1D && !prefixed then make else m.ctrlL)
    && m'.ctrlR == (if code == 0x1D && prefixed then make else m.ctrlR)
    && m'.altL == (if code == 0x38 then make else m.altL)
    && m'.altR == m.altR
    && m'.caps == (m.caps != (code == 0x3A && !prefixed && make))
    && m'.num == (m.num != (code == 0x45 && !prefixed && make))
    && m'.scroll == (m.scroll != (code == 0x46 && !prefixed && make))
  }

  lemma HeldAt(m: Mods, code: bv8, prefixed: bool, make: bool)
    ensures Moves(m, Held(m, ModifierAt(code, prefixed), make), code, prefixed, make)
  {
  }

  lemma KeyMoves(m: Mods, code: bv8, prefixed: bool, make: bool)
    ensures Moves(m, ModsAfterToken(m, Key(code, prefixed, make)), code, prefixed, make)
  {
    hide Moves, Held, ModifierAt, ModifierPart, Keymap, ColumnFor;
    ModifierFound(m, code, prefixed);
    HeldByModifier(m, Keymap(code, ColumnFor(m, code, prefixed)), make);
    HeldAt(m, code, prefixed, make);
  }

  lemma NoKeyMovesNothing(m: Mods)
    ensures ModsAfterToken(m, NoKey) == m && Passed(m, NoKey) == None
  {
  }

  ghost function ModsAfter(ts: seq<Token>): Mods {
    if ts == [] then INITIAL_MODS else ModsAfterToken(ModsAfter(ts[..|ts| - 1]), ts[|ts| - 1])
  }

  /** Whether the key went down when it last moved, that is, whether it is held. */
  ghost predicate IsHeld(ts: seq<Token>, code: bv8, prefixed: bool) {
    ts != [] &&
    if Is(ts[|ts| - 1], code, prefixed) then ts[|ts| - 1].make
    else IsHeld(ts[..|ts| - 1], code, prefixed)
  }

  /** How often the key went down. */
  ghost function Presses(ts: seq<Token>, code: bv8): nat {
    if ts == [] then 0
    else Presses(ts[..|ts| - 1], code)
         + if Is(ts[|ts| - 1], code, false) && ts[|ts| - 1].make then 1 else 0
  }

  /** Which way the key moved that moved last, of the two Alt keys. */
  ghost predicate LastAlt(ts: seq<Token>) {
    ts != [] &&
    var t := ts[|ts| - 1];
    if IsAlt(t) then t.make else LastAlt(ts[..|ts| - 1])
  }

  /** The flags of the driver as they should be, told from what happened to the keyboard. */
  ghost function History(ts: seq<Token>): Mods {
    Mods(IsHeld(ts, 0x2A, false), IsHeld(ts, 0x36, false),
         IsHeld(ts, 0x1D, false), IsHeld(ts, 0x1D, true),
         LastAlt(ts), false,
         Presses(ts, 0x3A) % 2 == 1, Presses(ts, 0x45) % 2 == 0, Presses(ts, 0x46) % 2 == 1)
  }

  lemma MovesDecides(m: Mods, a: Mods, b: Mods, code: bv8, prefixed: bool, make: bool)
    requires Moves(m, a, code, prefixed, make) && Moves(m, b, code, prefixed, make)
    ensures a == b
  {
  }

  lemma HistoryMoves(ts: seq<Token>, t: Token)
    ensures t.Key? ==> Moves(History(ts), History(ts + [t]), t.code, t.prefixed, t.make)
    ensures t.NoKey? ==> History(ts + [t]) == History(ts)
  {
    assert (ts + [t])[..|ts|] == ts;
  }

  lemma HistoryStep(ts: seq<Token>, t: Token)
    ensures ModsAfterToken(History(ts), t) == History(ts + [t])
  {
    hide ModsAfterToken, History, Moves;
    HistoryMoves(ts, t);
    match t
    case Key(code, prefixed, make) =>
      KeyMoves(History(ts), code, prefixed, make);
      MovesDecides(History(ts), ModsAfterToken(History(ts), t), History(ts + [t]), code, prefixed, make);
    case NoKey => NoKeyMovesNothing(History(ts));
  }

  /**
   The flags of the driver are what happened to the keyboard: those of Shift and Ctrl tell which
   keys are held, the locks how often their keys were pressed. Alt is different.
   */
  lemma {:induction false} ModsAreHistory(ts: seq<Token>)
    ensures ModsAfter(ts) == History(ts)
  {
    hide ModsAfterToken;
    if ts != [] {
      var us, t := ts[..|ts| - 1], ts[|ts| - 1];
      assert ts == us + [t];
      ModsAreHistory(us);
      HistoryStep(us, t);
    }
  }

  /** Some Alt key is held. */
  ghost predicate AltHeld(ts: seq<Token>) {
    IsHeld(ts, 0x38, false) || IsHeld(ts, 0x38, true)
  }

  /** The latest Alt key that moved was released. */
  ghost predicate AltReleasedLast(ts: seq<Token>) {
    ts != [] &&
    var t := ts[|ts| - 1];
    if IsAlt(t) then !t.make else AltReleasedLast(ts[..|ts| - 1])
  }

  /**
   Because both Alt keys share one flag, it tells whether some Alt key is held unless one of
   them was released last while the other is still down; and the right flag is never set.
   */
  lemma {:induction false} AltFlagIff(ts: seq<Token>)
    ensures !ModsAfter(ts).altR
    ensures ModsAfter(ts).altL == AltHeld(ts) <==> !(AltReleasedLast(ts) && AltHeld(ts))
  {
    ModsAreHistory(ts);
    AltCases(ts);
  }

  lemma {:induction false} AltCases(ts: seq<Token>)
    ensures LastAlt(ts) ==> AltHeld(ts) && !AltReleasedLast(ts)
    ensures AltHeld(ts) ==> LastAlt(ts) || AltReleasedLast(ts)
  {
    if ts != [] {
      AltCases(ts[..|ts| - 1]);
    }
  }

  /** It happens: both Alt keys go down and the right one comes up again. */
  lemma AltFlagFails()
    ensures var ts := [Key(0x38, false, true), Key(0x38, true, true), Key(0x38, true, false)];
            AltHeld(ts) && !ModsAfter(ts).altL
  {
    var ts := [Key(0x38, false, true), Key(0x38, true, true), Key(0x38, true, false)];
    ModsAreHistory(ts);
    assert ts[..2][..1] == ts[..1];
  }
}
