/**
 What the keys of the keyboard type, key by key, told from scan codes and characters alone: the
 appendix of include/keymap.h lists the scan codes.
 */
module TypedKeys {
  import opened Options
  import opened KeyCodes
  import opened ScanCodes
  import opened KeyMeaning
  import opened TerminalCode
  import opened Consoles
  import opened Displays
  import opened Typing

  // ---------------------------------------------------------------- the keyboard, by its history

  ghost predicate ShiftHeld(ts: seq<Token>) {
    IsHeld(ts, 0x2A, false) || IsHeld(ts, 0x36, false)
  }

  ghost predicate CapsOn(ts: seq<Token>) {
    Presses(ts, 0x3A) % 2 == 1
  }

  /** NumLock is on at the start. */
  ghost predicate NumOn(ts: seq<Token>) {
    Presses(ts, 0x45) % 2 == 0
  }

  /** The terminal that is shown gets one more character. */
  ghost function Typed(w: Meaning, ch: bv8): Meaning
    requires w.current < |w.text|
  {
    w.(text := w.text[w.current := w.text[w.current] + [ch]])
  }

  // ---------------------------------------------------------------- from key to terminal

  /** The key value without the flags of the modifiers. */
  ghost function RawKey(ts: seq<Token>, code: bv8, prefixed: bool): bv32 {
    var key := Keymap(code, ColumnFor(ModsAfter(ts), code, prefixed));
    if IsPad(key) then PadMeaning(key, NumOn(ts)) else key
  }

  /** A key that is no letter takes its column from Shift alone, a letter from Shift and CapsLock. */
  lemma ColumnTold(ts: seq<Token>, code: bv8)
    ensures ColumnFor(ModsAfter(ts), code, false) ==
              if ShiftHeld(ts) != (CapsOn(ts) && IsLetter(Row(code).0)) then Shifted else Unshifted
  {
    hide Row;
    ModsAreHistory(ts);
  }

  /** Keys of the numeric pad are no modifiers. */
  lemma PassedIsRaw(ts: seq<Token>, code: bv8, prefixed: bool)
    ensures var m, key := ModsAfterToken(ModsAfter(ts), Key(code, prefixed, true)), RawKey(ts, code, prefixed);
            exists pad :: Passed(ModsAfter(ts), Key(code, prefixed, true)) == Some(WithFlags(key, m, pad))
  {
    hide Row, WithFlags, PadMeaning;
    ModsAreHistory(ts);
    var m := ModsAfterToken(ModsAfter(ts), Key(code, prefixed, true));
    var pad := IsPad(Keymap(code, ColumnFor(ModsAfter(ts), code, prefixed)));
    assert Passed(ModsAfter(ts), Key(code, prefixed, true)) == Some(WithFlags(RawKey(ts, code, prefixed), m, pad));
  }

  /** Which consoles the function keys show: the first three have one. */
  ghost function ShownBy(w: Meaning, key: bv32): Meaning
    requires F1 <= key <= F12
  {
    if key == F1 then w.(current := 0)
    else if key == F2 then w.(current := 1)
    else if key == F3 then w.(current := 2)
    else w
  }

  /** What a key value, without its flags, does to the text and to the console that is shown. */
  ghost function Effect(w: Meaning, raw: bv32): Meaning
    requires w.current < |w.text|
  {
    if raw < 0x100 then Typed(w, raw as bv8)
    else if raw == ENTER then Typed(w, NEWLINE)
    else if raw == BACKSPACE then Typed(w, BACKSPACE_CHAR)
    else if F1 <= raw <= F12 then ShownBy(w, raw)
    else w
  }

  lemma CharIsNumber(key: bv32)
    requires key < 0x100
    ensures CharOf(key) == key as bv8
  {
  }

  lemma ReactsToChar(raw: bv32)
    requires raw < 0x100
    ensures raw & FLAG_EXT == 0
  {
  }

  lemma ReactsToExt(raw: bv32)
    requires 0x100 <= raw <= MASK_RAW && raw != UP && raw != DOWN
    ensures raw & FLAG_EXT != 0 && raw & MASK_RAW == raw
    ensures Reacts(raw) ==
              if raw == ENTER then PutKey(0x0A)
              else if raw == BACKSPACE then PutKey(0x08)
              else if F1 <= raw <= F12 then Select((raw - F1) as nat)
              else Ignore
  {
  }

  lemma ConsoleOfKey(key: bv32)
    requires F1 <= key <= F12
    ensures (key - F1) as nat == if key == F1 then 0 else if key == F2 then 1 else if key == F3 then 2
                                 else (key - F1) as nat
    ensures key != F1 && key != F2 && key != F3 ==> (key - F1) as nat >= 3
  {
  }

  lemma RawTypes(ts: seq<Token>, code: bv8, prefixed: bool)
    requires RawKey(ts, code, prefixed) <= MASK_RAW
    ensures MeaningOf(ts).current < |MeaningOf(ts).text|
    ensures MeaningOf(ts + [Key(code, prefixed, true)]) == Effect(MeaningOf(ts), RawKey(ts, code, prefixed))
  {
    hide RawKey, Passed, Reacts, WithFlags, CharOf, ModsAfter, MeaningOf, ModsAfterToken;
    var t, raw := Key(code, prefixed, true), RawKey(ts, code, prefixed);
    var m := ModsAfterToken(ModsAfter(ts), t);
    CurrentExists(ts);
    MeaningGrows(ts, t);
    PassedIsRaw(ts, code, prefixed);
    var pad :| Passed(ModsAfter(ts), t) == Some(WithFlags(raw, m, pad));
    FlagsVanish(raw, m, pad);
    if raw < 0x100 {
      ReactsToChar(raw);
      CharIsNumber(raw);
    } else if raw != UP && raw != DOWN {
      ReactsToExt(raw);
      if raw == ENTER || raw == BACKSPACE {
        CharIsNumber(if raw == ENTER then 0x0A else 0x08);
      } else if F1 <= raw <= F12 {
        ConsoleOfKey(raw);
      }
    } else {
      assert UP & FLAG_EXT != 0 && DOWN & FLAG_EXT != 0;
    }
  }

  lemma ReleaseTypesNothing(ts: seq<Token>, code: bv8, prefixed: bool)
    ensures MeaningOf(ts + [Key(code, prefixed, false)]) == MeaningOf(ts)
  {
    MeaningGrows(ts, Key(code, prefixed, false));
  }

  // ---------------------------------------------------------------- letters, digits and signs

  /** The make code that the appendix lists for a letter. */
  function LetterCode(ch: bv8): bv8 {
    match ch
    // a  b  c  d
    case 0x61 => 0x1E case 0x62 => 0x30 case 0x63 => 0x2E case 0x64 => 0x20
    // e  f  g  h
    case 0x65 => 0x12 case 0x66 => 0x21 case 0x67 => 0x22 case 0x68 => 0x23
    // i  j  k  l
    case 0x69 => 0x17 case 0x6A => 0x24 case 0x6B => 0x25 case 0x6C => 0x26
    // m  n  o  p
    case 0x6D => 0x32 case 0x6E => 0x31 case 0x6F => 0x18 case 0x70 => 0x19
    // q  r  s  t
    case 0x71 => 0x10 case 0x72 => 0x13 case 0x73 => 0x1F case 0x74 => 0x14
    // u  v  w  x
    case 0x75 => 0x16 case 0x76 => 0x2F case 0x77 => 0x11 case 0x78 => 0x2D
    // y  z
    case 0x79 => 0x15 case 0x7A => 0x2C
    case _ => 0
  }

  /** The make code that the appendix lists for a digit, a sign or the space bar. */
  function SignCode(ch: bv8): bv8 {
    match ch
    // 1  2  3  4
    case 0x31 => 0x02 case 0x32 => 0x03 case 0x33 => 0x04 case 0x34 => 0x05
    // 5  6  7  8
    case 0x35 => 0x06 case 0x36 => 0x07 case 0x37 => 0x08 case 0x38 => 0x09
    // 9  0  -  =
    case 0x39 => 0x0A case 0x30 => 0x0B case 0x2D => 0x0C case 0x3D => 0x0D
    // [  ]  ;  '
    case 0x5B => 0x1A case 0x5D => 0x1B case 0x3B => 0x27 case 0x27 => 0x28
    // `  \  ,  .
    case 0x60 => 0x29 case 0x5C => 0x2B case 0x2C => 0x33 case 0x2E => 0x34
    // /  space
    case 0x2F => 0x35 case 0x20 => 0x39
    case _ => 0
  }

  /** The upper character on the key of a digit or a sign. */
  function UpperSign(ch: bv8): bv8 {
    match ch
    // 1  2  3  4
    case 0x31 => 0x21 case 0x32 => 0x40 case 0x33 => 0x23 case 0x34 => 0x24
    // 5  6  7  8
    case 0x35 => 0x25 case 0x36 => 0x5E case 0x37 => 0x26 case 0x38 => 0x2A
    // 9  0  -  =
    case 0x39 => 0x28 case 0x30 => 0x29 case 0x2D => 0x5F case 0x3D => 0x2B
    // [  ]  ;  '
    case 0x5B => 0x7B case 0x5D => 0x7D case 0x3B => 0x3A case 0x27 => 0x22
    // `  \  ,  .
    case 0x60 => 0x7E case 0x5C => 0x7C case 0x2C => 0x3C case 0x2E => 0x3E
    // /
    case 0x2F => 0x3F
    case _ => ch
  }

  ghost predicate IsLetterRow(row: Keys, ch: bv8) {
    row == (ch as bv32, ch as bv32 - 0x20, 0)
  }

  ghost predicate IsSignRow(row: Keys, ch: bv8) {
    row.0 == ch as bv32 && row.1 == UpperSign(ch) as bv32
  }

  lemma LettersAToI(ch: bv8)
    requires 0x61 <= ch <= 0x69
    ensures IsLetterRow(Row(LetterCode(ch)), ch)
  {
  }

  lemma LettersJToR(ch: bv8)
    requires 0x6A <= ch <= 0x72
    ensures IsLetterRow(Row(LetterCode(ch)), ch)
  {
  }

  lemma LettersSToZ(ch: bv8)
    requires 0x73 <= ch <= 0x7A
    ensures IsLetterRow(Row(LetterCode(ch)), ch)
  {
  }

  lemma Digits(ch: bv8)
    requires 0x30 <= ch <= 0x39
    ensures IsSignRow(Row(SignCode(ch)), ch)
  {
  }

  lemma SignsBelowDigits(ch: bv8)
    requires ch < 0x30 && SignCode(ch) != 0
    ensures IsSignRow(Row(SignCode(ch)), ch)
  {
  }

  lemma SignsAboveDigits(ch: bv8)
    requires ch > 0x39 && SignCode(ch) != 0
    ensures IsSignRow(Row(SignCode(ch)), ch)
  {
  }

  /** An effect on the text alone: a key value of a character types it. */
  lemma CharTypes(ts: seq<Token>, code: bv8, prefixed: bool, ch: bv8)
    requires RawKey(ts, code, prefixed) == ch as bv32
    ensures MeaningOf(ts).current < |MeaningOf(ts).text|
    ensures MeaningOf(ts + [Key(code, prefixed, true)]) == Typed(MeaningOf(ts), ch)
  {
    hide RawKey, MeaningOf;
    RawTypes(ts, code, prefixed);
    assert ch as bv32 < 0x100 && (ch as bv32) as bv8 == ch;
  }

  /**
   The key of a letter types the letter, or the capital if Shift is held or CapsLock is on but
   not both.
   */
  lemma LetterKeys(ts: seq<Token>, ch: bv8)
    requires 0x61 <= ch <= 0x7A
    ensures MeaningOf(ts).current < |MeaningOf(ts).text|
    ensures MeaningOf(ts + [Key(LetterCode(ch), false, true)]) ==
              Typed(MeaningOf(ts), if ShiftHeld(ts) != CapsOn(ts) then ch - 0x20 else ch)
  {
    hide Row, LetterCode, MeaningOf, ModsAfter, ColumnFor, ShiftHeld, CapsOn;
    var code := LetterCode(ch);
    if ch <= 0x69 {
      LettersAToI(ch);
    } else if ch <= 0x72 {
      LettersJToR(ch);
    } else {
      LettersSToZ(ch);
    }
    ColumnTold(ts, code);
    CharTypes(ts, code, false, if ShiftHeld(ts) != CapsOn(ts) then ch - 0x20 else ch);
  }

  /** The key of a digit, a sign or the space bar types its upper character exactly if Shift is held. */
  lemma SignKeys(ts: seq<Token>, ch: bv8)
    requires SignCode(ch) != 0
    ensures MeaningOf(ts).current < |MeaningOf(ts).text|
    ensures MeaningOf(ts + [Key(SignCode(ch), false, true)]) ==
              Typed(MeaningOf(ts), if ShiftHeld(ts) then UpperSign(ch) else ch)
  {
    hide Row, SignCode, UpperSign, MeaningOf, ModsAfter, ColumnFor, ShiftHeld, CapsOn;
    var code := SignCode(ch);
    if ch < 0x30 {
      SignsBelowDigits(ch);
    } else if ch <= 0x39 {
      Digits(ch);
    } else {
      SignsAboveDigits(ch);
    }
    SignIsNoLetter(ch);
    ColumnTold(ts, code);
    CharTypes(ts, code, false, if ShiftHeld(ts) then UpperSign(ch) else ch);
  }

  lemma SignIsNoLetter(ch: bv8)
    requires SignCode(ch) != 0
    ensures !(0x61 <= ch <= 0x7A)
  {
  }

  // ---------------------------------------------------------------- Enter, Backspace, function keys

  /** Enter, of the main keys or of the pad, ends the line whatever else is held. */
  lemma EnterKeys(ts: seq<Token>, prefixed: bool)
    ensures MeaningOf(ts).current < |MeaningOf(ts).text|
    ensures MeaningOf(ts + [Key(0x1C, prefixed, true)]) == Typed(MeaningOf(ts), NEWLINE)
  {
    hide MeaningOf, ModsAfter, ColumnFor;
    assert RawKey(ts, 0x1C, prefixed) == ENTER by {
      ColumnOfKey(ts, 0x1C, prefixed);
    }
    RawTypes(ts, 0x1C, prefixed);
  }

  lemma BackspaceKey(ts: seq<Token>)
    ensures MeaningOf(ts).current < |MeaningOf(ts).text|
    ensures MeaningOf(ts + [Key(0x0E, false, true)]) == Typed(MeaningOf(ts), BACKSPACE_CHAR)
  {
    hide MeaningOf, ModsAfter, ColumnFor;
    assert RawKey(ts, 0x0E, false) == BACKSPACE by {
      ColumnOfKey(ts, 0x0E, false);
    }
    RawTypes(ts, 0x0E, false);
  }

  lemma ColumnOfKey(ts: seq<Token>, code: bv8, prefixed: bool)
    ensures ColumnFor(ModsAfter(ts), code, prefixed) == Prefixed <==> prefixed
  {
    hide Row;
  }

  /** The make code that the appendix lists for function key `n`. */
  function FunctionCode(n: nat): bv8
    requires 1 <= n <= 12
  {
    if n <= 10 then 0x3A + n as bv8 else if n == 11 then 0x57 else 0x58
  }

  lemma FunctionRow(n: nat)
    requires 1 <= n <= 12
    ensures var key := Row(FunctionCode(n)).0;
            Row(FunctionCode(n)).1 == key && F1 <= key <= F12 && (key == F1 <==> n == 1)
            && (key == F2 <==> n == 2) && (key == F3 <==> n == 3)
  {
    assert n == 1 || n == 2 || n == 3 || n == 4 || n == 5 || n == 6 || n == 7 || n == 8 || n == 9
           || n == 10 || n == 11 || n == 12;
  }

  /** F1, F2 and F3 show the first, second and third console, and the others change nothing. */
  lemma FunctionKeys(ts: seq<Token>, n: nat)
    requires 1 <= n <= 12
    ensures MeaningOf(ts + [Key(FunctionCode(n), false, true)]) ==
              if n <= 3 then MeaningOf(ts).(current := n - 1) else MeaningOf(ts)
  {
    hide MeaningOf, ModsAfter, ColumnFor, FunctionCode, Row;
    FunctionRow(n);
    ColumnOfKey(ts, FunctionCode(n), false);
    RawTypes(ts, FunctionCode(n), false);
  }

  // ---------------------------------------------------------------- the numeric pad

  /** The make code that the appendix lists for a digit or the dot of the pad. */
  function PadCode(ch: bv8): bv8 {
    match ch
    // 0 1 2 3
    case 0x30 => 0x52 case 0x31 => 0x4F case 0x32 => 0x50 case 0x33 => 0x51
    // 4 5 6 7
    case 0x34 => 0x4B case 0x35 => 0x4C case 0x36 => 0x4D case 0x37 => 0x47
    // 8 9 .
    case 0x38 => 0x48 case 0x39 => 0x49 case 0x2E => 0x53
    case _ => 0
  }

  lemma PadRow(ch: bv8)
    requires PadCode(ch) != 0
    ensures var row := Row(PadCode(ch));
            && IsPad(row.0) && !IsPad(row.1) && !IsPad(row.2) && row.1 == ch as bv32
            && PadMeaning(row.0, true) == ch as bv32
            && PadMeaning(row.0, false) == (if ch == 0x35 then row.0 else row.2)
  {
  }

  lemma PadRowOff(ch: bv8)
    requires PadCode(ch) != 0
    ensures var row := Row(PadCode(ch));
            && 0x100 <= row.0 <= MASK_RAW && row.0 != ENTER && row.0 != BACKSPACE && !(F1 <= row.0 <= F12)
            && (ch != 0x35 ==> 0x100 <= row.2 <= MASK_RAW && row.2 != ENTER && row.2 != BACKSPACE
                               && !(F1 <= row.2 <= F12))
  {
  }

  /** With Shift held or NumLock on, the digits and the dot of the pad type themselves. */
  lemma PadDigits(ts: seq<Token>, ch: bv8)
    requires PadCode(ch) != 0 && (ShiftHeld(ts) || NumOn(ts))
    ensures MeaningOf(ts).current < |MeaningOf(ts).text|
    ensures MeaningOf(ts + [Key(PadCode(ch), false, true)]) == Typed(MeaningOf(ts), ch)
  {
    hide Row, PadCode, MeaningOf, ModsAfter, ColumnFor, ShiftHeld, CapsOn, NumOn, PadMeaning, IsPad;
    PadRow(ch);
    PadIsNoLetter(ch);
    ColumnTold(ts, PadCode(ch));
    CharTypes(ts, PadCode(ch), false, ch);
  }

  lemma PadIsNoLetter(ch: bv8)
    requires PadCode(ch) != 0
    ensures !IsLetter(Row(PadCode(ch)).0)
  {
  }

  /** The same key is passed on, whatever its flags say. */
  predicate SameKey(a: Option<bv32>, b: Option<bv32>) {
    a.Some? && b.Some? && a.value & MASK_RAW == b.value & MASK_RAW
  }

  lemma RawIsPassed(ts: seq<Token>, code: bv8, prefixed: bool)
    requires RawKey(ts, code, prefixed) <= MASK_RAW
    ensures Passed(ModsAfter(ts), Key(code, prefixed, true)).Some?
    ensures Passed(ModsAfter(ts), Key(code, prefixed, true)).value & MASK_RAW == RawKey(ts, code, prefixed)
  {
    hide RawKey, Passed, WithFlags, ModsAfter, ModsAfterToken;
    var m := ModsAfterToken(ModsAfter(ts), Key(code, prefixed, true));
    PassedIsRaw(ts, code, prefixed);
    var pad :| Passed(ModsAfter(ts), Key(code, prefixed, true)) == Some(WithFlags(RawKey(ts, code, prefixed), m, pad));
    FlagsAreApart(RawKey(ts, code, prefixed), m, pad);
  }

  /**
   With NumLock off and no Shift they mean what the keys behind E0 mean, and type nothing; the 5
   in the middle has no such key.
   */
  lemma PadKeysOff(ts: seq<Token>, ch: bv8)
    requires PadCode(ch) != 0 && !ShiftHeld(ts) && !NumOn(ts)
    ensures MeaningOf(ts + [Key(PadCode(ch), false, true)]) == MeaningOf(ts)
    ensures ch != 0x35 ==>
              && MeaningOf(ts + [Key(PadCode(ch), true, true)]) == MeaningOf(ts)
              && SameKey(Passed(ModsAfter(ts), Key(PadCode(ch), false, true)),
                         Passed(ModsAfter(ts), Key(PadCode(ch), true, true)))
  {
    hide Row, PadCode, MeaningOf, ModsAfter, ColumnFor, ShiftHeld, CapsOn, NumOn, PadMeaning, IsPad, Passed;
    PadRow(ch);
    PadRowOff(ch);
    PadIsNoLetter(ch);
    ColumnTold(ts, PadCode(ch));
    ColumnOfKey(ts, PadCode(ch), true);
    RawTypes(ts, PadCode(ch), false);
    if ch != 0x35 {
      RawTypes(ts, PadCode(ch), true);
      RawIsPassed(ts, PadCode(ch), false);
      RawIsPassed(ts, PadCode(ch), true);
    }
  }

  /** The signs of the pad: / behind E0, and *, - and +. They need neither Shift nor NumLock. */
  predicate IsPadSign(code: bv8, prefixed: bool, ch: bv8) {
    || (code == 0x35 && prefixed && ch == 0x2F)
    || (code == 0x37 && !prefixed && ch == 0x2A)
    || (code == 0x4A && !prefixed && ch == 0x2D)
    || (code == 0x4E && !prefixed && ch == 0x2B)
  }

  lemma PadSigns(ts: seq<Token>, code: bv8, prefixed: bool, ch: bv8)
    requires IsPadSign(code, prefixed, ch)
    ensures MeaningOf(ts).current < |MeaningOf(ts).text|
    ensures MeaningOf(ts + [Key(code, prefixed, true)]) == Typed(MeaningOf(ts), ch)
  {
    hide MeaningOf, ModsAfter, ColumnFor;
    ColumnOfKey(ts, code, prefixed);
    CharTypes(ts, code, prefixed, ch);
  }

  // ---------------------------------------------------------------- all other keys

  /** Escape, Tab, the modifiers, and behind E0 also the cursor keys and their like. */
  predicate IsSilent(code: bv8, prefixed: bool) {
    if prefixed then
      || code == 0x1D || code == 0x38 || (0x47 <= code <= 0x49) || code == 0x4B || code == 0x4D
      || (0x4F <= code <= 0x53) || (0x5B <= code <= 0x5D)
    else
      || code == 0x01 || code == 0x0F || code == 0x1D || code == 0x2A || code == 0x36 || code == 0x38
      || code == 0x3A || code == 0x45 || code == 0x46
  }

  /** No character, line end, backspace, pad or function key. */
  predicate TypesNothing(key: bv32) {
    0x100 <= key <= MASK_RAW && key != ENTER && key != BACKSPACE && !IsPad(key) && !(F1 <= key <= F12)
  }

  lemma SilentRow(code: bv8)
    requires IsSilent(code, false)
    ensures TypesNothing(Row(code).0) && TypesNothing(Row(code).1)
  {
  }

  lemma SilentPrefixedRow(code: bv8)
    requires IsSilent(code, true)
    ensures TypesNothing(Row(code).2)
  {
  }

  lemma SilentKeys(ts: seq<Token>, code: bv8, prefixed: bool)
    requires IsSilent(code, prefixed)
    ensures MeaningOf(ts + [Key(code, prefixed, true)]) == MeaningOf(ts)
  {
    hide MeaningOf, ModsAfter, ColumnFor, Row, IsSilent;
    ColumnOfKey(ts, code, prefixed);
    if prefixed {
      SilentPrefixedRow(code);
    } else {
      SilentRow(code);
    }
    RawTypes(ts, code, prefixed);
  }

  /** The codes that the keymap leaves out. */
  predicate IsLeftOut(code: bv8, prefixed: bool) {
    if prefixed then !IsSilent(code, true) && code != 0x1C && code != 0x35
    else code == 0 || (0x54 <= code <= 0x56) || code >= 0x59
  }

  lemma LeftOutRow(code: bv8)
    requires IsLeftOut(code, false)
    ensures Row(code).0 == 0 && Row(code).1 == 0
  {
  }

  lemma LeftOutPrefixedRow(code: bv8)
    requires IsLeftOut(code, true)
    ensures Row(code).2 == 0
  {
  }

  /** They type the character 0. */
  lemma LeftOutKeys(ts: seq<Token>, code: bv8, prefixed: bool)
    requires IsLeftOut(code, prefixed)
    ensures MeaningOf(ts).current < |MeaningOf(ts).text|
    ensures MeaningOf(ts + [Key(code, prefixed, true)]) == Typed(MeaningOf(ts), 0)
  {
    hide MeaningOf, ModsAfter, ColumnFor, Row, IsLeftOut;
    ColumnOfKey(ts, code, prefixed);
    if prefixed {
      LeftOutPrefixedRow(code);
    } else {
      LeftOutRow(code);
    }
    CharTypes(ts, code, prefixed, 0);
  }

  lemma CursorRow()
    ensures Row(0x48).2 == UP && Row(0x50).2 == DOWN
    ensures !IsPad(UP) && !IsPad(DOWN) && UP <= MASK_RAW && DOWN <= MASK_RAW
    ensures UP != DOWN && UP & FLAG_EXT != 0 && DOWN & FLAG_EXT != 0
  {
  }

  /**
   With Shift held, the cursor keys scroll the console that is shown: the up key moves its window
   down, and the down key up. Without Shift they do nothing.
   */
  lemma ScrollKeys(ts: seq<Token>, p: Pipe, down: bool)
    requires PipeShape(p) && p.mods == ModsAfter(ts)
    ensures Handle(p, Key(if down then 0x50 else 0x48, true, true)).screen ==
              p.screen + if ShiftHeld(ts) then [On(p.current, Consoles.Scroll(if down then SCR_UP else SCR_DN))] else []
  {
    hide Row, Passed, Reacts, WithFlags, CharOf, ModsAfter, ModsAfterToken, PadMeaning;
    var code: bv8, raw := if down then 0x50 else 0x48, if down then DOWN else UP;
    var m := ModsAfterToken(ModsAfter(ts), Key(code, true, true));
    CursorRow();
    ModsAreHistory(ts);
    KeyMoves(ModsAfter(ts), code, true, true);
    assert RawKey(ts, code, true) == raw;
    PassedIsRaw(ts, code, true);
    var pad :| Passed(ModsAfter(ts), Key(code, true, true)) == Some(WithFlags(raw, m, pad));
    FlagsVanish(raw, m, pad);
    assert p.screen + [] == p.screen;
  }
}
