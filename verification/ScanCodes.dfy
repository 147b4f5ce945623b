/**
 Scan code set 1 (include/keymap.h) and how keyboard_read splits a stream of bytes into keys:
 the encoding of key events is a prefix code, and the parser inverts it.
 */
module ScanCodes {
  import opened KeyCodes

  /** What a user does to the keyboard. `code` is the make code of the key. */
  datatype KeyEvent =
    | Plain(code: bv8, make: bool)
    | Extended(code: bv8, make: bool)
    | PrintScreen(make: bool)
    | Pause

  const PAUSE_CODE: seq<bv8> := [0xE1, 0x1D, 0x45, 0xE1, 0x9D, 0xC5]

  function CodeByte(code: bv8, make: bool): bv8 {
    if make then code else code | FLAG_BREAK
  }

  /** The bytes that the keyboard sends for an event. */
  function Encode(e: KeyEvent): seq<bv8> {
    match e
    case Plain(code, make) => [CodeByte(code, make)]
    case Extended(code, make) => [0xE0, CodeByte(code, make)]
    case PrintScreen(make) => if make then [0xE0, 0x2A, 0xE0, 0x37] else [0xE0, 0xB7, 0xE0, 0xAA]
    case Pause => PAUSE_CODE
  }

  /**
   The events of the set. No key has a code whose break byte would be a prefix byte, or, behind
   E0, a byte that starts the sequences of PrintScreen.
   */
  predicate InSet(e: KeyEvent) {
    match e
    case Plain(code, make) => code < 0x80 && (make || (code != 0x60 && code != 0x61))
    case Extended(code, make) => code < 0x80 && code != (if make then 0x2A else 0x37)
    case _ => true
  }

  // ---------------------------------------------------------------- parsing

  /** What keyboard_read makes of the bytes it takes; PrintScreen and Pause have no effect. */
  datatype Token = Key(code: bv8, prefixed: bool, make: bool) | NoKey

  function KeyOf(b: bv8, prefixed: bool): Token {
    Key(b & 0x7F, prefixed, b & FLAG_BREAK == 0)
  }

  function TokenOf(e: KeyEvent): Token {
    match e
    case Plain(code, make) => Key(code, false, make)
    case Extended(code, make) => Key(code, true, make)
    case _ => NoKey
  }

  /** The token at the front of `bs` and the bytes it takes, unless more bytes are needed. */
  datatype Parsed = Incomplete | Parsed(token: Token, used: nat)

  function Parse(bs: seq<bv8>): Parsed {
    if bs == [] then Incomplete
    else if bs[0] == 0xE1 then ParsePause(bs, 1)
    else if bs[0] == 0xE0 then ParsePrefixed(bs)
    else Parsed(KeyOf(bs[0], false), 1)
  }

  /** Behind E1: the rest of the code of Pause, up to the first byte that is different. */
  function ParsePause(bs: seq<bv8>, i: nat): Parsed
    requires 1 <= i <= 6
    decreases 6 - i
  {
    if i == 6 then Parsed(NoKey, 6)
    else if |bs| <= i then Incomplete
    else if bs[i] != PAUSE_CODE[i] then Parsed(KeyOf(0xE1, false), i + 1)
    else ParsePause(bs, i + 1)
  }

  /** Behind E0: PrintScreen, or a key. */
  function ParsePrefixed(bs: seq<bv8>): Parsed {
    if |bs| < 2 then Incomplete
    else if bs[1] == 0x2A then ParsePrintScreen(bs, 0x37)
    else if bs[1] == 0xB7 then ParsePrintScreen(bs, 0xAA)
    else Parsed(KeyOf(bs[1], true), 2)
  }

  function ParsePrintScreen(bs: seq<bv8>, last: bv8): Parsed
    requires |bs| >= 2
  {
    if |bs| < 3 then Incomplete
    else if bs[2] != 0xE0 then Parsed(KeyOf(bs[1], true), 3)
    else if |bs| < 4 then Incomplete
    else if bs[3] == last then Parsed(NoKey, 4)
    else Parsed(KeyOf(bs[1], true), 4)
  }

  // ---------------------------------------------------------------- a prefix code

  lemma {:induction false} ParsePauseLocal(bs: seq<bv8>, more: seq<bv8>, i: nat)
    requires 1 <= i <= 6
    ensures ParsePause(bs, i).Parsed? ==>
              i <= ParsePause(bs, i).used <= 6 && (i <= |bs| ==> ParsePause(bs, i).used <= |bs|)
              && ParsePause(bs + more, i) == ParsePause(bs, i)
    decreases 6 - i
  {
    if i < 6 && i < |bs| {
      assert (bs + more)[i] == bs[i];
      ParsePauseLocal(bs, more, i + 1);
    }
  }

  /** A parse takes at least one byte and does not look beyond the bytes it takes. */
  lemma ParseLocal(bs: seq<bv8>, more: seq<bv8>)
    ensures Parse(bs).Parsed? ==> 0 < Parse(bs).used <= |bs| && Parse(bs + more) == Parse(bs)
  {
    if bs != [] {
      assert forall i :: 0 <= i < |bs| ==> (bs + more)[i] == bs[i];
      ParsePauseLocal(bs, more, 1);
    }
  }

  lemma {:induction false} ParsePausePrefix(bs: seq<bv8>, i: nat, n: nat)
    requires 1 <= i <= 6 && ParsePause(bs, i).Parsed? && n <= |bs|
    ensures ParsePause(bs, i).used >= i
    ensures ParsePause(bs, i).used <= n ==> ParsePause(bs[..n], i) == ParsePause(bs, i)
    ensures i <= n < ParsePause(bs, i).used ==> ParsePause(bs[..n], i).Incomplete?
    decreases 6 - i
  {
    if i < 6 && i < |bs| && bs[i] == PAUSE_CODE[i] {
      ParsePausePrefix(bs, i + 1, n);
    }
  }

  /** A prefix parses alike if it holds the whole token, and is not enough otherwise. */
  lemma ParsePrefix(bs: seq<bv8>, n: nat)
    requires Parse(bs).Parsed? && n <= |bs|
    ensures n < Parse(bs).used ==> Parse(bs[..n]).Incomplete?
    ensures n >= Parse(bs).used ==> Parse(bs[..n]) == Parse(bs)
  {
    if bs[0] == 0xE1 {
      ParsePausePrefix(bs, 1, n);
    }
  }

  // ---------------------------------------------------------------- the parser inverts the encoding

  /** The first token of an encoded event followed by anything is that event, exactly for the set. */
  lemma ParseEncodeIff(e: KeyEvent, rest: seq<bv8>)
    requires e.Plain? || e.Extended? ==> e.code < 0x80
    ensures Parse(Encode(e) + rest) == Parsed(TokenOf(e), |Encode(e)|) <==> InSet(e)
  {
    var bs := Encode(e) + rest;
    match e
    case Plain(code, make) =>
    case Extended(code, make) =>
    case PrintScreen(make) =>
    case Pause =>
      forall i | 1 <= i < 6 ensures bs[i] == PAUSE_CODE[i] {}
      assert ParsePause(bs, 5) == Parsed(NoKey, 6);
      assert ParsePause(bs, 3) == Parsed(NoKey, 6);
  }

  /** A code of Pause that breaks off takes the byte that does not fit, and is no key. */
  lemma BrokenPause(bs: seq<bv8>, i: nat)
    requires 1 <= i < 6 && i < |bs| && bs[..i] == PAUSE_CODE[..i] && bs[i] != PAUSE_CODE[i]
    ensures Parse(bs) == Parsed(Key(0x61, false, false), i + 1)
  {
    BrokenPauseFrom(bs, 1, i);
    assert bs[0] == PAUSE_CODE[..i][0];
  }

  lemma {:induction false} BrokenPauseFrom(bs: seq<bv8>, k: nat, i: nat)
    requires 1 <= k <= i < 6 && i < |bs| && bs[..i] == PAUSE_CODE[..i] && bs[i] != PAUSE_CODE[i]
    ensures ParsePause(bs, k) == Parsed(Key(0x61, false, false), i + 1)
    decreases i - k
  {
    if k < i {
      assert bs[k] == bs[..i][k] == PAUSE_CODE[k];
      BrokenPauseFrom(bs, k + 1, i);
    }
  }

  /**
   A code of PrintScreen that breaks off takes the bytes up to the one that does not fit, and is
   the key that its second byte stands for.
   */
  lemma BrokenPrintScreen(bs: seq<bv8>, make: bool)
    requires |bs| >= 3 && bs[0] == 0xE0 && bs[1] == (if make then 0x2A else 0xB7)
    ensures bs[2] != 0xE0 ==> Parse(bs) == Parsed(Key(if make then 0x2A else 0x37, true, make), 3)
    ensures bs[2] == 0xE0 && |bs| > 3 && bs[3] != (if make then 0x37 else 0xAA) ==>
              Parse(bs) == Parsed(Key(if make then 0x2A else 0x37, true, make), 4)
  {
  }

  function EncodeAll(es: seq<KeyEvent>): seq<bv8> {
    if es == [] then [] else Encode(es[0]) + EncodeAll(es[1..])
  }

  /** Repeated parsing: the tokens, and the bytes of the token that is not complete yet. */
  function Decode(bs: seq<bv8>): (r: (seq<Token>, seq<bv8>))
    decreases |bs|
  {
    match Parse(bs)
    case Incomplete => ([], bs)
    case Parsed(token, used) =>
      ParseLocal(bs, []);
      assert bs + [] == bs;
      var rest := Decode(bs[used..]);
      ([token] + rest.0, rest.1)
  }

  lemma DecodeStep(bs: seq<bv8>)
    ensures Parse(bs).Incomplete? ==> Decode(bs) == ([], bs)
    ensures Parse(bs).Parsed? ==>
              && Parse(bs).used <= |bs|
              && Decode(bs) == ([Parse(bs).token] + Decode(bs[Parse(bs).used..]).0, Decode(bs[Parse(bs).used..]).1)
  {
    ParseLocal(bs, []);
    assert bs + [] == bs;
  }

  function TokensOf(es: seq<KeyEvent>): seq<Token> {
    if es == [] then [] else [TokenOf(es[0])] + TokensOf(es[1..])
  }

  /** Decoding inverts encoding, whatever follows. */
  lemma {:induction false} DecodeEncode(es: seq<KeyEvent>, rest: seq<bv8>)
    requires forall e :: e in es ==> InSet(e)
    ensures Decode(EncodeAll(es) + rest) == (TokensOf(es) + Decode(rest).0, Decode(rest).1)
  {
    hide Parse, Encode, TokenOf;
    if es == [] {
      assert EncodeAll(es) + rest == rest;
      assert TokensOf(es) + Decode(rest).0 == Decode(rest).0;
    } else {
      var tail := EncodeAll(es[1..]) + rest;
      assert es[0] in es;
      assert EncodeAll(es) + rest == Encode(es[0]) + tail;
      ParseEncodeIff(es[0], tail);
      assert (Encode(es[0]) + tail)[|Encode(es[0])|..] == tail;
      DecodeEncode(es[1..], rest);
      assert [TokenOf(es[0])] + (TokensOf(es[1..]) + Decode(rest).0) == TokensOf(es) + Decode(rest).0;
    }
  }

  /** More bytes bring more tokens, and change none. */
  lemma {:induction false} DecodeMonotone(bs: seq<bv8>, more: seq<bv8>)
    ensures Decode(bs).0 <= Decode(bs + more).0
    decreases |bs|
  {
    DecodeStep(bs);
    DecodeStep(bs + more);
    ParseLocal(bs, more);
    hide Parse, Decode;
    if Parse(bs).Parsed? {
      var used := Parse(bs).used;
      assert (bs + more)[used..] == bs[used..] + more;
      DecodeMonotone(bs[used..], more);
    }
  }
}
