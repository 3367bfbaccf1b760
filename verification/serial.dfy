/** The USB serial-number string (usb_descriptors.c): the static 25-character
    buffer `usb_serial`, `word_to_hex`, which writes a 32-bit word as eight
    upper-case hex digits, most significant nibble first, and
    `usb_set_unique_serial`, which fills the buffer from the three words of
    the chip's unique ID. */
module Serial {

  /** A `uint32_t`. */
  type Word = w: int | 0 <= w < 0x1_0000_0000

  /** A value a `uint8_t nib` takes after `& 0xF`. */
  type Nib = n: int | 0 <= n < 16

  // ===========================================================================
  // Hex digits
  // ===========================================================================

  predicate IsHexDigit(c: char)
  {
    '0' <= c <= '9' || 'A' <= c <= 'F'
  }

  /** `(nib < 10) ? ('0' + nib) : ('A' + (nib - 10))`. */
  function HexChar(nib: Nib): (c: char)
    ensures IsHexDigit(c)
    ensures c <= '9' <==> nib < 10
  {
    if nib < 10 then ('0' as int + nib) as char else ('A' as int + (nib - 10)) as char
  }

  /** The value a host reads from a hex digit. */
  function DigitValue(c: char): Nib
    requires IsHexDigit(c)
  {
    if c <= '9' then c as int - '0' as int else c as int - 'A' as int + 10
  }

  lemma DigitValueHexChar(nib: Nib)
    ensures DigitValue(HexChar(nib)) == nib
  {
  }

  lemma HexCharDigitValue(c: char)
    requires IsHexDigit(c)
    ensures HexChar(DigitValue(c)) == c
  {
  }

  // ===========================================================================
  // Words
  // ===========================================================================

  /** `(w >> 28) & 0xF`: the most significant nibble of a `uint32_t`. */
  function Top(w: Word): Nib
  {
    (w / 0x1000_0000) % 0x10
  }

  /** `w <<= 4` on a `uint32_t`: the top nibble falls off. */
  function Shl4(w: Word): Word
  {
    (w * 0x10) % 0x1_0000_0000
  }

  /** The first `n` nibbles of `w`, most significant first: take the top
      nibble, shift left by four, repeat. */
  function HexDigits(w: Word, n: nat): (s: seq<char>)
    ensures |s| == n
    ensures forall i | 0 <= i < n :: IsHexDigit(s[i])
    decreases n
  {
    if n == 0 then [] else [HexChar(Top(w))] + HexDigits(Shl4(w), n - 1)
  }

  /** What `word_to_hex` writes for `w`. */
  function HexWord(w: Word): (s: seq<char>)
    ensures |s| == 8
  {
    HexDigits(w, 8)
  }

  /** 16 to the power `7 - k`: the weight of nibble `k` counted from the
      most significant. */
  function Weight(k: nat): (p: nat)
    requires k < 8
    ensures p > 0
  {
    match k
    case 0 => 0x1000_0000
    case 1 => 0x100_0000
    case 2 => 0x10_0000
    case 3 => 0x1_0000
    case 4 => 0x1000
    case 5 => 0x100
    case 6 => 0x10
    case _ => 0x1
  }

  /** Nibble `k` of `w`, counting from the most significant:
      `(w >> (28 - 4k)) & 0xF`. */
  function Nibble(w: Word, k: nat): Nib
    requires k < 8
  {
    (w / Weight(k)) % 0x10
  }

  /** Shifting left by four moves nibble k + 1 to position k. */
  lemma Shl4Nibble(w: Word, k: nat)
    requires k < 7
    ensures Nibble(Shl4(w), k) == Nibble(w, k + 1)
  {
    Shl4Low(w);
    match k
    case 0 => Shl4Digit0(w);
    case 1 => Shl4Digit1(w);
    case 2 => Shl4Digit2(w);
    case 3 => Shl4Digit3(w);
    case 4 => Shl4Digit4(w);
    case 5 => Shl4Digit5(w);
    case _ => Shl4Digit6(w);
  }

  /** `w <<= 4` keeps the low 28 bits, moved up by four. */
  lemma Shl4Low(w: Word)
    ensures Shl4(w) == (w % 0x1000_0000) * 0x10
  {
    var a := w / 0x1000_0000;
    var b := w % 0x1000_0000;
    assert w * 0x10 == a * 0x1_0000_0000 + b * 0x10;
  }

  // Shl4Digit0 .. Shl4Digit6 are the one fact "nibble k + 1 becomes nibble k"
  // with Weight(k) written out as a literal: with the weight symbolic the
  // divisions are nonlinear and the solver does not close them, with a
  // literal weight each case is linear arithmetic. DivExact below splits on
  // k for the same reason.

  lemma Shl4Digit0(w: Word)
    ensures (((w % 0x1000_0000) * 0x10) / 0x1000_0000) % 0x10 == (w / 0x100_0000) % 0x10
  {
    var a, b := w / 0x1000_0000, w % 0x1000_0000;
    var q, r := b / 0x100_0000, b % 0x100_0000;
    assert (b * 0x10) / 0x1000_0000 == q by {
      assert b * 0x10 == q * 0x1000_0000 + r * 0x10;
    }
    assert w / 0x100_0000 == a * 0x10 + q by {
      assert w == (a * 0x10 + q) * 0x100_0000 + r;
    }
  }

  lemma Shl4Digit1(w: Word)
    ensures (((w % 0x1000_0000) * 0x10) / 0x100_0000) % 0x10 == (w / 0x10_0000) % 0x10
  {
    var a, b := w / 0x1000_0000, w % 0x1000_0000;
    var q, r := b / 0x10_0000, b % 0x10_0000;
    assert (b * 0x10) / 0x100_0000 == q by {
      assert b * 0x10 == q * 0x100_0000 + r * 0x10;
    }
    assert w / 0x10_0000 == a * 0x100 + q by {
      assert w == (a * 0x100 + q) * 0x10_0000 + r;
    }
  }

  lemma Shl4Digit2(w: Word)
    ensures (((w % 0x1000_0000) * 0x10) / 0x10_0000) % 0x10 == (w / 0x1_0000) % 0x10
  {
    var a, b := w / 0x1000_0000, w % 0x1000_0000;
    var q, r := b / 0x1_0000, b % 0x1_0000;
    assert (b * 0x10) / 0x10_0000 == q by {
      assert b * 0x10 == q * 0x10_0000 + r * 0x10;
    }
    assert w / 0x1_0000 == a * 0x1000 + q by {
      assert w == (a * 0x1000 + q) * 0x1_0000 + r;
    }
  }

  lemma Shl4Digit3(w: Word)
    ensures (((w % 0x1000_0000) * 0x10) / 0x1_0000) % 0x10 == (w / 0x1000) % 0x10
  {
    var a, b := w / 0x1000_0000, w % 0x1000_0000;
    var q, r := b / 0x1000, b % 0x1000;
    assert (b * 0x10) / 0x1_0000 == q by {
      assert b * 0x10 == q * 0x1_0000 + r * 0x10;
    }
    assert w / 0x1000 == a * 0x10000 + q by {
      assert w == (a * 0x10000 + q) * 0x1000 + r;
    }
  }

  lemma Shl4Digit4(w: Word)
    ensures (((w % 0x1000_0000) * 0x10) / 0x1000) % 0x10 == (w / 0x100) % 0x10
  {
    var a, b := w / 0x1000_0000, w % 0x1000_0000;
    var q, r := b / 0x100, b % 0x100;
    assert (b * 0x10) / 0x1000 == q by {
      assert b * 0x10 == q * 0x1000 + r * 0x10;
    }
    assert w / 0x100 == a * 0x100000 + q by {
      assert w == (a * 0x100000 + q) * 0x100 + r;
    }
  }

  lemma Shl4Digit5(w: Word)
    ensures (((w % 0x1000_0000) * 0x10) / 0x100) % 0x10 == (w / 0x10) % 0x10
  {
    var a, b := w / 0x1000_0000, w % 0x1000_0000;
    var q, r := b / 0x10, b % 0x10;
    assert (b * 0x10) / 0x100 == q by {
      assert b * 0x10 == q * 0x100 + r * 0x10;
    }
    assert w / 0x10 == a * 0x1000000 + q by {
      assert w == (a * 0x1000000 + q) * 0x10 + r;
    }
    assert (a * 0x1000000 + q) % 0x10 == q % 0x10 by {
      assert a * 0x1000000 + q == (a * 0x100000 + q / 0x10) * 0x10 + q % 0x10;
    }
  }

  lemma Shl4Digit6(w: Word)
    ensures (((w % 0x1000_0000) * 0x10) / 0x10) % 0x10 == w % 0x10
  {
    var a, b := w / 0x1000_0000, w % 0x1000_0000;
    var q, r := b / 0x1, b % 0x1;
    assert (b * 0x10) / 0x10 == q by {
      assert b * 0x10 == q * 0x10 + r * 0x10;
    }
    assert w / 0x1 == a * 0x10000000 + q by {
      assert w == (a * 0x10000000 + q) * 0x1 + r;
    }
  }

  /** Character `k` of the first `n` digits is nibble `k` of `w`. */
  lemma {:induction false} HexDigitsNibbles(w: Word, n: nat)
    requires n <= 8
    ensures forall k | 0 <= k < n :: HexDigits(w, n)[k] == HexChar(Nibble(w, k))
    decreases n
  {
    if n > 0 {
      HexDigitsNibbles(Shl4(w), n - 1);
      forall k | 0 <= k < n ensures HexDigits(w, n)[k] == HexChar(Nibble(w, k)) {
        if k > 0 {
          Shl4Nibble(w, k - 1);
          assert HexDigits(w, n)[k] == HexDigits(Shl4(w), n - 1)[k - 1];
        }
      }
    }
  }

  /** Character `k` of the word is nibble `(w >> (28 - 4k)) & 0xF`. */
  lemma HexWordNibbles(w: Word)
    ensures forall k | 0 <= k < 8 :: HexWord(w)[k] == HexChar(Nibble(w, k))
  {
    HexDigitsNibbles(w, 8);
  }

  // ===========================================================================
  // Reading the digits back
  // ===========================================================================

  /** The number a host reads from hex digits, most significant first. */
  function ParseHex(s: seq<char>): nat
    requires forall i | 0 <= i < |s| :: IsHexDigit(s[i])
    decreases |s|
  {
    if s == [] then 0 else ParseHex(s[..|s| - 1]) * 0x10 + DigitValue(s[|s| - 1])
  }

  /** Appending digit `d` to `x` is undone by `/ 16` and `% 16`. */
  lemma AppendDigit(x: nat, d: Nib)
    ensures (x * 0x10 + d) / 0x10 == x && (x * 0x10 + d) % 0x10 == d
  {
  }

  /** One more digit: the prefix read so far, times 16, plus the digit. */
  lemma ParseHexSnoc(s: seq<char>, k: nat)
    requires forall i | 0 <= i < |s| :: IsHexDigit(s[i])
    requires k < |s|
    ensures ParseHex(s[..k + 1]) == ParseHex(s[..k]) * 0x10 + DigitValue(s[k])
  {
    assert s[..k + 1][..k] == s[..k];
  }

  function Pow16(n: nat): (p: nat)
    ensures p > 0
  {
    if n == 0 then 1 else 0x10 * Pow16(n - 1)
  }

  /** `n` hex digits read as less than `16^n`. */
  lemma {:induction false} ParseHexBound(s: seq<char>)
    requires forall i | 0 <= i < |s| :: IsHexDigit(s[i])
    ensures ParseHex(s) < Pow16(|s|)
    decreases |s|
  {
    if s != [] {
      ParseHexBound(s[..|s| - 1]);
    }
  }

  /** `v / Weight(k)` for a `v` already split at that weight; the match
      makes each weight a literal. */
  lemma DivExact(v: int, p: int, r: int, k: nat)
    requires k < 8 && v == p * Weight(k) + r && 0 <= r < Weight(k)
    ensures v / Weight(k) == p
  {
    match k
    case 0 =>
    case 1 =>
    case 2 =>
    case 3 =>
    case 4 =>
    case 5 =>
    case 6 =>
    case _ =>
  }

  /** Dropping one more nibble is one more division by 16. */
  lemma DivStep(v: nat, k: nat)
    requires k < 7
    ensures v / Weight(k) == (v / Weight(k + 1)) / 0x10
  {
    var c := Weight(k + 1);
    var q := v / c;
    var r := v % c;
    var q2 := q / 0x10;
    var r2 := q % 0x10;
    assert Weight(k) == c * 0x10;
    assert v == q2 * (c * 0x10) + (r2 * c + r);
    assert 0 <= r2 * c + r < c * 0x10;
    DivExact(v, q2, r2 * c + r, k);
  }

  /** If `s` spells the nibbles of `w`, its first `k + 1` digits read as
      `w >> (28 - 4k)`. */
  lemma {:induction false} ParseHexNibblesPrefix(w: Word, s: seq<char>, k: nat)
    requires |s| == 8 && forall j | 0 <= j < 8 :: IsHexDigit(s[j]) && s[j] == HexChar(Nibble(w, j))
    requires k < 8
    ensures ParseHex(s[..k + 1]) == w / Weight(k)
    decreases k
  {
    var x := w / Weight(k);
    calc {
      ParseHex(s[..k + 1]);
      { ParseHexSnoc(s, k); }
      ParseHex(s[..k]) * 0x10 + DigitValue(s[k]);
      { DigitValueHexChar(Nibble(w, k)); }
      ParseHex(s[..k]) * 0x10 + x % 0x10;
      { if k == 0 {
          assert s[..0] == [];
        } else {
          ParseHexNibblesPrefix(w, s, k - 1);
          DivStep(w, k - 1);
        } }
      (x / 0x10) * 0x10 + x % 0x10;
      x;
    }
  }

  /** Reading the eight digits back gives the word. */
  lemma ParseHexWord(w: Word)
    ensures ParseHex(HexWord(w)) == w
  {
    HexWordNibbles(w);
    ParseHexNibbles(w, HexWord(w));
  }

  /** Eight digits spelling the nibbles of `w` read as `w`. */
  lemma ParseHexNibbles(w: Word, s: seq<char>)
    requires |s| == 8 && forall j | 0 <= j < 8 :: IsHexDigit(s[j]) && s[j] == HexChar(Nibble(w, j))
    ensures ParseHex(s) == w
  {
    ParseHexNibblesPrefix(w, s, 7);
    assert s[..8] == s;
    assert Weight(7) == 1;
  }

  /** Of eight digits read as `v`, the first `k + 1` read as
      `v >> (28 - 4k)`. */
  lemma {:induction false} ParseHexPrefixDiv(s: seq<char>, k: nat)
    requires |s| == 8 && forall i | 0 <= i < 8 :: IsHexDigit(s[i])
    requires k < 8
    ensures ParseHex(s) / Weight(k) == ParseHex(s[..k + 1])
    decreases 8 - k
  {
    if k == 7 {
      assert s[..8] == s;
    } else {
      var x, d := ParseHex(s[..k + 1]), DigitValue(s[k + 1]);
      calc {
        ParseHex(s) / Weight(k);
        { DivStep(ParseHex(s), k); }
        (ParseHex(s) / Weight(k + 1)) / 0x10;
        { ParseHexPrefixDiv(s, k + 1); }
        ParseHex(s[..k + 2]) / 0x10;
        { ParseHexSnoc(s, k + 1); }
        (x * 0x10 + d) / 0x10;
        { AppendDigit(x, d); }
        x;
      }
    }
  }

  /** Eight hex digits read as a `uint32_t`. */
  lemma ParseHexFitsWord(s: seq<char>)
    requires |s| == 8 && forall i | 0 <= i < 8 :: IsHexDigit(s[i])
    ensures ParseHex(s) < 0x1_0000_0000
  {
    ParseHexBound(s);
    assert Pow16(8) == 0x1_0000_0000;
  }

  /** Nibble `k` of what eight digits read as is the value of digit `k`. */
  lemma ParseHexNibble(s: seq<char>, k: nat)
    requires |s| == 8 && forall i | 0 <= i < 8 :: IsHexDigit(s[i])
    requires k < 8
    ensures ParseHex(s) < 0x1_0000_0000 && Nibble(ParseHex(s), k) == DigitValue(s[k])
  {
    ParseHexFitsWord(s);
    var x, d := ParseHex(s[..k]), DigitValue(s[k]);
    calc {
      Nibble(ParseHex(s), k);
      (ParseHex(s) / Weight(k)) % 0x10;
      { ParseHexPrefixDiv(s, k); }
      ParseHex(s[..k + 1]) % 0x10;
      { ParseHexSnoc(s, k); }
      (x * 0x10 + d) % 0x10;
      { AppendDigit(x, d); }
      d;
    }
  }

  /** Every eight-digit upper-case hex string is the rendering of the word
      it reads as, so `HexWord` and `ParseHex` are inverse bijections. */
  lemma HexWordParseHex(s: seq<char>)
    requires |s| == 8 && forall i | 0 <= i < 8 :: IsHexDigit(s[i])
    ensures ParseHex(s) < 0x1_0000_0000 && HexWord(ParseHex(s)) == s
  {
    ParseHexFitsWord(s);
    var w: Word := ParseHex(s);
    HexWordNibbles(w);
    forall k | 0 <= k < 8 ensures HexWord(w)[k] == s[k] {
      ParseHexNibble(s, k);
      HexCharDigitValue(s[k]);
    }
  }

  /** One turn of `word_to_hex`'s loop: with the digits still to write
      being those of `cur`, the next one is its top nibble and the rest
      are those of `cur << 4`. */
  lemma HexWordStep(w: Word, i: nat, cur: Word)
    requires i < 8 && HexWord(w)[i..] == HexDigits(cur, 8 - i)
    ensures HexWord(w)[i] == HexChar(Top(cur))
    ensures HexWord(w)[i + 1..] == HexDigits(Shl4(cur), 8 - i - 1)
  {
    assert HexWord(w)[i..][1..] == HexWord(w)[i + 1..];
  }

  /** A buffer that agrees with `before` outside `[off, off + |t|)` and
      holds `t` inside it is `before` with that range replaced by `t`. */
  lemma Splice(before: seq<char>, after: seq<char>, off: nat, t: seq<char>)
    requires |after| == |before| && off + |t| <= |before|
    requires forall j | 0 <= j < |after| :: after[j] == if off <= j < off + |t| then t[j - off] else before[j]
    ensures after == before[..off] + t + before[off + |t|..]
  {
  }

  /** `word_to_hex(w, &dst[off])`: writes the eight digits of `w` into
      `dst[off..off + 8]` and nothing else. */
  method WordToHex(w: Word, dst: array<char>, off: nat)
    requires off + 8 <= dst.Length
    modifies dst
    ensures dst[..] == old(dst[..])[..off] + HexWord(w) + old(dst[..])[off + 8..]
  {
    ghost var before := dst[..];
    var cur: Word := w;
    for i := 0 to 8
      invariant HexWord(w)[i..] == HexDigits(cur, 8 - i)
      invariant forall j | 0 <= j < dst.Length :: dst[j] == if off <= j < off + i then HexWord(w)[j - off] else before[j]
    {
      var nib := Top(cur);
      HexWordStep(w, i, cur);
      cur := Shl4(cur);
      dst[off + i] := if nib < 10 then ('0' as int + nib) as char else ('A' as int + (nib - 10)) as char;
      assert dst[off + i] == HexWord(w)[i];
    }
    Splice(before, dst[..], off, HexWord(w));
  }

  // ===========================================================================
  // The serial-number buffer
  // ===========================================================================

  const SERIAL_LEN: nat := 25

  /** `static char usb_serial[25] = "STM32 Unique ID";`: the text, then
      zero fill. */
  function InitialSerial(): (s: seq<char>)
    ensures |s| == SERIAL_LEN
    ensures s[..15] == "STM32 Unique ID"
    ensures forall i | 15 <= i < SERIAL_LEN :: s[i] == '\0'
  {
    "STM32 Unique ID" + seq(10, _ => '\0')
  }

  /** The string a C reader sees: everything before the first NUL. */
  function CString(s: seq<char>): (r: seq<char>)
    ensures |r| <= |s| && r == s[..|r|]
    ensures forall i | 0 <= i < |r| :: r[i] != '\0'
    ensures |r| < |s| ==> s[|r|] == '\0'
  {
    if s == [] || s[0] == '\0' then [] else [s[0]] + CString(s[1..])
  }

  lemma {:induction false} CStringOf(t: seq<char>, rest: seq<char>)
    requires forall i | 0 <= i < |t| :: t[i] != '\0'
    requires |rest| > 0 && rest[0] == '\0'
    ensures CString(t + rest) == t
  {
    if t != [] {
      CStringOf(t[1..], rest);
      assert (t + rest)[1..] == t[1..] + rest;
    } else {
      assert t + rest == rest;
    }
  }

  /** Before the unique ID is written, the serial string reads
      "STM32 Unique ID". */
  lemma InitialSerialString()
    ensures CString(InitialSerial()) == "STM32 Unique ID"
  {
    CStringOf("STM32 Unique ID", seq(10, _ => '\0'));
  }

  /** The text `usb_set_unique_serial` leaves: the words in the order
      uid[2], uid[1], uid[0], then the terminator. */
  function SerialText(uid: seq<Word>): (s: seq<char>)
    requires |uid| == 3
    ensures |s| == 24
  {
    HexWord(uid[2]) + HexWord(uid[1]) + HexWord(uid[0])
  }

  /** The serial text is 24 hex digits, and its three 8-digit groups read
      back as uid[2], uid[1] and uid[0]. */
  lemma SerialTextParses(uid: seq<Word>)
    requires |uid| == 3
    ensures forall i | 0 <= i < 24 :: IsHexDigit(SerialText(uid)[i])
    ensures ParseHex(SerialText(uid)[..8]) == uid[2]
    ensures ParseHex(SerialText(uid)[8..16]) == uid[1]
    ensures ParseHex(SerialText(uid)[16..]) == uid[0]
  {
    var s := SerialText(uid);
    assert s[..8] == HexWord(uid[2]);
    assert s[8..16] == HexWord(uid[1]);
    assert s[16..] == HexWord(uid[0]);
    ParseHexWord(uid[2]);
    ParseHexWord(uid[1]);
    ParseHexWord(uid[0]);
  }

  /** A C reader of the finished buffer sees exactly the 24 digits. */
  lemma SerialCString(uid: seq<Word>)
    requires |uid| == 3
    ensures CString(SerialText(uid) + ['\0']) == SerialText(uid)
  {
    SerialTextParses(uid);
    CStringOf(SerialText(uid), ['\0']);
  }

  /** The three `word_to_hex` calls and the terminator, one snapshot of the
      buffer after each, leave the serial text followed by NUL. */
  lemma SerialAssembly(uid: seq<Word>, b0: seq<char>, b1: seq<char>, b2: seq<char>, b3: seq<char>, b4: seq<char>)
    requires |uid| == 3 && |b0| == SERIAL_LEN
    requires b1 == b0[..0] + HexWord(uid[2]) + b0[8..]
    requires b2 == b1[..8] + HexWord(uid[1]) + b1[16..]
    requires b3 == b2[..16] + HexWord(uid[0]) + b2[24..]
    requires b4 == b3[24 := '\0']
    ensures b4 == SerialText(uid) + ['\0']
  {
    assert b2[..8] == HexWord(uid[2]);
    assert b3[..8] == HexWord(uid[2]) && b3[8..16] == HexWord(uid[1]) && b3[16..24] == HexWord(uid[0]);
    assert b4 == b3[..8] + b3[8..16] + b3[16..24] + ['\0'];
  }

  /** `usb_serial`, the third string of the device. */
  class SerialBuffer {
    const buf: array<char>

    constructor ()
      ensures fresh(buf) && buf[..] == InitialSerial()
    {
      buf := new char[SERIAL_LEN](i => if 0 <= i < SERIAL_LEN then InitialSerial()[i] else '\0');
    }

    /** `usb_set_unique_serial`, with the unique ID as an argument: writes
        uid[2], uid[1] and uid[0] at offsets 0, 8 and 16 and NUL at 24, all
        inside the 25-character buffer. */
    method SetUniqueSerial(uid: seq<Word>)
      requires |uid| == 3 && buf.Length == SERIAL_LEN
      modifies buf
      ensures buf[..] == SerialText(uid) + ['\0']
      ensures CString(buf[..]) == SerialText(uid)
    {
      ghost var b0 := buf[..];
      WordToHex(uid[2], buf, 0);
      ghost var b1 := buf[..];
      WordToHex(uid[1], buf, 8);
      ghost var b2 := buf[..];
      WordToHex(uid[0], buf, 16);
      ghost var b3 := buf[..];
      buf[24] := '\0';
      SerialAssembly(uid, b0, b1, b2, b3, buf[..]);
      SerialCString(uid);
    }
  }
}
