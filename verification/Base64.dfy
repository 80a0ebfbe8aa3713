/**
 The Base64 encoder that keeps its unread bits in one `int`, against section 4 of RFC 4648.
 */
module Base64 {
  import opened Basics

  type Byte = x: int | 0 <= x < 256

  type Sextet = x: int | 0 <= x < 64

  type Letters = Sextet -> char

  type Values = char -> Option<Sextet>

  /** The letters are distinct, none is the padding, and `value` reads them back. */
  ghost predicate Alphabet(letter: Letters, value: Values) {
    && (forall v: Sextet :: Reads(letter, value, v))
    && (forall c: char :: value(c).Some? ==> letter(value(c).value) == c)
  }

  predicate Reads(letter: Letters, value: Values, v: Sextet) {
    value(letter(v)) == Some(v) && letter(v) != '='
  }

  // ---------- the four ways in which a letter straddles bytes ----------

  function First(a: Byte): Sextet { a / 4 }

  function Second(a: Byte, b: Byte): Sextet { a % 4 * 16 + b / 16 }

  function Third(b: Byte, c: Byte): Sextet { b % 16 * 4 + c / 64 }

  function Fourth(c: Byte): Sextet { c % 64 }

  /** The three bytes that four letters give back. */
  function Back(p: Sextet, q: Sextet): Byte { p * 4 + q / 16 }

  function Middle(q: Sextet, r: Sextet): Byte { q % 16 * 16 + r / 4 }

  function Final(r: Sextet, t: Sextet): Byte { r % 4 * 64 + t }

  lemma BytesToLetters(a: Byte, b: Byte, c: Byte)
    ensures Back(First(a), Second(a, b)) == a
    ensures Middle(Second(a, b), Third(b, c)) == b
    ensures Final(Third(b, c), Fourth(c)) == c
    ensures Second(a, 0) % 16 == 0 && Third(b, 0) % 4 == 0
  {
  }

  lemma OneByteToLetters(a: Byte)
    ensures Back(First(a), Second(a, 0)) == a && Second(a, 0) % 16 == 0
  {
  }

  lemma OneByteBack(p: Sextet, q: Sextet)
    requires q % 16 == 0
    ensures First(Back(p, q)) == p && Second(Back(p, q), 0) == q
  {
  }

  lemma LettersToBytes(p: Sextet, q: Sextet, r: Sextet, t: Sextet)
    ensures First(Back(p, q)) == p
    ensures Second(Back(p, q), Middle(q, r)) == q
    ensures Third(Middle(q, r), Final(r, t)) == r
    ensures Fourth(Final(r, t)) == t
    ensures q % 16 == 0 ==> Second(Back(p, q), 0) == q
    ensures r % 4 == 0 ==> Third(Middle(q, r), 0) == r
  {
  }

  // ---------- section 4 of RFC 4648 ----------

  /** Three bytes are four letters; one or two bytes at the end are padded with `=`. */
  function Encoding(letter: Letters, bytes: seq<Byte>): string {
    if |bytes| == 0 then ""
    else if |bytes| == 1 then [letter(First(bytes[0])), letter(Second(bytes[0], 0)), '=', '=']
    else if |bytes| == 2 then
      [letter(First(bytes[0])), letter(Second(bytes[0], bytes[1])), letter(Third(bytes[1], 0)), '=']
    else Quad(letter, bytes[0], bytes[1], bytes[2]) + Encoding(letter, bytes[3..])
  }

  function Quad(letter: Letters, a: Byte, b: Byte, c: Byte): string {
    [letter(First(a)), letter(Second(a, b)), letter(Third(b, c)), letter(Fourth(c))]
  }

  /** The strict decoder: padding only at the end, and the bits it hides are zero. */
  function Decoded(value: Values, s: string): Option<seq<Byte>> {
    if |s| == 0 then Some([])
    else if |s| < 4 then None
    else if |s| == 4 && s[3] == '=' then PaddedEnd(value, s)
    else
      var head, rest := Quartet(value, s), Decoded(value, s[4..]);
      if head.None? || rest.None? then None else Some(head.value + rest.value)
  }

  function Quartet(value: Values, s: string): Option<seq<Byte>>
    requires |s| >= 4
  {
    var a, b, c, d := value(s[0]), value(s[1]), value(s[2]), value(s[3]);
    if a.None? || b.None? || c.None? || d.None? then None
    else Some([Back(a.value, b.value), Middle(b.value, c.value), Final(c.value, d.value)])
  }

  function PaddedEnd(value: Values, s: string): Option<seq<Byte>>
    requires |s| == 4
  {
    var a, b, c := value(s[0]), value(s[1]), value(s[2]);
    if a.None? || b.None? then None
    else if s[2] == '=' then if b.value % 16 == 0 then Some([Back(a.value, b.value)]) else None
    else if c.None? || c.value % 4 != 0 then None
    else Some([Back(a.value, b.value), Middle(b.value, c.value)])
  }

  lemma QuadDecodes(letter: Letters, value: Values, a: Byte, b: Byte, c: Byte, rest: string)
    requires Alphabet(letter, value)
    ensures var tail := Decoded(value, rest);
            Decoded(value, Quad(letter, a, b, c) + rest) == if tail.None? then None else Some([a, b, c] + tail.value)
  {
    BytesToLetters(a, b, c);
    assert Reads(letter, value, First(a));
    assert Reads(letter, value, Second(a, b));
    assert Reads(letter, value, Third(b, c));
    assert Reads(letter, value, Fourth(c));
    var s := Quad(letter, a, b, c) + rest;
    assert s[4..] == rest;
  }

  lemma OneDecodes(letter: Letters, value: Values, a: Byte)
    requires Alphabet(letter, value)
    ensures Decoded(value, Encoding(letter, [a])) == Some([a])
  {
    OneByteToLetters(a);
    var p, q := First(a), Second(a, 0);
    assert Reads(letter, value, p) && Reads(letter, value, q);
    assert Encoding(letter, [a]) == [letter(p), letter(q), '=', '='];
    assert PaddedEnd(value, [letter(p), letter(q), '=', '=']) == Some([Back(p, q)]);
  }

  lemma TwoDecode(letter: Letters, value: Values, a: Byte, b: Byte)
    requires Alphabet(letter, value)
    ensures Decoded(value, Encoding(letter, [a, b])) == Some([a, b])
  {
    BytesToLetters(a, b, 0);
    assert Reads(letter, value, First(a));
    assert Reads(letter, value, Second(a, b));
    assert Reads(letter, value, Third(b, 0));
    assert Encoding(letter, [a, b]) == [letter(First(a)), letter(Second(a, b)), letter(Third(b, 0)), '='];
  }

  lemma {:induction false} DecodedEncoding(letter: Letters, value: Values, bytes: seq<Byte>)
    requires Alphabet(letter, value)
    ensures Decoded(value, Encoding(letter, bytes)) == Some(bytes)
  {
    if |bytes| >= 3 {
      DecodedEncoding(letter, value, bytes[3..]);
      QuadDecodes(letter, value, bytes[0], bytes[1], bytes[2], Encoding(letter, bytes[3..]));
      assert bytes == [bytes[0], bytes[1], bytes[2]] + bytes[3..];
    } else if |bytes| == 2 {
      TwoDecode(letter, value, bytes[0], bytes[1]);
      assert bytes == [bytes[0], bytes[1]];
    } else if |bytes| == 1 {
      OneDecodes(letter, value, bytes[0]);
      assert bytes == [bytes[0]];
    }
  }

  lemma QuartetIsQuad(letter: Letters, value: Values, s: string)
    requires Alphabet(letter, value) && |s| >= 4 && Quartet(value, s).Some?
    ensures var b := Quartet(value, s).value; s[..4] == Quad(letter, b[0], b[1], b[2])
  {
    LettersToBytes(value(s[0]).value, value(s[1]).value, value(s[2]).value, value(s[3]).value);
  }

  lemma PaddedIsEncoding(letter: Letters, value: Values, s: string)
    requires Alphabet(letter, value) && |s| == 4 && s[3] == '=' && PaddedEnd(value, s).Some?
    ensures s == Encoding(letter, PaddedEnd(value, s).value)
  {
    var p, q := value(s[0]).value, value(s[1]).value;
    if s[2] == '=' {
      OneByteBack(p, q);
      assert s == [letter(First(Back(p, q))), letter(Second(Back(p, q), 0)), '=', '='];
    } else {
      var r := value(s[2]).value;
      LettersToBytes(p, q, r, 0);
      assert s == [letter(First(Back(p, q))), letter(Second(Back(p, q), Middle(q, r))), letter(Third(Middle(q, r), 0)), '='];
    }
  }

  /** Nothing else decodes to these bytes. */
  lemma {:induction false} EncodingIsUnique(letter: Letters, value: Values, s: string, bytes: seq<Byte>)
    requires Alphabet(letter, value) && Decoded(value, s) == Some(bytes)
    ensures s == Encoding(letter, bytes)
    decreases |s|
  {
    if |s| == 0 {
    } else if |s| == 4 && s[3] == '=' {
      PaddedIsEncoding(letter, value, s);
    } else {
      QuartetIsQuad(letter, value, s);
      EncodingIsUnique(letter, value, s[4..], bytes[3..]);
      assert s == s[..4] + s[4..];
    }
  }

  lemma {:induction false} EncodingLength(letter: Letters, bytes: seq<Byte>)
    ensures |Encoding(letter, bytes)| == 4 * ((|bytes| + 2) / 3)
  {
    if |bytes| >= 3 {
      EncodingLength(letter, bytes[3..]);
      assert (|bytes[3..]| + 2) / 3 + 1 == (|bytes| + 2) / 3;
    }
  }

  // ---------- the letters that are out before the padding ----------

  /** Letters whose six bits are complete. */
  function Whole(letter: Letters, bytes: seq<Byte>): string {
    if |bytes| == 0 then ""
    else if |bytes| == 1 then [letter(First(bytes[0]))]
    else if |bytes| == 2 then [letter(First(bytes[0])), letter(Second(bytes[0], bytes[1]))]
    else Quad(letter, bytes[0], bytes[1], bytes[2]) + Whole(letter, bytes[3..])
  }

  /** How many bytes of the current group of three are in. */
  function Phase(n: nat): (p: nat)
    ensures p < 3
  {
    if n < 3 then n else Phase(n - 3)
  }

  lemma {:induction false} NextPhase(n: nat)
    ensures Phase(n + 1) == if Phase(n) == 2 then 0 else Phase(n) + 1
  {
    if n >= 3 { NextPhase(n - 3); }
  }

  /** The letters that byte number `i` completes, after the byte `last`. */
  function Completed(letter: Letters, i: nat, last: Byte, c: Byte): string {
    if Phase(i) == 0 then [letter(First(c))]
    else if Phase(i) == 1 then [letter(Second(last, c))]
    else [letter(Third(last, c)), letter(Fourth(c))]
  }

  function Last(bytes: seq<Byte>): Byte {
    if |bytes| == 0 then 0 else bytes[|bytes| - 1]
  }

  lemma {:induction false} WholeGrows(letter: Letters, bytes: seq<Byte>, c: Byte)
    ensures Whole(letter, bytes + [c]) == Whole(letter, bytes) + Completed(letter, |bytes|, Last(bytes), c)
  {
    var more := bytes + [c];
    if |bytes| >= 3 {
      assert more[3..] == bytes[3..] + [c];
      WholeGrows(letter, bytes[3..], c);
      assert Completed(letter, |bytes|, Last(bytes), c) == Completed(letter, |bytes[3..]|, Last(bytes[3..]), c);
    } else if |bytes| == 2 {
      assert more[3..] == [];
      assert Whole(letter, more[3..]) == "";
    }
  }

  /** The unfinished letter. */
  function Half(letter: Letters, n: nat, last: Byte): string {
    if Phase(n) == 0 then "" else if Phase(n) == 1 then [letter(Second(last, 0))] else [letter(Third(last, 0))]
  }

  function Pads(n: nat): string {
    if Phase(n) == 0 then "" else if Phase(n) == 1 then "==" else "="
  }

  lemma {:induction false} WholeHalfPads(letter: Letters, bytes: seq<Byte>)
    ensures Encoding(letter, bytes) == Whole(letter, bytes) + Half(letter, |bytes|, Last(bytes)) + Pads(|bytes|)
  {
    if |bytes| >= 3 {
      var rest := bytes[3..];
      WholeHalfPads(letter, rest);
      assert Half(letter, |bytes|, Last(bytes)) == Half(letter, |rest|, Last(rest));
      assert Pads(|bytes|) == Pads(|rest|);
    }
  }

  // ---------- the accumulator ----------

  /** A 32-bit two's complement `int`, or no limit at all. */
  function Hold(v: int, narrow: bool): (r: int)
    ensures r % 0x1_0000 == v % 0x1_0000
  {
    if narrow then (v + 0x8000_0000) % 0x1_0000_0000 - 0x8000_0000 else v
  }

  /** The arithmetic shift `val >> k`. */
  function ShiftRight(val: int, k: nat): int
    decreases k
  {
    if k == 0 then val else ShiftRight(val / 2, k - 1)
  }

  function SixBits(val: int, k: nat): Sextet {
    ShiftRight(val, k) % 64
  }

  /** The letters the inner loop emits from bit `k` down. */
  function Drain(letter: Letters, val: int, k: int): string
    decreases k + 6
  {
    if k < 0 then "" else [letter(SixBits(val, k))] + Drain(letter, val, k - 6)
  }

  function Spare(n: nat): int {
    if Phase(n) == 0 then -6 else if Phase(n) == 1 then -4 else -2
  }

  lemma Shifts(val: int)
    ensures ShiftRight(val, 2) == val / 4 && ShiftRight(val, 4) == val / 16 && ShiftRight(val, 6) == val / 64
  {
    assert ShiftRight(val, 1) == val / 2;
    assert ShiftRight(val, 2) == ShiftRight(val / 2, 1) == val / 2 / 2;
    assert ShiftRight(val / 4, 2) == ShiftRight(val / 4 / 2, 1) == val / 4 / 2 / 2;
    assert ShiftRight(val / 16, 2) == ShiftRight(val / 16 / 2, 1) == val / 16 / 2 / 2;
    assert ShiftRight(val, 4) == ShiftRight(val / 2, 3) == ShiftRight(val / 4, 2);
    assert ShiftRight(val, 6) == ShiftRight(val / 2, 5) == ShiftRight(val / 4, 4);
    assert ShiftRight(val / 4, 4) == ShiftRight(val / 4 / 2, 3) == ShiftRight(val / 16, 2);
  }

  lemma MultipleIsFar(k: int, d: int)
    requires d > 0
    ensures k >= 1 ==> k * d >= d
    ensures k <= -1 ==> k * d <= -d
  {
    if k >= 1 {
      assert (k - 1) * d >= 0;
    } else if k <= -1 {
      assert (-k - 1) * d >= 0;
    }
  }

  lemma DivMod(n: int, d: int, q: int, r: int)
    requires 0 <= r < d && n == q * d + r
    ensures n / d == q && n % d == r
  {
    var p := n / d;
    assert n - p * d == n % d;
    assert (q - p) * d == n % d - r;
    MultipleIsFar(q - p, d);
  }

  lemma LowSix(q: int, b: Byte, c: Byte)
    ensures var val := q * 0x1_0000 + b * 256 + c; val % 64 == Fourth(c) && val / 64 % 64 == Third(b, c)
  {
    DivMod(q * 0x1_0000 + b * 256 + c, 64, q * 1024 + b * 4 + c / 64, c % 64);
    DivMod(q * 1024 + b * 4 + c / 64, 64, q * 16 + b / 16, b % 16 * 4 + c / 64);
  }

  lemma HighSix(q: int, b: Byte, c: Byte)
    ensures var val := q * 0x1_0000 + b * 256 + c; val / 4 % 64 == First(c) && val / 16 % 64 == Second(b, c)
  {
    DivMod(q * 0x1_0000 + b * 256 + c, 4, q * 16384 + b * 64 + c / 4, c % 4);
    DivMod(q * 16384 + b * 64 + c / 4, 64, q * 256 + b, c / 4);
    DivMod(q * 0x1_0000 + b * 256 + c, 16, q * 4096 + b * 16 + c / 16, c % 16);
    DivMod(q * 4096 + b * 16 + c / 16, 64, q * 64 + b / 4, b % 4 * 16 + c / 16);
  }

  /** What the shifts of at most six see of an accumulator that ends in the bytes `b` and `c`. */
  lemma LowBits(val: int, b: Byte, c: Byte)
    requires val % 0x1_0000 == b * 256 + c
    ensures SixBits(val, 0) == Fourth(c) && SixBits(val, 2) == First(c)
    ensures SixBits(val, 4) == Second(b, c) && SixBits(val, 6) == Third(b, c)
  {
    Shifts(val);
    LowSix(val / 0x1_0000, b, c);
    HighSix(val / 0x1_0000, b, c);
  }

  lemma DrainSteps(letter: Letters, val: int)
    ensures Drain(letter, val, 2) == [letter(SixBits(val, 2))]
    ensures Drain(letter, val, 4) == [letter(SixBits(val, 4))]
    ensures Drain(letter, val, 6) == [letter(SixBits(val, 6)), letter(SixBits(val, 0))]
  {
    assert Drain(letter, val, -6) == Drain(letter, val, -4) == Drain(letter, val, -2) == "";
    assert Drain(letter, val, 0) == [letter(SixBits(val, 0))];
  }

  lemma LastTwoBytes(val: int)
    ensures val % 0x1_0000 == val / 256 % 256 * 256 + val % 256
  {
    DivMod(val, 0x1_0000, val / 256 / 256, val / 256 % 256 * 256 + val % 256);
  }

  lemma DrainCompletes(letter: Letters, i: nat, last: Byte, c: Byte, val: int)
    requires if Phase(i) == 0 then val % 256 == c else val % 0x1_0000 == last * 256 + c
    ensures Drain(letter, val, Spare(i) + 8) == Completed(letter, i, last, c)
  {
    DrainSteps(letter, val);
    if Phase(i) == 0 {
      LastTwoBytes(val);
      LowBits(val, val / 256 % 256, c);
    } else {
      LowBits(val, last, c);
    }
  }

  /** One byte more: the two lowest bytes of the accumulator. */
  function Take(val: int, c: Byte, narrow: bool): (r: int)
    ensures r % 0x1_0000 == val % 256 * 256 + c
    ensures r % 256 == c
  {
    ShiftIn(val, Hold(val * 256, narrow), c, Hold(Hold(val * 256, narrow) + c, narrow));
    Hold(Hold(val * 256, narrow) + c, narrow)
  }

  lemma ShiftIn(val: int, high: int, c: Byte, r: int)
    requires high % 0x1_0000 == val * 256 % 0x1_0000 && r % 0x1_0000 == (high + c) % 0x1_0000
    ensures r % 0x1_0000 == val % 256 * 256 + c && r % 256 == c
  {
    DivMod(val * 256, 0x1_0000, val / 256, val % 256 * 256);
    DivMod(high + c, 0x1_0000, high / 0x1_0000, val % 256 * 256 + c);
    DivMod(r, 256, r / 0x1_0000 * 256 + val % 256, c);
  }

  lemma ByteIsOut(letter: Letters, bytes: seq<Byte>, c: Byte, val: int)
    requires if |bytes| == 0 then val % 256 == c else val % 0x1_0000 == Last(bytes) * 256 + c
    ensures Whole(letter, bytes + [c]) == Whole(letter, bytes) + Drain(letter, val, Spare(|bytes|) + 8)
  {
    DivMod(val, 256, val / 0x1_0000 * 256 + val % 0x1_0000 / 256, val % 0x1_0000 % 256);
    DrainCompletes(letter, |bytes|, Last(bytes), c, val);
    WholeGrows(letter, bytes, c);
  }

  lemma NextByteIsOut(letter: Letters, bytes: seq<Byte>, i: nat, val: int)
    requires i < |bytes|
    requires val % 256 == bytes[i] && val % 0x1_0000 == Last(bytes[..i]) * 256 + bytes[i]
    ensures Whole(letter, bytes[..i + 1]) == Whole(letter, bytes[..i]) + Drain(letter, val, Spare(i) + 8)
    ensures Last(bytes[..i + 1]) == bytes[i]
    ensures Spare(i + 1) == if Spare(i) == -2 then -6 else Spare(i) + 2
  {
    ByteIsOut(letter, bytes[..i], bytes[i], val);
    NextPhase(i);
    assert bytes[..i + 1] == bytes[..i] + [bytes[i]];
  }

  lemma HalfIsOut(letter: Letters, n: nat, last: Byte, high: int)
    requires Phase(n) != 0 && high % 0x1_0000 == last * 256
    ensures Half(letter, n, last) == [letter(SixBits(high, Spare(n) + 8))]
  {
    LowBits(high, last, 0);
  }

  /** `out` lacks nothing of `full` but padding. */
  ghost predicate Padded(out: string, full: string) {
    |full| % 4 == 0 && (full == out || full == out + "=" || full == out + "==")
  }

  lemma PadStep(out: string, full: string)
    requires Padded(out, full)
    ensures |out| % 4 != 0 ==> Padded(out + "=", full) && |out| < |full|
    ensures |out| % 4 == 0 ==> out == full
  {
    assert out + "==" == out + "=" + "=";
  }

  lemma PadsMissing(out: string, n: nat, full: string)
    requires full == out + Pads(n) && |full| % 4 == 0
    ensures Padded(out, full)
  {
  }

  /** The letters before the padding. */
  method EncodeLetters(letter: Letters, bytes: seq<Byte>, narrow: bool) returns (out: string)
    ensures out == Whole(letter, bytes) + Half(letter, |bytes|, Last(bytes))
  {
    out := "";
    var val, valb := 0, -6;
    for i := 0 to |bytes|
      invariant valb == Spare(i)
      invariant val % 256 == Last(bytes[..i])
      invariant out == Whole(letter, bytes[..i])
    {
      val := Take(val, bytes[i], narrow);
      valb := valb + 8;
      ghost var base, top := out, valb;
      while valb >= 0
        invariant valb == top || valb == top - 6 || (valb == top - 12 && top == 6)
        invariant out + Drain(letter, val, valb) == base + Drain(letter, val, top)
      {
        out := out + [letter(SixBits(val, valb))];
        valb := valb - 6;
      }
      NextByteIsOut(letter, bytes, i, val);
    }
    assert bytes[..|bytes|] == bytes;
    if valb > -6 {
      var high := Take(val, 0, narrow);
      HalfIsOut(letter, |bytes|, Last(bytes), high);
      out := out + [letter(SixBits(high, valb + 8))];
    }
  }

  /** The encoder is right whether its accumulator wraps at 32 bits or never does. */
  method Encode(letter: Letters, bytes: seq<Byte>, narrow: bool) returns (out: string)
    ensures out == Encoding(letter, bytes)
  {
    out := EncodeLetters(letter, bytes, narrow);
    ghost var full := Encoding(letter, bytes);
    WholeHalfPads(letter, bytes);
    EncodingLength(letter, bytes);
    PadsMissing(out, |bytes|, full);
    while |out| % 4 != 0
      invariant Padded(out, full)
      decreases |full| - |out|
    {
      PadStep(out, full);
      out := out + "=";
    }
    PadStep(out, full);
  }

  // ---------- table 1 of RFC 4648 ----------

  function StandardLetter(v: Sextet): char {
    if v < 26 then 'A' + v as char
    else if v < 52 then 'a' + (v - 26) as char
    else if v < 62 then '0' + (v - 52) as char
    else if v == 62 then '+'
    else '/'
  }

  function StandardValue(c: char): Option<Sextet> {
    if 'A' <= c <= 'Z' then Some(c as int - 'A' as int)
    else if 'a' <= c <= 'z' then Some(26 + (c as int - 'a' as int))
    else if '0' <= c <= '9' then Some(52 + (c as int - '0' as int))
    else if c == '+' then Some(62)
    else if c == '/' then Some(63)
    else None
  }

  lemma StandardAlphabet()
    ensures Alphabet(StandardLetter, StandardValue)
  {
  }

  // ---------- the letters as numbers ----------

  /** Four letters are the digits, to base 64, of the number that the three bytes are to base 256; the ends are shifted up. */
  lemma LettersAreDigits(a: Byte, b: Byte, c: Byte)
    ensures ((First(a) * 64 + Second(a, b)) * 64 + Third(b, c)) * 64 + Fourth(c) == (a * 256 + b) * 256 + c
    ensures (First(a) * 64 + Second(a, b)) * 64 + Third(b, 0) == (a * 256 + b) * 4
    ensures First(a) * 64 + Second(a, 0) == a * 16
  {
  }

  /** Test vectors of section 10 of RFC 4648. */
  lemma TestVectors()
    ensures Encoding(StandardLetter, [102, 111, 111, 98]) == "Zm9vYg=="
    ensures Encoding(StandardLetter, [102, 111, 111, 98, 97]) == "Zm9vYmE="
    ensures Encoding(StandardLetter, [102, 111, 111, 98, 97, 114]) == "Zm9vYmFy"
  {
  }
}
