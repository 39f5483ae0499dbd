/**
 The HTTP response reader: the header loop, the choice of body framing, and the loops that
 read a fixed-length, a chunked or an unframed body.

 A stream is the bytes the peer sends before it closes the connection; a byte is a character
 below 256, and a text is its UTF-8 bytes. `usize` is 64 bits wide.
 */
module HttpReader {
  import opened Wrappers

  const MAX_HEADER := 64 * 1024
  const MAX_BODY := 100 * 1024 * 1024
  const USIZE := 0x1_0000_0000_0000_0000

  /** Addition of two `usize` values in a release build. */
  function WrappingAdd(a: nat, b: nat): nat {
    if a + b >= USIZE then a + b - USIZE else a + b
  }

  // ---------- lines and UTF-8 ----------

  /** The first position of `c`, or the length when there is none. */
  function Index(s: string, c: char): (i: nat)
    ensures i <= |s| && c !in s[..i] && (i < |s| ==> s[i] == c)
  {
    if s == "" || s[0] == c then 0
    else
      var i := Index(s[1..], c);
      assert s[..i + 1] == [s[0]] + s[1..][..i];
      i + 1
  }

  function LineLength(s: string): (n: nat)
    ensures n <= |s| && (s != "" ==> n > 0)
  {
    var i := Index(s, '\n');
    if i < |s| then i + 1 else i
  }

  function Line(s: string): string { s[..LineLength(s)] }

  function AfterLine(s: string): string { s[LineLength(s)..] }

  predicate Continues(s: string, n: nat) {
    |s| > n && forall i | 1 <= i <= n :: 0x80 <= s[i] as int <= 0xBF
  }

  /** The length of the well-formed UTF-8 sequence at the front, or 0 (table 3-7 of the Unicode standard). */
  function CharLength(s: string): (k: nat)
    requires s != ""
    ensures k <= |s|
  {
    var b := s[0] as int;
    if b < 0x80 then 1
    else if 0xC2 <= b <= 0xDF && Continues(s, 1) then 2
    else if 0xE0 <= b <= 0xEF && Continues(s, 2)
      && (b == 0xE0 ==> s[1] as int >= 0xA0) && (b == 0xED ==> s[1] as int <= 0x9F) then 3
    else if 0xF0 <= b <= 0xF4 && Continues(s, 3)
      && (b == 0xF0 ==> s[1] as int >= 0x90) && (b == 0xF4 ==> s[1] as int <= 0x8F) then 4
    else 0
  }

  predicate Utf8(s: string) {
    s == "" || (CharLength(s) > 0 && Utf8(s[CharLength(s)..]))
  }

  /** A Unicode scalar value: a code point that is no surrogate. */
  predicate IsScalar(c: int) {
    0 <= c < 0xD800 || 0xE000 <= c < 0x11_0000
  }

  /** The UTF-8 bytes of a scalar value. */
  function EncodeScalar(c: int): string
    requires IsScalar(c)
  {
    if c < 0x80 then [c as char]
    else if c < 0x800 then [(0xC0 + c / 0x40) as char, (0x80 + c % 0x40) as char]
    else if c < 0x1_0000 then
      [(0xE0 + c / 0x1000) as char, (0x80 + c / 0x40 % 0x40) as char, (0x80 + c % 0x40) as char]
    else
      [(0xF0 + c / 0x4_0000) as char, (0x80 + c / 0x1000 % 0x40) as char,
       (0x80 + c / 0x40 % 0x40) as char, (0x80 + c % 0x40) as char]
  }

  predicate AllScalars(text: seq<int>) {
    forall i | 0 <= i < |text| :: IsScalar(text[i])
  }

  function EncodeText(text: seq<int>): string
    requires AllScalars(text)
  {
    if text == [] then "" else EncodeScalar(text[0]) + EncodeText(text[1..])
  }

  lemma TwoBytes(s: string, c: int)
    requires 0x80 <= c < 0x800 && |s| >= 2
    requires s[0] == (0xC0 + c / 0x40) as char && s[1] == (0x80 + c % 0x40) as char
    ensures CharLength(s) == 2
  {
    assert 0xC2 <= s[0] as int <= 0xDF;
  }

  lemma ThreeBytes(s: string, c: int)
    requires 0x800 <= c < 0x1_0000 && IsScalar(c) && |s| >= 3
    requires s[0] == (0xE0 + c / 0x1000) as char && s[1] == (0x80 + c / 0x40 % 0x40) as char && s[2] == (0x80 + c % 0x40) as char
    ensures CharLength(s) == 3
  {
    var b0, b1 := c / 0x1000, c / 0x40 % 0x40;
    assert c / 0x40 == b0 * 0x40 + b1;
    assert 0xE0 <= s[0] as int <= 0xEF && Continues(s, 2);
    assert b0 == 0 ==> b1 >= 0x20;
    assert b0 == 0xD ==> b1 <= 0x1F;
  }

  lemma FourBytes(s: string, c: int)
    requires 0x1_0000 <= c < 0x11_0000 && |s| >= 4
    requires s[0] == (0xF0 + c / 0x4_0000) as char && s[1] == (0x80 + c / 0x1000 % 0x40) as char
    requires s[2] == (0x80 + c / 0x40 % 0x40) as char && s[3] == (0x80 + c % 0x40) as char
    ensures CharLength(s) == 4
  {
    var b0, b1 := c / 0x4_0000, c / 0x1000 % 0x40;
    assert c / 0x1000 == b0 * 0x40 + b1;
    assert 0xF0 <= s[0] as int <= 0xF4 && Continues(s, 3);
    assert b0 == 0 ==> b1 >= 0x10;
    assert b0 == 4 ==> b1 <= 0xF;
  }

  lemma EncodedLength(c: int, rest: string)
    requires IsScalar(c)
    ensures |EncodeScalar(c)| > 0 && CharLength(EncodeScalar(c) + rest) == |EncodeScalar(c)|
  {
    var s := EncodeScalar(c) + rest;
    if c < 0x80 {
      assert s[0] == c as char;
    } else {
      hide CharLength;
      if c < 0x800 {
        TwoBytes(s, c);
      } else if c < 0x1_0000 {
        ThreeBytes(s, c);
      } else {
        FourBytes(s, c);
      }
    }
  }

  function DecodeScalar(s: string): int
    requires s != "" && CharLength(s) > 0
  {
    var b := s[0] as int;
    match CharLength(s)
    case 1 => b
    case 2 => (b - 0xC0) * 0x40 + (s[1] as int - 0x80)
    case 3 => (b - 0xE0) * 0x1000 + (s[1] as int - 0x80) * 0x40 + (s[2] as int - 0x80)
    case _ => (b - 0xF0) * 0x4_0000 + (s[1] as int - 0x80) * 0x1000 + (s[2] as int - 0x80) * 0x40 + (s[3] as int - 0x80)
  }

  /** A number is told from its base-64 digits. */
  lemma SixBitDigits(a: nat, b: nat, c: nat, d: nat)
    requires b < 0x40 && c < 0x40 && d < 0x40
    ensures var n := a * 0x4_0000 + b * 0x1000 + c * 0x40 + d;
      n / 0x4_0000 == a && n / 0x1000 % 0x40 == b && n / 0x40 % 0x40 == c && n % 0x40 == d && n / 0x1000 == a * 0x40 + b
  {
    var n := a * 0x4_0000 + b * 0x1000 + c * 0x40 + d;
    assert n / 0x40 == a * 0x1000 + b * 0x40 + c;
    assert n / 0x1000 == a * 0x40 + b;
  }

  lemma DecodedIsEncoded(s: string)
    requires s != "" && CharLength(s) > 0
    ensures IsScalar(DecodeScalar(s)) && EncodeScalar(DecodeScalar(s)) == s[..CharLength(s)]
  {
    var k := CharLength(s);
    if k == 1 {
      assert s[..1] == [s[0]];
    } else if k == 2 {
      DecodedTwo(s);
    } else if k == 3 {
      DecodedThree(s);
    } else {
      DecodedFour(s);
    }
  }

  lemma DecodedTwo(s: string)
    requires s != "" && CharLength(s) == 2
    ensures IsScalar(DecodeScalar(s)) && EncodeScalar(DecodeScalar(s)) == s[..2]
  {
    var c := DecodeScalar(s);
    assert s[..2] == [s[0], s[1]] && 0x80 <= c < 0x800;
    assert c / 0x40 == s[0] as int - 0xC0 && c % 0x40 == s[1] as int - 0x80;
  }

  lemma DecodedThree(s: string)
    requires s != "" && CharLength(s) == 3
    ensures IsScalar(DecodeScalar(s)) && EncodeScalar(DecodeScalar(s)) == s[..3]
  {
    var c := DecodeScalar(s);
    assert s[..3] == [s[0], s[1], s[2]] && 0x800 <= c < 0x1_0000;
    SixBitDigits(0, s[0] as int - 0xE0, s[1] as int - 0x80, s[2] as int - 0x80);
  }

  lemma DecodedFour(s: string)
    requires s != "" && CharLength(s) == 4
    ensures IsScalar(DecodeScalar(s)) && EncodeScalar(DecodeScalar(s)) == s[..4]
  {
    var c := DecodeScalar(s);
    assert s[..4] == [s[0], s[1], s[2], s[3]] && 0x1_0000 <= c < 0x11_0000;
    SixBitDigits(s[0] as int - 0xF0, s[1] as int - 0x80, s[2] as int - 0x80, s[3] as int - 0x80);
  }

  lemma {:induction false} EncodedTextIsUtf8(text: seq<int>)
    requires AllScalars(text)
    ensures Utf8(EncodeText(text))
  {
    hide CharLength, EncodeScalar;
    if text != [] {
      var rest := EncodeText(text[1..]);
      EncodedLength(text[0], rest);
      EncodedTextIsUtf8(text[1..]);
      assert (EncodeScalar(text[0]) + rest)[|EncodeScalar(text[0])|..] == rest;
    }
  }

  lemma {:induction false} Utf8IsEncodedText(s: string) returns (text: seq<int>)
    requires Utf8(s)
    ensures AllScalars(text) && EncodeText(text) == s
    decreases |s|
  {
    hide CharLength, EncodeScalar, DecodeScalar, IsScalar;
    if s == "" {
      text := [];
    } else {
      var k := CharLength(s);
      var rest := Utf8IsEncodedText(s[k..]);
      DecodedIsEncoded(s);
      text := [DecodeScalar(s)] + rest;
      assert text[1..] == rest && s[..k] + s[k..] == s;
    }
  }

  /** A byte string is accepted exactly if it encodes a sequence of Unicode scalar values. */
  lemma Utf8Iff(s: string)
    ensures Utf8(s) <==> exists text: seq<int> :: AllScalars(text) && EncodeText(text) == s
  {
    if Utf8(s) {
      var text := Utf8IsEncodedText(s);
    }
    forall text: seq<int> | AllScalars(text) && EncodeText(text) == s
      ensures Utf8(s)
    {
      EncodedTextIsUtf8(text);
    }
  }

  predicate Ascii(s: string) {
    forall i | 0 <= i < |s| :: s[i] < 128 as char
  }

  lemma {:induction false} AsciiIsUtf8(s: string)
    requires Ascii(s)
    ensures Utf8(s)
  {
    if s != "" {
      AsciiIsUtf8(s[1..]);
    }
  }

  lemma {:induction false} IndexIs(s: string, c: char, k: nat)
    requires k < |s| && s[k] == c && c !in s[..k]
    ensures Index(s, c) == k
  {
    if k > 0 {
      assert s[0] == s[..k][0];
      assert s[1..][..k - 1] == s[..k][1..];
      IndexIs(s[1..], c, k - 1);
    }
  }

  lemma LineOfTerminated(text: string, tail: string)
    requires '\n' !in text
    ensures Line(text + "\n" + tail) == text + "\n" && AfterLine(text + "\n" + tail) == tail
  {
    var s := text + "\n" + tail;
    assert s[..|text|] == text;
    IndexIs(s, '\n', |text|);
    assert s[..|text| + 1] == text + "\n" && s[|text| + 1..] == tail;
  }

  // ---------- numbers ----------

  /** One white-space character of Unicode, in UTF-8. */
  predicate IsSpace(s: string) {
    || (|s| == 1 && (9 <= s[0] as int <= 13 || s[0] == ' '))
    || (|s| == 2 && s[0] as int == 0xC2 && (s[1] as int == 0x85 || s[1] as int == 0xA0))
    || (|s| == 3 && s[0] as int == 0xE1 && s[1] as int == 0x9A && s[2] as int == 0x80)
    || (|s| == 3 && s[0] as int == 0xE2 && s[1] as int == 0x80
        && (0x80 <= s[2] as int <= 0x8A || s[2] as int == 0xA8 || s[2] as int == 0xA9 || s[2] as int == 0xAF))
    || (|s| == 3 && s[0] as int == 0xE2 && s[1] as int == 0x81 && s[2] as int == 0x9F)
    || (|s| == 3 && s[0] as int == 0xE3 && s[1] as int == 0x80 && s[2] as int == 0x80)
  }

  function SpaceAtFront(s: string): (k: nat)
    ensures k <= |s|
  {
    if |s| >= 1 && IsSpace(s[..1]) then 1
    else if |s| >= 2 && IsSpace(s[..2]) then 2
    else if |s| >= 3 && IsSpace(s[..3]) then 3
    else 0
  }

  function SpaceAtBack(s: string): (k: nat)
    ensures k <= |s|
  {
    if |s| >= 1 && IsSpace(s[|s| - 1..]) then 1
    else if |s| >= 2 && IsSpace(s[|s| - 2..]) then 2
    else if |s| >= 3 && IsSpace(s[|s| - 3..]) then 3
    else 0
  }

  function TrimStart(s: string): string {
    if SpaceAtFront(s) == 0 then s else TrimStart(s[SpaceAtFront(s)..])
  }

  function TrimEnd(s: string): string {
    if SpaceAtBack(s) == 0 then s else TrimEnd(s[..|s| - SpaceAtBack(s)])
  }

  function Trim(s: string): string {
    TrimEnd(TrimStart(s))
  }

  function Digit(c: char): nat {
    if '0' <= c <= '9' then c as int - '0' as int
    else if 'a' <= c <= 'f' then c as int - 'a' as int + 10
    else if 'A' <= c <= 'F' then c as int - 'A' as int + 10
    else 255
  }

  predicate AllDigits(s: string, radix: nat) {
    forall i | 0 <= i < |s| :: Digit(s[i]) < radix
  }

  function Value(s: string, radix: nat): nat {
    if s == "" then 0 else Value(s[..|s| - 1], radix) * radix + Digit(s[|s| - 1])
  }

  /** The number a text stands for, if it is one that fits; a leading plus sign is allowed. */
  function Parse(s: string, radix: nat, max: nat): Option<nat> {
    var digits := if s != "" && s[0] == '+' then s[1..] else s;
    if digits == "" || !AllDigits(digits, radix) || Value(digits, radix) > max then None
    else Some(Value(digits, radix))
  }

  const DIGITS := "0123456789abcdef"

  /** How a number is written. */
  function Numeral(n: nat, radix: nat): string
    requires 2 <= radix <= 16
  {
    if n < radix then [DIGITS[n]] else Numeral(n / radix, radix) + [DIGITS[n % radix]]
  }

  lemma DigitOfNumeral(d: nat, c: char)
    requires d < 16 && Lower([c]) == [DIGITS[d]]
    ensures Digit(c) == d
  {
    assert Lower([c])[0] == DIGITS[d];
  }

  lemma QuotientAndRemainder(n: nat, radix: nat)
    requires radix > 0
    ensures n / radix * radix + n % radix == n && 0 <= n % radix < radix
  {
  }

  lemma LastDigit(text: string, init: string, d: nat, radix: nat)
    requires 2 <= radix <= 16 && d < radix && Lower(text) == init + [DIGITS[d]]
    ensures text != "" && Lower(text[..|text| - 1]) == init && Digit(text[|text| - 1]) == d
  {
    var k := |text| - 1;
    assert |Lower(text)| == |text| == |init| + 1 && Lower(text)[k] == DIGITS[d];
    assert Lower([text[k]])[0] == Lower(text)[k];
    DigitOfNumeral(d, text[k]);
    assert Lower(text[..k]) == Lower(text)[..k];
  }

  /** A number reads back as itself, whatever the case of its letters. */
  lemma {:induction false} NumeralIsRead(n: nat, radix: nat, text: string)
    requires 2 <= radix <= 16 && Lower(text) == Numeral(n, radix)
    ensures text != "" && AllDigits(text, radix) && Value(text, radix) == n
    decreases n
  {
    hide Lower, Digit;
    QuotientAndRemainder(n, radix);
    if n < radix {
      assert Lower(text) == "" + [DIGITS[n]];
      LastDigit(text, "", n, radix);
      EmptyFolds(text[..|text| - 1]);
    } else {
      QuotientShrinks(n, radix);
      LastDigit(text, Numeral(n / radix, radix), n % radix, radix);
      NumeralIsRead(n / radix, radix, text[..|text| - 1]);
    }
  }

  lemma EmptyFolds(s: string)
    requires Lower(s) == ""
    ensures s == ""
  {
    assert |Lower(s)| == |s|;
  }

  lemma QuotientShrinks(n: nat, radix: nat)
    requires 2 <= radix <= n
    ensures n / radix < n
  {
    var q := n / radix;
    QuotientAndRemainder(n, radix);
    ProductGrows(q, radix - 1);
    assert q * radix == q + q * (radix - 1);
  }

  lemma ProductGrows(a: nat, b: nat)
    requires b > 0
    ensures a <= a * b
  {
    assert a * b == a + a * (b - 1);
  }

  lemma {:induction false} PrefixValue(s: string, i: nat, radix: nat)
    requires i <= |s| && radix > 0
    ensures Value(s[..i], radix) <= Value(s, radix)
    decreases |s|
  {
    if i < |s| {
      var init := s[..|s| - 1];
      assert init[..i] == s[..i];
      PrefixValue(init, i, radix);
      ProductGrows(Value(init, radix), radix);
    } else {
      assert s[..i] == s;
    }
  }

  /** Digit by digit with overflow checks: the same as comparing the whole value with the maximum. */
  method FromStrRadix(s: string, radix: nat, max: nat) returns (r: Option<nat>)
    requires 2 <= radix <= 16
    ensures r == Parse(s, radix, max)
  {
    hide Digit;
    var digits := if s != "" && s[0] == '+' then s[1..] else s;
    if digits == "" {
      return None;
    }
    var value := 0;
    var i := 0;
    while i < |digits|
      invariant 0 <= i <= |digits|
      invariant AllDigits(digits[..i], radix)
      invariant value == Value(digits[..i], radix) <= max
    {
      var d := Digit(digits[i]);
      assert digits[..i + 1][..i] == digits[..i];
      PrefixValue(digits, i + 1, radix);
      if d >= radix || value * radix + d > max {
        return None;
      }
      value := value * radix + d;
      i := i + 1;
    }
    assert digits[..i] == digits;
    r := Some(value);
  }

  // ---------- the buffered reader ----------

  class BufReader {
    var rest: string

    constructor (stream: string)
      ensures rest == stream
    {
      rest := stream;
    }

    /** Up to and including the next line feed, or to the end of the stream. */
    method ReadLine() returns (r: Result<string>)
      modifies this
      ensures r == if Utf8(Line(old(rest))) then Ok(Line(old(rest))) else Err("invalid UTF-8")
      ensures rest == AfterLine(old(rest))
    {
      var n := 0;
      while n < |rest| && (n == 0 || rest[n - 1] != '\n')
        invariant 0 <= n <= LineLength(rest)
        invariant n == LineLength(rest) <==> n == |rest| || (n > 0 && rest[n - 1] == '\n')
        invariant rest == old(rest)
      {
        LineStops(rest, n);
        n := n + 1;
      }
      var line := rest[..n];
      rest := rest[n..];
      r := if Utf8(line) then Ok(line) else Err("invalid UTF-8");
    }

    /** `n` bytes through a buffer of 8192, or nothing but the rest of the stream. */
    method ReadExactly(n: nat) returns (ok: bool)
      modifies this
      ensures ok <==> n <= |old(rest)|
      ensures rest == if ok then old(rest)[n..] else ""
    {
      var remaining := n;
      while remaining > 0
        invariant 0 <= remaining <= n <= |old(rest)| + remaining
        invariant rest == old(rest)[n - remaining..]
      {
        var toRead := if remaining < 8192 then remaining else 8192;
        if |rest| < toRead {
          rest := "";
          return false;
        }
        rest := rest[toRead..];
        remaining := remaining - toRead;
      }
      ok := true;
    }

    /** Some bytes, at most 8192; none only at the end of the stream. */
    method ReadSome() returns (n: nat)
      modifies this
      ensures n <= 8192 && n <= |old(rest)| && rest == old(rest)[n..]
      ensures n == 0 <==> old(rest) == ""
    {
      if rest == "" {
        return 0;
      }
      n :| 1 <= n <= 8192 && n <= |rest|;
      rest := rest[n..];
    }

    method ReadHeaders(firstByte: char) returns (r: Result<string>)
      modifies this
      ensures (r, rest) == Head(FirstText(firstByte), old(rest))
    {
      var header := FirstText(firstByte);
      while true
        invariant Head(header, rest) == Head(FirstText(firstByte), old(rest))
        decreases |rest|
      {
        if |header| + 1024 > MAX_HEADER {
          return Err("headers too large");
        }
        var line := ReadLine();
        if line.Err? {
          return line;
        }
        header := header + line.value;
        if |header| > MAX_HEADER {
          return Err("headers too large");
        }
        if |line.value| == 2 && header[|header| - 1] == '\n' {
          return Ok(header);
        }
        if line.value == "" {
          return Ok(header);
        }
      }
    }

    method ReadChunked() returns (r: Result<nat>, ghost rounds: nat)
      modifies this
      ensures Body(r, rest, rounds) == Dechunk(old(rest), 0)
    {
      hide Utf8, Parse, Trim, LineLength;
      var total: nat := 0;
      rounds := 0;
      ghost var all := Dechunk(rest, 0);
      NoSizeAtTheEnd();
      while true
        invariant Later(Dechunk(rest, total), rounds) == all
        decreases |rest|
      {
        rounds := rounds + 1;
        var line := ReadLine();
        if line.Err? {
          return Err(line.message), rounds;
        }
        var size := FromStrRadix(Trim(line.value), 16, USIZE - 1);
        if size.None? {
          return Err("invalid chunk size"), rounds;
        }
        if size.value == 0 {
          var _ := ReadLine();
          return Ok(total), rounds;
        }
        if WrappingAdd(total, size.value) > MAX_BODY {
          return Err("body too large"), rounds;
        }
        var ok := ReadExactly(size.value);
        if !ok {
          return Err("unexpected end of stream"), rounds;
        }
        total := WrappingAdd(total, size.value);
        line := ReadLine();
        if line.Err? {
          return Err(line.message), rounds;
        }
      }
    }

    /** Everything until the connection closes, in reads of any size. */
    method ReadUntilClose() returns (r: Result<nat>)
      modifies this
      ensures r == if |old(rest)| <= MAX_BODY then Ok(|old(rest)|) else Err("body too large")
      ensures r.Ok? ==> rest == ""
    {
      var total := 0;
      while true
        invariant total <= MAX_BODY && total + |rest| == |old(rest)|
        decreases |rest|
      {
        var n := ReadSome();
        if n == 0 {
          return Ok(total);
        }
        if total + n > MAX_BODY {
          return Err("body too large");
        }
        total := total + n;
      }
    }

    method ReadBody(f: Framing) returns (r: Result<nat>)
      modifies this
      ensures r == BodyOf(f, old(rest)).0
      ensures r.Ok? ==> rest == BodyOf(f, old(rest)).1
      ensures f.Refused? ==> r.Err? && rest == old(rest)
      ensures f.Fixed? ==> (r.Ok? <==> f.length <= |old(rest)|)
      ensures f.Fixed? && r.Ok? ==> r.value == f.length && rest == old(rest)[f.length..]
      ensures f.UntilClose? ==> (r.Ok? <==> |old(rest)| <= MAX_BODY)
      ensures f.UntilClose? && r.Ok? ==> r.value == |old(rest)| && rest == ""
    {
      match f
      case Refused => r := Err("body too large");
      case Fixed(n) =>
        var ok := ReadExactly(n);
        r := if ok then Ok(n) else Err("unexpected end of stream");
      case Chunked =>
        ghost var rounds;
        r, rounds := ReadChunked();
      case UntilClose => r := ReadUntilClose();
    }

    /** The whole response after its first byte: the status and the number of body bytes read. */
    method Download(firstByte: char) returns (r: Result<(nat, nat)>)
      modifies this
      ensures r == Respond(FirstText(firstByte), old(rest)).0
      ensures r.Ok? ==> rest == Respond(FirstText(firstByte), old(rest)).1
    {
      var header := ReadHeaders(firstByte);
      if header.Err? {
        return Err(header.message);
      }
      var h := ParseHeaders(Lines(header.value));
      if h.status.None? {
        return Err("invalid http status line");
      }
      var body := ReadBody(FramingOf(h));
      r := if body.Ok? then Ok((h.status.value, body.value)) else Err(body.message);
    }
  }

  lemma LineStops(s: string, n: nat)
    requires n < LineLength(s)
    ensures n + 1 == LineLength(s) <==> n + 1 == |s| || s[n] == '\n'
  {
    var i := Index(s, '\n');
    if n < i {
      assert s[..i][n] != '\n';
    }
  }

  // ---------- headers ----------

  /** The first byte was read apart and pushed as a character. */
  function FirstText(b: char): string {
    if b < 128 as char then [b]
    else [(0xC0 + b as int / 64 % 64) as char, (0x80 + b as int % 64) as char]
  }

  lemma FirstByteIsEncoded(b: char)
    requires b < 256 as char
    ensures FirstText(b) == EncodeScalar(b as int)
  {
  }

  datatype HeadRound = HeadStop(result: Result<string>, rest: string) | HeadMore(header: string, rest: string)

  /** One round of the header loop. */
  function HeadStep(header: string, s: string): (r: HeadRound)
    ensures r.HeadMore? ==> |r.rest| < |s|
  {
    var longer := header + Line(s);
    if |header| + 1024 > MAX_HEADER then HeadStop(Err("headers too large"), s)
    else if !Utf8(Line(s)) then HeadStop(Err("invalid UTF-8"), AfterLine(s))
    else if |longer| > MAX_HEADER then HeadStop(Err("headers too large"), AfterLine(s))
    else if (|Line(s)| == 2 && Line(s)[1] == '\n') || Line(s) == "" then HeadStop(Ok(longer), AfterLine(s))
    else HeadMore(longer, AfterLine(s))
  }

  /** The header text read from a stream, and what is left of the stream. */
  function Head(header: string, s: string): (Result<string>, string)
    decreases |s|
  {
    match HeadStep(header, s)
    case HeadStop(result, rest) => (result, rest)
    case HeadMore(longer, rest) => Head(longer, rest)
  }

  function Concat(lines: seq<string>): string {
    if lines == [] then "" else lines[0] + Concat(lines[1..])
  }

  /** A header line of at least one character before its CRLF. */
  predicate IsField(line: string) {
    |line| > 2 && line[|line| - 2..] == "\r\n" && '\n' !in line[..|line| - 1] && Utf8(line)
  }

  lemma EmptyLine(tail: string)
    ensures Line("\r\n" + tail) == "\r\n" && AfterLine("\r\n" + tail) == tail && Utf8("\r\n")
  {
    assert "\r\n" + tail == "\r" + "\n" + tail;
    LineOfTerminated("\r", tail);
    AsciiIsUtf8("\r\n");
  }

  /** Any line that does not end the header: neither two bytes long nor empty. */
  predicate IsHeaderLine(line: string) {
    line != "" && |line| != 2 && line[|line| - 1] == '\n' && '\n' !in line[..|line| - 1] && Utf8(line)
  }

  /** The line that ends the header: a line feed after any one byte. */
  predicate EndsHeader(line: string) {
    |line| == 2 && line[0] != '\n' && line[1] == '\n' && Utf8(line)
  }

  lemma TerminatedLine(line: string, tail: string)
    requires line != "" && line[|line| - 1] == '\n' && '\n' !in line[..|line| - 1]
    ensures Line(line + tail) == line && AfterLine(line + tail) == tail
  {
    var text := line[..|line| - 1];
    assert line == text + "\n";
    LineOfTerminated(text, tail);
  }

  lemma FieldIsHeaderLine(line: string)
    requires IsField(line)
    ensures IsHeaderLine(line)
  {
    assert line[|line| - 1] == line[|line| - 2..][1] == '\n';
  }

  lemma EndLineEndsHead(header: string, end: string, tail: string)
    requires |header| + 1024 <= MAX_HEADER && EndsHeader(end)
    ensures HeadStep(header, end + tail) == HeadStop(Ok(header + end), tail)
  {
    TerminatedLine(end, tail);
  }

  lemma LineContinuesHead(header: string, line: string, next: string)
    requires IsHeaderLine(line) && |header| + |line| + 1024 <= MAX_HEADER
    ensures HeadStep(header, line + next) == HeadMore(header + line, next)
  {
    TerminatedLine(line, next);
  }

  lemma HeadStops(header: string, s: string, result: Result<string>, rest: string)
    requires HeadStep(header, s) == HeadStop(result, rest)
    ensures Head(header, s) == (result, rest)
  {
  }

  lemma HeadContinues(header: string, s: string, longer: string, rest: string, all: (Result<string>, string))
    requires HeadStep(header, s) == HeadMore(longer, rest) && Head(longer, rest) == all
    ensures Head(header, s) == all
  {
  }

  /** Lines that fit are read one by one, whatever follows them. */
  lemma {:induction false} HeadReadsLines(header: string, lines: seq<string>, next: string)
    requires forall i | 0 <= i < |lines| :: IsHeaderLine(lines[i])
    requires |header| + |Concat(lines)| + 1024 <= MAX_HEADER
    ensures Head(header, Concat(lines) + next) == Head(header + Concat(lines), next)
    decreases |lines|
  {
    hide HeadStep, IsHeaderLine, Head;
    if lines == [] {
      assert Concat(lines) + next == next && header + Concat(lines) == header;
    } else {
      var rest := Concat(lines[1..]) + next;
      assert Concat(lines) + next == lines[0] + rest;
      LineContinuesHead(header, lines[0], rest);
      HeadReadsLines(header + lines[0], lines[1..], next);
      assert header + lines[0] + Concat(lines[1..]) == header + Concat(lines);
      HeadContinues(header, lines[0] + rest, header + lines[0], rest, Head(header + Concat(lines), next));
    }
  }

  /** Header lines that fit are read up to the line of two bytes, and no byte of the body is touched. */
  lemma HeadEndsAtTwoBytes(header: string, lines: seq<string>, end: string, tail: string)
    requires forall i | 0 <= i < |lines| :: IsHeaderLine(lines[i])
    requires EndsHeader(end) && |header| + |Concat(lines)| + 1024 <= MAX_HEADER
    ensures Head(header, Concat(lines) + (end + tail)) == (Ok(header + Concat(lines) + end), tail)
  {
    hide Head, Concat, EndsHeader, IsHeaderLine, HeadStep;
    HeadReadsLines(header, lines, end + tail);
    EndLineEndsHead(header + Concat(lines), end, tail);
    HeadStops(header + Concat(lines), end + tail, Ok(header + Concat(lines) + end), tail);
  }

  /** The usual case: fields with CRLF, and an empty line. */
  lemma HeadEndsAtEmptyLine(header: string, lines: seq<string>, tail: string)
    requires forall i | 0 <= i < |lines| :: IsField(lines[i])
    requires |header| + |Concat(lines)| + 1024 <= MAX_HEADER
    ensures Head(header, Concat(lines) + ("\r\n" + tail)) == (Ok(header + Concat(lines) + "\r\n"), tail)
  {
    hide IsField, Head, Concat, IsHeaderLine;
    forall i | 0 <= i < |lines|
      ensures IsHeaderLine(lines[i])
    {
      FieldIsHeaderLine(lines[i]);
    }
    AsciiIsUtf8("\r\n");
    HeadEndsAtTwoBytes(header, lines, "\r\n", tail);
  }

  /** A stream that ends after its header lines counts as a header too. */
  lemma HeadEndsWithStream(header: string, lines: seq<string>)
    requires forall i | 0 <= i < |lines| :: IsHeaderLine(lines[i])
    requires |header| + |Concat(lines)| + 1024 <= MAX_HEADER
    ensures Head(header, Concat(lines)) == (Ok(header + Concat(lines)), "")
  {
    hide Concat, IsHeaderLine;
    HeadReadsLines(header, lines, "");
    assert Concat(lines) + "" == Concat(lines);
    assert Line("") == "" && AfterLine("") == "" && header + Concat(lines) + "" == header + Concat(lines);
  }

  /** A line that is not UTF-8 is an error. */
  lemma HeadRefusesInvalidLine(header: string, lines: seq<string>, text: string, tail: string)
    requires forall i | 0 <= i < |lines| :: IsHeaderLine(lines[i])
    requires |header| + |Concat(lines)| + 1024 <= MAX_HEADER && '\n' !in text && !Utf8(text + "\n")
    ensures Head(header, Concat(lines) + (text + "\n" + tail)) == (Err("invalid UTF-8"), tail)
  {
    hide Concat, IsHeaderLine, Utf8;
    HeadReadsLines(header, lines, text + "\n" + tail);
    LineOfTerminated(text, tail);
  }

  /** Header lines that leave no room for another kilobyte are refused, wherever that happens and whatever follows. */
  lemma {:induction false} HeadTooLarge(header: string, lines: seq<string>, next: string)
    requires forall i | 0 <= i < |lines| :: IsHeaderLine(lines[i])
    requires |header| + |Concat(lines)| + 1024 > MAX_HEADER
    ensures Head(header, Concat(lines) + next).0 == Err("headers too large")
    decreases |lines|
  {
    if lines != [] && |header| + 1024 <= MAX_HEADER {
      var rest := Concat(lines[1..]) + next;
      assert Concat(lines) + next == lines[0] + rest;
      TerminatedLine(lines[0], rest);
      HeadTooLarge(header + lines[0], lines[1..], next);
    }
  }

  /** Whatever the peer sends, the header text that is accepted stays within its limit. */
  lemma {:induction false} HeadIsBounded(header: string, s: string)
    ensures Head(header, s).0.Ok? ==> |header| <= |Head(header, s).0.value| <= MAX_HEADER
    ensures |Head(header, s).1| <= |s|
    decreases |s|
  {
    match HeadStep(header, s)
    case HeadStop(_, _) =>
    case HeadMore(longer, rest) => HeadIsBounded(longer, rest);
  }

  function Chomp(line: string): string {
    if line == "" || line[|line| - 1] != '\n' then line
    else
      var text := line[..|line| - 1];
      if text != "" && text[|text| - 1] == '\r' then text[..|text| - 1] else text
  }

  function Lines(s: string): seq<string> {
    if s == "" then [] else [Chomp(Line(s))] + Lines(AfterLine(s))
  }

  function Lower(s: string): string {
    seq(|s|, i requires 0 <= i < |s| => if 'A' <= s[i] <= 'Z' then (s[i] as int + 32) as char else s[i])
  }

  /** Folding leaves no capital and changes nothing else. */
  lemma LowerFolds(s: string)
    ensures |Lower(s)| == |s|
    ensures forall i | 0 <= i < |s| :: !('A' <= Lower(s)[i] <= 'Z')
    ensures forall i | 0 <= i < |s| && Lower(s)[i] != s[i] ::
      s[i] in "ABCDEFGHIJKLMNOPQRSTUVWXYZ" && Lower(s)[i] as int - 'a' as int == s[i] as int - 'A' as int
  {
    forall i | 0 <= i < |s| && Lower(s)[i] != s[i]
      ensures s[i] in "ABCDEFGHIJKLMNOPQRSTUVWXYZ"
    {
      assert s[i] == "ABCDEFGHIJKLMNOPQRSTUVWXYZ"[s[i] as int - 'A' as int];
    }
  }

  predicate Contains(s: string, part: string) {
    exists i | 0 <= i <= |s| :: part <= s[i..]
  }

  function WordLength(s: string): (n: nat)
    ensures n <= |s|
  {
    if s == "" || SpaceAtFront(s) > 0 then 0 else 1 + WordLength(s[1..])
  }

  /** The second of the words that white space separates. */
  function SecondWord(line: string): string {
    var words := TrimStart(line);
    var rest := TrimStart(words[WordLength(words)..]);
    rest[..WordLength(rest)]
  }

  /** What stands between the first colon and the second, or the end. */
  function SecondField(line: string): string {
    var i := Index(line, ':');
    if i == |line| then "" else line[i + 1..][..Index(line[i + 1..], ':')]
  }

  function StatusOf(line: string): Option<nat> {
    if "http/" <= Lower(line) then Parse(SecondWord(line), 10, 65535) else None
  }

  function LengthOf(line: string): Option<nat> {
    if "content-length:" <= Lower(line) then Parse(Trim(SecondField(line)), 10, USIZE - 1) else None
  }

  predicate SaysChunked(line: string) {
    Contains(Lower(line), "transfer-encoding") && Contains(Lower(line), "chunked")
  }

  datatype Headers = Headers(status: Option<nat>, length: Option<nat>, chunked: bool)

  /** `r` is what the first line says that says anything. */
  ghost predicate IsFirst(f: string -> Option<nat>, lines: seq<string>, r: Option<nat>) {
    match r
    case None => forall i | 0 <= i < |lines| :: f(lines[i]) == None
    case Some(_) => exists i | 0 <= i < |lines| :: f(lines[i]) == r && forall j | 0 <= j < i :: f(lines[j]) == None
  }

  function First(f: string -> Option<nat>, lines: seq<string>): Option<nat> {
    if lines == [] then None
    else
      var before := First(f, lines[..|lines| - 1]);
      if before != None then before else f(lines[|lines| - 1])
  }

  lemma {:induction false} FirstIsFirst(f: string -> Option<nat>, lines: seq<string>)
    ensures IsFirst(f, lines, First(f, lines))
    decreases |lines|
  {
    if lines != [] {
      var init := lines[..|lines| - 1];
      FirstIsFirst(f, init);
      forall i | 0 <= i < |init| ensures init[i] == lines[i] {}
    }
  }

  predicate AnyChunked(lines: seq<string>) {
    lines != [] && (AnyChunked(lines[..|lines| - 1]) || SaysChunked(lines[|lines| - 1]))
  }

  function Parsed(lines: seq<string>): Headers {
    Headers(First(StatusOf, lines), First(LengthOf, lines), AnyChunked(lines))
  }

  /** One pass over the header lines: the first line that parses gives the status, and so for the length. */
  method ParseHeaders(lines: seq<string>) returns (h: Headers)
    ensures h == Parsed(lines)
  {
    var status, length, chunked := None, None, false;
    var n := 0;
    while n < |lines|
      invariant 0 <= n <= |lines|
      invariant Headers(status, length, chunked) == Parsed(lines[..n])
    {
      var line := lines[n];
      assert lines[..n + 1][..n] == lines[..n];
      if status == None && "http/" <= Lower(line) {
        status := FromStrRadix(SecondWord(line), 10, 65535);
      }
      if length == None && "content-length:" <= Lower(line) {
        length := FromStrRadix(Trim(SecondField(line)), 10, USIZE - 1);
      }
      if !chunked && SaysChunked(line) {
        chunked := true;
      }
      n := n + 1;
    }
    assert lines[..n] == lines;
    h := Headers(status, length, chunked);
  }

  // ---------- what well-formed header lines say ----------

  lemma {:induction false} AnyChunkedMeans(lines: seq<string>)
    ensures AnyChunked(lines) <==> exists i :: 0 <= i < |lines| && SaysChunked(lines[i])
  {
    if lines != [] {
      var init := lines[..|lines| - 1];
      AnyChunkedMeans(init);
      forall i | 0 <= i < |init| ensures init[i] == lines[i] {}
    }
  }

  lemma {:induction false} IndexOfNone(s: string, c: char)
    requires c !in s
    ensures Index(s, c) == |s|
  {
    if s != "" {
      IndexOfNone(s[1..], c);
    }
  }

  /** Optional white space: spaces and tabs. */
  predicate IsOws(pad: string) {
    forall i | 0 <= i < |pad| :: pad[i] == ' ' || pad[i] == '\t'
  }

  lemma {:induction false} PadIsTrimmed(pad: string, text: string)
    requires IsOws(pad) && text != "" && Digit(text[0]) < 16
    ensures TrimStart(pad + text) == text
  {
    if pad == "" {
      assert pad + text == text;
      DigitIsNoSpace(text);
    } else {
      assert (pad + text)[..1] == [pad[0]] && (pad + text)[1..] == pad[1..] + text;
      PadIsTrimmed(pad[1..], text);
    }
  }

  lemma OwsAtBack(s: string)
    requires s != "" && IsOws(s[|s| - 1..])
    ensures SpaceAtBack(s) == 1
  {
    assert s[|s| - 1..] == [s[|s| - 1]] && IsSpace([s[|s| - 1]]);
  }

  lemma {:induction false} EndPadIsTrimmed(text: string, pad: string)
    requires IsOws(pad) && text != "" && Digit(text[|text| - 1]) < 16
    ensures TrimEnd(text + pad) == text
  {
    hide SpaceAtBack, Digit;
    if pad == "" {
      assert text + pad == text;
      DigitIsNoSpace(text);
    } else {
      var s, n := text + pad, |pad| - 1;
      assert s[|s| - 1..] == [pad[n]] && s[..|s| - 1] == text + pad[..n];
      OwsAtBack(s);
      EndPadIsTrimmed(text, pad[..n]);
    }
  }

  lemma PaddedNumberIsTrimmed(before: string, digits: string, after: string)
    requires IsOws(before) && IsOws(after) && digits != "" && AllDigits(digits, 10)
    ensures Trim(before + digits + after) == digits
  {
    hide Digit, TrimStart, TrimEnd, IsOws;
    assert Digit(digits[0]) < 16 && Digit(digits[|digits| - 1]) < 16;
    assert before + digits + after == before + (digits + after);
    PadIsTrimmed(before, digits + after);
    EndPadIsTrimmed(digits, after);
  }

  lemma NumberIsParsed(digits: string, radix: nat, max: nat)
    requires digits != "" && radix <= 16 && AllDigits(digits, radix)
    ensures Parse(digits, radix, max) == if Value(digits, radix) <= max then Some(Value(digits, radix)) else None
  {
    assert Digit(digits[0]) < 16;
  }

  lemma SecondFieldIs(name: string, value: string)
    requires ':' !in name && ':' !in value
    ensures SecondField(name + ":" + value) == value
  {
    hide Index;
    var line := name + ":" + value;
    assert line[..|name|] == name && line[|name|] == ':';
    IndexIs(line, ':', |name|);
    assert line[|name| + 1..] == value;
    IndexOfNone(value, ':');
  }

  lemma NumberHasNoColon(before: string, digits: string, after: string)
    requires AllDigits(digits, 10) && IsOws(before) && IsOws(after)
    ensures ':' !in before + digits + after
  {
    forall i | 0 <= i < |digits| ensures digits[i] != ':' {
      assert Digit(digits[i]) < 10;
    }
  }

  /** A Content-Length field, in any case and with any optional white space, is read as its number. */
  lemma LengthLineIsRead(name: string, before: string, digits: string, after: string)
    requires Lower(name) == "content-length" && IsOws(before) && IsOws(after)
    requires digits != "" && AllDigits(digits, 10) && Value(digits, 10) < USIZE
    ensures LengthOf(name + ":" + (before + digits + after)) == Some(Value(digits, 10))
  {
    hide SecondField, Parse, Trim, Value, Index;
    NameHasNoColon(name, "content-length");
    NumberHasNoColon(before, digits, after);
    SecondFieldIs(name, before + digits + after);
    PaddedNumberIsTrimmed(before, digits, after);
    NumberIsParsed(digits, 10, USIZE - 1);
    ColonPrefix(name, before + digits + after);
  }

  lemma ColonPrefix(name: string, value: string)
    requires Lower(name) == "content-length"
    ensures "content-length:" <= Lower(name + ":" + value)
  {
    forall i | 0 <= i < |name| + 1 ensures Lower(name + ":")[i] == "content-length:"[i] {
      if i < |name| {
        assert (name + ":")[i] == name[i];
        assert Lower(name)[i] == "content-length"[i];
      }
    }
    LowerPrefix(name + ":", value, "content-length:");
  }

  lemma NameHasNoColon(name: string, lower: string)
    requires Lower(name) == lower && ':' !in lower
    ensures ':' !in name
  {
    forall i | 0 <= i < |name| ensures name[i] != ':' {
      assert Lower(name)[i] in lower;
    }
  }

  lemma LowerPrefix(head: string, rest: string, lower: string)
    requires |head| == |lower| && forall i | 0 <= i < |head| :: Lower(head)[i] == lower[i]
    ensures lower <= Lower(head + rest)
  {
    var s := head + rest;
    forall i | 0 <= i < |lower| ensures Lower(s)[i] == lower[i] {
      assert s[i] == head[i];
      assert Lower(head)[i] == lower[i];
    }
  }

  predicate Visible(s: string) {
    forall i | 0 <= i < |s| :: '!' <= s[i] <= '~'
  }

  lemma VisibleIsNoSpace(s: string)
    requires s != "" && '!' <= s[0] <= '~'
    ensures SpaceAtFront(s) == 0
  {
  }

  lemma {:induction false} WordEnds(word: string, rest: string)
    requires Visible(word) && (rest == "" || rest[0] == ' ')
    ensures WordLength(word + rest) == |word|
  {
    if word == "" {
      assert word + rest == rest;
      if rest != "" { assert rest[..1] == " "; }
    } else {
      assert (word + rest)[0] == word[0] && (word + rest)[1..] == word[1..] + rest;
      VisibleIsNoSpace(word + rest);
      WordEnds(word[1..], rest);
    }
  }

  lemma SecondWordIs(version: string, code: string, reason: string)
    requires Visible(version) && version != "" && code != "" && AllDigits(code, 10)
    requires reason == "" || reason[0] == ' '
    ensures SecondWord(version + " " + code + reason) == code
  {
    hide SpaceAtFront, WordLength;
    var after := code + reason;
    var rest := " " + after;
    var line := version + " " + code + reason;
    assert line == version + rest;
    VisibleIsNoSpace(line);
    assert TrimStart(line) == line;
    WordEnds(version, rest);
    assert line[|version|..] == rest;
    assert Digit(code[0]) < 10;
    PadIsTrimmed(" ", after);
    CodeIsVisible(code);
    WordEnds(code, reason);
    assert after[..|code|] == code;
  }

  /** A status line is read as its code, whatever the version and the reason phrase. */
  lemma StatusLineIsRead(version: string, code: string, reason: string)
    requires "http/" <= Lower(version) && Visible(version)
    requires code != "" && AllDigits(code, 10) && Value(code, 10) <= 65535
    requires reason == "" || reason[0] == ' '
    ensures StatusOf(version + " " + code + reason) == Some(Value(code, 10))
  {
    hide SecondWord, Parse, Value, AllDigits, Visible;
    SecondWordIs(version, code, reason);
    NumberIsParsed(code, 10, 65535);
    LowerPrefix(version[..5], version[5..] + " " + code + reason, "http/") by {
      forall i | 0 <= i < 5 ensures Lower(version[..5])[i] == "http/"[i] {
        assert Lower(version)[i] == "http/"[i];
      }
    }
    assert version[..5] + (version[5..] + " " + code + reason) == version + " " + code + reason;
  }

  lemma CodeIsVisible(code: string)
    requires AllDigits(code, 10)
    ensures Visible(code)
  {
    forall i | 0 <= i < |code| ensures '!' <= code[i] <= '~' {
      assert Digit(code[i]) < 10;
    }
  }

  lemma ChunkedFieldIsSeen(line: string)
    requires Lower(line) == "transfer-encoding: chunked"
    ensures SaysChunked(line)
  {
    var s := Lower(line);
    assert "transfer-encoding" <= s[0..] && "chunked" <= s[19..];
  }

  /** A header section as text: every line with its CRLF. */
  function Text(fields: seq<string>): string {
    if fields == [] then "" else fields[0] + "\r\n" + Text(fields[1..])
  }

  predicate IsLineText(f: string) {
    '\n' !in f && (f == "" || f[|f| - 1] != '\r')
  }

  lemma FirstLineOfText(f: string, rest: string)
    requires IsLineText(f)
    ensures var s := f + "\r\n" + rest; Chomp(Line(s)) == f && AfterLine(s) == rest
  {
    assert f + "\r\n" + rest == f + "\r" + "\n" + rest;
    LineOfTerminated(f + "\r", rest);
    assert (f + "\r" + "\n")[..|f| + 1] == f + "\r" && (f + "\r")[..|f|] == f;
  }

  /** Splitting a header section into lines gives back the lines. */
  lemma {:induction false} LinesOfText(fields: seq<string>)
    requires forall i | 0 <= i < |fields| :: IsLineText(fields[i])
    ensures Lines(Text(fields)) == fields
    decreases |fields|
  {
    hide Line, AfterLine, Chomp, IsLineText;
    if fields != [] {
      FirstLineOfText(fields[0], Text(fields[1..]));
      LinesOfText(fields[1..]);
    }
  }

  // ---------- framing ----------

  datatype Framing = Refused | Fixed(length: nat) | Chunked | UntilClose

  function FramingOf(h: Headers): Framing {
    var length := if h.length.Some? then h.length.value else 0;
    if length > MAX_BODY then Refused
    else if length > 0 then Fixed(length)
    else if h.chunked then Chunked
    else UntilClose
  }

  // ---------- chunked bodies ----------

  datatype Body = Body(outcome: Result<nat>, rest: string, rounds: nat)

  function ChunkSize(line: string): Option<nat> {
    Parse(Trim(line), 16, USIZE - 1)
  }

  lemma NoSizeAtTheEnd()
    ensures Line("") == "" && ChunkSize("") == None
  {
  }

  datatype Round = Stop(outcome: Result<nat>, rest: string) | More(total: nat, rest: string)

  /** What a size line says; the text of an empty stream is no number. */
  function SizeAt(s: string): (r: Result<nat>)
    ensures s == "" ==> r.Err?
  {
    if !Utf8(Line(s)) then Err("invalid UTF-8")
    else if s == "" || ChunkSize(Line(s)).None? then Err("invalid chunk size")
    else Ok(ChunkSize(Line(s)).value)
  }

  /** What follows a size line, given the size; `usize` sums wrap around. */
  function AfterSize(size: Result<nat>, data: string, total: nat): (r: Round)
    ensures |r.rest| <= |data|
  {
    if size.Err? then Stop(Err(size.message), data)
    else if size.value == 0 then Stop(Ok(total), AfterLine(data))
    else if WrappingAdd(total, size.value) > MAX_BODY then Stop(Err("body too large"), data)
    else if |data| < size.value then Stop(Err("unexpected end of stream"), "")
    else
      var end := data[size.value..];
      if Utf8(Line(end)) then More(WrappingAdd(total, size.value), AfterLine(end))
      else Stop(Err("invalid UTF-8"), AfterLine(end))
  }

  /** One round of the chunk loop from a stream and a running total. */
  function ChunkRound(s: string, total: nat): (r: Round)
    ensures |r.rest| <= |s|
    ensures r.More? ==> |r.rest| < |s|
  {
    AfterSize(SizeAt(s), AfterLine(s), total)
  }

  function Later(b: Body, rounds: nat): Body {
    b.(rounds := b.rounds + rounds)
  }

  function Dechunk(s: string, total: nat): Body
    decreases |s|
  {
    match ChunkRound(s, total)
    case Stop(outcome, rest) => Body(outcome, rest, 1)
    case More(total', rest) => Later(Dechunk(rest, total'), 1)
  }

  /** A chunk of section 7.1 of RFC 9112: its size in hexadecimal digits of any case, and its data. */
  datatype Chunk = Chunk(size: string, data: string)

  predicate IsHex(text: string) {
    text != "" && AllDigits(text, 16)
  }

  predicate IsChunk(c: Chunk) {
    IsHex(c.size) && Value(c.size, 16) == |c.data| > 0
  }

  /** The chunks of a body, and then `end`. */
  function EncodeThen(chunks: seq<Chunk>, end: string): string {
    if chunks == [] then end
    else chunks[0].size + ("\r\n" + (chunks[0].data + ("\r\n" + EncodeThen(chunks[1..], end))))
  }

  /** The encoding of a body, with `last` the zero that ends it and no trailer fields. */
  function Encode(chunks: seq<Chunk>, last: string): string {
    EncodeThen(chunks, last + "\r\n" + "\r\n")
  }

  function BodyLength(chunks: seq<Chunk>): nat {
    if chunks == [] then 0 else |chunks[0].data| + BodyLength(chunks[1..])
  }

  lemma SpaceHasNoDigit(s: string)
    requires IsSpace(s)
    ensures Digit(s[0]) >= 16 && Digit(s[|s| - 1]) >= 16
  {
    if |s| == 1 {
      assert s[0] as int <= 32;
    } else {
      assert s[0] as int >= 0x80 && s[|s| - 1] as int >= 0x80;
    }
  }

  lemma DigitIsNoSpace(s: string)
    requires s != ""
    ensures Digit(s[0]) < 16 ==> SpaceAtFront(s) == 0
    ensures Digit(s[|s| - 1]) < 16 ==> SpaceAtBack(s) == 0
  {
    hide IsSpace, Digit;
    if SpaceAtFront(s) > 0 {
      SpaceHasNoDigit(s[..SpaceAtFront(s)]);
    }
    if SpaceAtBack(s) > 0 {
      SpaceHasNoDigit(s[|s| - SpaceAtBack(s)..]);
    }
  }

  lemma ControlIsTrimmed(text: string, c: char)
    requires 9 <= c as int <= 13
    ensures TrimEnd(text + [c]) == TrimEnd(text)
  {
    var s := text + [c];
    assert s[|s| - 1..] == [c] && IsSpace([c]) && s[..|s| - 1] == text;
  }

  lemma CrlfIsTrimmed(text: string)
    requires text != "" && Digit(text[|text| - 1]) < 16
    ensures TrimEnd(text + "\r\n") == text
  {
    hide Digit, SpaceAtBack;
    DigitIsNoSpace(text);
    assert text + "\r\n" == (text + ['\r']) + ['\n'];
    ControlIsTrimmed(text + ['\r'], '\n');
    ControlIsTrimmed(text, '\r');
  }

  lemma TrimSizeLine(text: string)
    requires IsHex(text)
    ensures Trim(text + "\r\n") == text
  {
    hide Digit, SpaceAtFront, TrimEnd;
    var line := text + "\r\n";
    assert Digit(line[0]) < 16 && Digit(text[|text| - 1]) < 16;
    DigitIsNoSpace(line);
    CrlfIsTrimmed(text);
    assert TrimStart(line) == line;
  }

  lemma SizeLine(text: string, tail: string)
    requires IsHex(text)
    ensures Line(text + ("\r\n" + tail)) == text + "\r\n" && AfterLine(text + ("\r\n" + tail)) == tail && Utf8(text + "\r\n")
  {
    forall i | 0 <= i < |text| ensures text[i] != '\n' && text[i] < 128 as char {
      assert Digit(text[i]) < 16;
    }
    assert text + ("\r\n" + tail) == (text + "\r") + "\n" + tail;
    assert text + "\r\n" == (text + "\r") + "\n";
    LineOfTerminated(text + "\r", tail);
    AsciiIsUtf8(text + "\r\n");
  }

  lemma SizeIsRead(text: string, tail: string)
    requires IsHex(text) && Value(text, 16) < USIZE
    ensures var s := text + ("\r\n" + tail); SizeAt(s) == Ok(Value(text, 16)) && AfterLine(s) == tail
  {
    SizeLine(text, tail);
    TrimSizeLine(text);
    assert Digit(text[0]) < 16;
    assert ChunkSize(text + "\r\n") == Some(Value(text, 16));
  }

  lemma DataIsRead(data: string, next: string, total: nat)
    requires data != "" && total + |data| <= MAX_BODY
    ensures AfterSize(Ok(|data|), data + ("\r\n" + next), total) == More(total + |data|, next)
  {
    assert (data + ("\r\n" + next))[|data|..] == "\r\n" + next;
    EmptyLine(next);
  }

  lemma DataRound(c: Chunk, next: string, total: nat)
    requires IsChunk(c) && total + |c.data| <= MAX_BODY
    ensures ChunkRound(c.size + ("\r\n" + (c.data + ("\r\n" + next))), total) == More(total + |c.data|, next)
  {
    SizeIsRead(c.size, c.data + ("\r\n" + next));
    DataIsRead(c.data, next, total);
  }

  lemma LastRound(last: string, tail: string, total: nat)
    requires IsHex(last) && Value(last, 16) == 0
    ensures ChunkRound(last + ("\r\n" + ("\r\n" + tail)), total) == Stop(Ok(total), tail)
  {
    SizeIsRead(last, "\r\n" + tail);
    EmptyLine(tail);
  }

  lemma DechunkContinues(s: string, total: nat, longer: nat, rest: string, more: Body)
    requires ChunkRound(s, total) == More(longer, rest) && Dechunk(rest, longer) == more
    ensures Dechunk(s, total) == Later(more, 1)
  {
  }

  /** Whole chunks within the limit are read one by one, whatever follows them. */
  lemma {:induction false} DechunksPrefix(chunks: seq<Chunk>, end: string, total: nat)
    requires forall i | 0 <= i < |chunks| :: IsChunk(chunks[i])
    requires total + BodyLength(chunks) <= MAX_BODY
    ensures Dechunk(EncodeThen(chunks, end), total) == Later(Dechunk(end, total + BodyLength(chunks)), |chunks|)
    decreases |chunks|
  {
    hide ChunkRound;
    if chunks == [] {
    } else {
      var longer := total + |chunks[0].data|;
      var next := EncodeThen(chunks[1..], end);
      DataRound(chunks[0], next, total);
      DechunksPrefix(chunks[1..], end, longer);
      DechunkContinues(EncodeThen(chunks, end), total, longer, next,
                       Later(Dechunk(end, total + BodyLength(chunks)), |chunks| - 1));
    }
  }

  lemma {:induction false} EncodeThenMore(chunks: seq<Chunk>, end: string, tail: string)
    ensures EncodeThen(chunks, end) + tail == EncodeThen(chunks, end + tail)
    decreases |chunks|
  {
    if chunks != [] {
      EncodeThenMore(chunks[1..], end, tail);
      var c, rest := chunks[0], EncodeThen(chunks[1..], end);
      assert c.size + ("\r\n" + (c.data + ("\r\n" + rest))) + tail == c.size + ("\r\n" + (c.data + ("\r\n" + (rest + tail))));
    }
  }

  /**
   For every body and every split into non-empty chunks within the limit, the reader consumes
   exactly the encoding, counts exactly the body, and leaves what follows in the stream.
   */
  lemma DechunksEncoding(chunks: seq<Chunk>, last: string, tail: string, total: nat)
    requires forall i | 0 <= i < |chunks| :: IsChunk(chunks[i])
    requires IsHex(last) && Value(last, 16) == 0
    requires total + BodyLength(chunks) <= MAX_BODY
    ensures Dechunk(Encode(chunks, last) + tail, total) == Body(Ok(total + BodyLength(chunks)), tail, |chunks| + 1)
  {
    hide ChunkRound, EncodeThen, BodyLength, IsHex, IsChunk, Value;
    EncodeThenMore(chunks, last + "\r\n" + "\r\n", tail);
    assert last + "\r\n" + "\r\n" + tail == last + ("\r\n" + ("\r\n" + tail));
    DechunksPrefix(chunks, last + ("\r\n" + ("\r\n" + tail)), total);
    LastRound(last, tail, total + BodyLength(chunks));
  }

  /** A body that ends inside a chunk's data, and one whose next chunk would pass the limit, are errors. */
  lemma CutOrOversizedChunkFails(chunks: seq<Chunk>, size: string, data: string, total: nat)
    requires forall i | 0 <= i < |chunks| :: IsChunk(chunks[i])
    requires total + BodyLength(chunks) <= MAX_BODY
    requires IsHex(size) && total + BodyLength(chunks) + Value(size, 16) < USIZE && |data| < Value(size, 16)
    ensures Dechunk(EncodeThen(chunks, size + ("\r\n" + data)), total).outcome ==
      Err(if total + BodyLength(chunks) + Value(size, 16) > MAX_BODY then "body too large" else "unexpected end of stream")
  {
    hide ChunkRound, EncodeThen, BodyLength, IsHex, IsChunk, Value, SizeAt;
    DechunksPrefix(chunks, size + ("\r\n" + data), total);
    SizeIsRead(size, data);
    RoundIsAfterSize(size + ("\r\n" + data), total + BodyLength(chunks));
  }

  lemma RoundIsAfterSize(s: string, total: nat)
    ensures ChunkRound(s, total) == AfterSize(SizeAt(s), AfterLine(s), total)
  {
  }

  /** The size check means what it says exactly when the sum does not wrap. */
  lemma LimitCheckIsExact(total: nat, size: nat)
    requires total <= MAX_BODY && 0 < size < USIZE
    ensures (WrappingAdd(total, size) > MAX_BODY <==> total + size > MAX_BODY) <==> total + size < USIZE
  {
  }

  /**
   On any stream short enough that no sum wraps, a body that is accepted keeps the limit and
   the loop ends after at most one round for each byte left under the limit, and one more.
   */
  lemma {:induction false} ChunkLoopIsBounded(s: string, total: nat)
    requires total <= MAX_BODY && |s| + MAX_BODY < USIZE
    ensures Dechunk(s, total).rounds <= MAX_BODY - total + 1
    ensures Dechunk(s, total).outcome.Ok? ==> total <= Dechunk(s, total).outcome.value <= MAX_BODY
    ensures |Dechunk(s, total).rest| <= |s|
    decreases |s|
  {
    AfterSizeCounts(SizeAt(s), AfterLine(s), total);
    match ChunkRound(s, total)
    case Stop(_, _) =>
    case More(total', rest) =>
      ChunkLoopIsBounded(rest, total');
  }

  lemma AfterSizeCounts(size: Result<nat>, data: string, total: nat)
    requires total <= MAX_BODY && |data| + MAX_BODY < USIZE
    ensures var r := AfterSize(size, data, total);
      && (r.Stop? && r.outcome.Ok? ==> r.outcome.value == total)
      && (r.More? ==> total < r.total <= MAX_BODY)
  {
  }

  // ---------- whole responses ----------

  /** The length of a body, and what is left of the stream. */
  function BodyOf(f: Framing, s: string): (Result<nat>, string) {
    match f
    case Refused => (Err("body too large"), s)
    case Fixed(n) => if n <= |s| then (Ok(n), s[n..]) else (Err("unexpected end of stream"), "")
    case Chunked => (Dechunk(s, 0).outcome, Dechunk(s, 0).rest)
    case UntilClose => (if |s| <= MAX_BODY then Ok(|s|) else Err("body too large"), "")
  }

  /** Status and body length of a response, and what is left of the stream. */
  function Respond(first: string, s: string): (Result<(nat, nat)>, string) {
    var head := Head(first, s);
    if head.0.Err? then (Err(head.0.message), head.1)
    else
      var h := Parsed(Lines(head.0.value));
      if h.status.None? then (Err("invalid http status line"), head.1)
      else
        var body := BodyOf(FramingOf(h), head.1);
        (if body.0.Ok? then Ok((h.status.value, body.0.value)) else Err(body.0.message), body.1)
  }

  /** What a header section says: the first status line that parses, the first length that parses, any chunked line. */
  ghost predicate Says(fields: seq<string>, status: Option<nat>, length: Option<nat>, chunked: bool) {
    && (forall i | 0 <= i < |fields| :: IsLineText(fields[i]))
    && IsFirst(StatusOf, fields, status)
    && IsFirst(LengthOf, fields, length)
    && (chunked <==> exists k :: 0 <= k < |fields| && SaysChunked(fields[k]))
  }

  lemma FirstIsUnique(f: string -> Option<nat>, lines: seq<string>, r: Option<nat>)
    requires IsFirst(f, lines, r)
    ensures First(f, lines) == r
  {
    FirstIsFirst(f, lines);
  }

  lemma SaidIsParsed(fields: seq<string>, status: Option<nat>, length: Option<nat>, chunked: bool)
    requires Says(fields, status, length, chunked)
    ensures Parsed(Lines(Text(fields))) == Headers(status, length, chunked)
  {
    hide StatusOf, LengthOf, SaysChunked, IsLineText, Lines, Text, IsFirst, First;
    LinesOfText(fields);
    AnyChunkedMeans(fields);
    FirstIsUnique(StatusOf, fields, status);
    FirstIsUnique(LengthOf, fields, length);
  }

  /** The header lines of a response: each ends with CRLF, they fit, and `fields` are their texts. */
  ghost predicate IsHeader(first: string, lines: seq<string>, fields: seq<string>) {
    && (forall i | 0 <= i < |lines| :: IsField(lines[i]))
    && |first| + |Concat(lines)| + 1024 <= MAX_HEADER
    && first + Concat(lines) + "\r\n" == Text(fields)
  }

  /** A response whose header section says something is what its framing makes of the bytes after the empty line. */
  lemma MessageIsFramed(first: string, lines: seq<string>, fields: seq<string>, body: string,
                        status: Option<nat>, length: Option<nat>, chunked: bool)
    requires IsHeader(first, lines, fields) && Says(fields, status, length, chunked)
    ensures var r := Respond(first, Concat(lines) + ("\r\n" + body));
      var b := BodyOf(FramingOf(Headers(status, length, chunked)), body);
      r == if status.None? then (Err("invalid http status line"), body)
           else (if b.0.Ok? then Ok((status.value, b.0.value)) else Err(b.0.message), b.1)
  {
    hide Head, Parsed, BodyOf, FramingOf, Says, Concat, Text, IsField;
    SaidIsParsed(fields, status, length, chunked);
    HeadEndsAtEmptyLine(first, lines, body);
  }

  /** Without a status line that parses the response is an error. */
  lemma MessageNeedsStatus(first: string, lines: seq<string>, fields: seq<string>, body: string,
                           length: Option<nat>, chunked: bool)
    requires IsHeader(first, lines, fields) && Says(fields, None, length, chunked)
    ensures Respond(first, Concat(lines) + ("\r\n" + body)).0 == Err("invalid http status line")
  {
    hide Respond, IsHeader, Says, BodyOf, Concat;
    MessageIsFramed(first, lines, fields, body, None, length, chunked);
  }

  /**
   A response with a length: accepted exactly if that many bytes follow, of which it takes just
   those. A length above the limit is refused whatever follows; a chunked encoding changes nothing.
   */
  lemma FixedMessageIsRead(first: string, lines: seq<string>, fields: seq<string>, body: string,
                           status: nat, n: nat, chunked: bool)
    requires IsHeader(first, lines, fields) && Says(fields, Some(status), Some(n), chunked) && n > 0
    ensures var r := Respond(first, Concat(lines) + ("\r\n" + body));
      && (n <= MAX_BODY && n <= |body| ==> r == (Ok((status, n)), body[n..]))
      && (n <= MAX_BODY && n > |body| ==> r.0 == Err("unexpected end of stream"))
      && (n > MAX_BODY ==> r == (Err("body too large"), body))
  {
    hide Respond, IsHeader, Says, Concat;
    MessageIsFramed(first, lines, fields, body, Some(status), Some(n), chunked);
  }

  /** A response without a length, or with length zero, that is not chunked: everything up to the close, within the limit. */
  lemma UnframedMessageIsRead(first: string, lines: seq<string>, fields: seq<string>, body: string,
                              status: nat, length: Option<nat>)
    requires IsHeader(first, lines, fields) && Says(fields, Some(status), length, false)
    requires length == None || length == Some(0)
    ensures var r := Respond(first, Concat(lines) + ("\r\n" + body));
      && (|body| <= MAX_BODY ==> r == (Ok((status, |body|)), ""))
      && (|body| > MAX_BODY ==> r.0 == Err("body too large"))
  {
    hide Respond, IsHeader, Says, Concat;
    MessageIsFramed(first, lines, fields, body, Some(status), length, false);
  }

  /** Whatever the header lines are, if they lead to the chunk loop, nothing of a chunked body is left but what follows it. */
  lemma ChunkedResponseIsRead(first: string, lines: seq<string>, chunks: seq<Chunk>, last: string, tail: string, h: Headers)
    requires forall i | 0 <= i < |lines| :: IsField(lines[i])
    requires |first| + |Concat(lines)| + 1024 <= MAX_HEADER
    requires h == Parsed(Lines(first + Concat(lines) + "\r\n")) && h.status.Some? && FramingOf(h) == Chunked
    requires forall i | 0 <= i < |chunks| :: IsChunk(chunks[i])
    requires IsHex(last) && Value(last, 16) == 0 && BodyLength(chunks) <= MAX_BODY
    ensures Respond(first, Concat(lines) + ("\r\n" + (Encode(chunks, last) + tail))) ==
      (Ok((h.status.value, BodyLength(chunks))), tail)
  {
    hide Head, Dechunk, Parsed, Lines, Concat, Encode, BodyLength, IsChunk, IsHex, Value, IsField;
    var body := Encode(chunks, last) + tail;
    DechunksEncoding(chunks, last, tail, 0);
    HeadEndsAtEmptyLine(first, lines, body);
  }

  /** A chunked response, without a length or with length zero, from its first byte to its last: only what follows it is left. */
  lemma ChunkedMessageIsRead(first: string, lines: seq<string>, fields: seq<string>, status: nat, length: Option<nat>,
                             chunks: seq<Chunk>, last: string, tail: string)
    requires IsHeader(first, lines, fields) && Says(fields, Some(status), length, true)
    requires length == None || length == Some(0)
    requires forall i | 0 <= i < |chunks| :: IsChunk(chunks[i])
    requires IsHex(last) && Value(last, 16) == 0 && BodyLength(chunks) <= MAX_BODY
    ensures Respond(first, Concat(lines) + ("\r\n" + (Encode(chunks, last) + tail))) == (Ok((status, BodyLength(chunks))), tail)
  {
    hide Respond, IsHeader, Says, Concat, Dechunk, IsChunk, IsHex, Value, Encode, BodyLength;
    MessageIsFramed(first, lines, fields, Encode(chunks, last) + tail, Some(status), length, true);
    DechunksEncoding(chunks, last, tail, 0);
  }

  /** A chunked response that ends inside a chunk's data, or whose next chunk would pass the limit, is an error. */
  lemma CutChunkedMessageFails(first: string, lines: seq<string>, fields: seq<string>, status: nat, length: Option<nat>,
                               chunks: seq<Chunk>, size: string, data: string)
    requires IsHeader(first, lines, fields) && Says(fields, Some(status), length, true)
    requires length == None || length == Some(0)
    requires forall i | 0 <= i < |chunks| :: IsChunk(chunks[i])
    requires BodyLength(chunks) <= MAX_BODY
    requires IsHex(size) && BodyLength(chunks) + Value(size, 16) < USIZE && |data| < Value(size, 16)
    ensures Respond(first, Concat(lines) + ("\r\n" + EncodeThen(chunks, size + ("\r\n" + data)))).0 ==
      Err(if BodyLength(chunks) + Value(size, 16) > MAX_BODY then "body too large" else "unexpected end of stream")
  {
    hide Respond, IsHeader, Says, Concat, Dechunk, IsChunk, IsHex, Value, EncodeThen, BodyLength;
    MessageIsFramed(first, lines, fields, EncodeThen(chunks, size + ("\r\n" + data)), Some(status), length, true);
    CutOrOversizedChunkFails(chunks, size, data, 0);
  }

  lemma NamesSomethingElse(line: string)
    requires line != "" && Lower(line)[0] != 'c'
    ensures LengthOf(line) == None
  {
    assert "content-length:"[0] == 'c';
  }

  lemma LengthOfFive()
    ensures LengthOf("Content-Length: 5") == Some(5)
  {
    hide LengthOf, IsOws, Lower;
    assert Value("5", 10) == 5 by {
      assert "5"[..0] == "" && Digit('5') == 5;
    }
    assert Lower("Content-Length") == "content-length" by {
      LowerOfName();
    }
    assert IsOws(" ") && IsOws("") by {
      SpaceIsOws();
    }
    LengthLineIsRead("Content-Length", " ", "5", "");
    assert "Content-Length" + ":" + (" " + "5" + "") == "Content-Length: 5";
  }

  lemma SpaceIsOws()
    ensures IsOws(" ") && IsOws("")
  {
  }

  lemma LowerOfName()
    ensures Lower("Content-Length") == "content-length"
  {
  }

  lemma StatusOfOk()
    ensures StatusOf("HTTP/1.1 200 OK") == Some(200)
  {
    hide StatusOf, Visible, Lower;
    assert Value("200", 10) == 200 by {
      assert "200"[..2] == "20" && "20"[..1] == "2" && "2"[..0] == "" && Digit('0') == 0 && Digit('2') == 2;
      assert Value("2", 10) == 2;
      assert Value("20", 10) == 20;
    }
    assert "http/" <= Lower("HTTP/1.1") && Visible("HTTP/1.1") by {
      VersionIsRead();
    }
    StatusLineIsRead("HTTP/1.1", "200", " OK");
    assert "HTTP/1.1" + " " + "200" + " OK" == "HTTP/1.1 200 OK";
  }

  lemma VersionIsRead()
    ensures "http/" <= Lower("HTTP/1.1") && Visible("HTTP/1.1")
  {
  }

  lemma TwoFields(first: string, a: string, b: string)
    requires IsLineText(first + a) && IsLineText(b) && IsField(a + "\r\n") && IsField(b + "\r\n")
    requires |first| + |a| + |b| + 1028 <= MAX_HEADER
    ensures Concat([a + "\r\n", b + "\r\n"]) == a + "\r\n" + b + "\r\n"
    ensures IsHeader(first, [a + "\r\n", b + "\r\n"], [first + a, b, ""])
  {
    hide IsField, IsLineText;
    var lines, fields := [a + "\r\n", b + "\r\n"], [first + a, b, ""];
    assert lines[1..] == [b + "\r\n"] && lines[1..][1..] == [];
    assert Concat(lines[1..]) == b + "\r\n";
    assert fields[1..] == [b, ""] && fields[1..][1..] == [""] && fields[1..][1..][1..] == [];
    assert Text([""]) == "\r\n";
    assert Text([b, ""]) == b + "\r\n" + "\r\n";
    assert Concat(lines) == a + "\r\n" + b + "\r\n";
    assert first + Concat(lines) + "\r\n" == Text(fields);
  }

  lemma TypicalFields()
    ensures IsLineText("H" + "TTP/1.1 200 OK") && IsField("TTP/1.1 200 OK" + "\r\n")
    ensures IsLineText("Content-Length: 5") && IsField("Content-Length: 5" + "\r\n")
  {
    AsciiIsUtf8("TTP/1.1 200 OK" + "\r\n");
    AsciiIsUtf8("Content-Length: 5" + "\r\n");
  }

  /** A typical response: five bytes are counted, and what follows stays. */
  lemma TypicalResponse(tail: string)
    ensures Respond("H", "TTP/1.1 200 OK" + "\r\n" + "Content-Length: 5" + "\r\n" + ("\r\n" + ("hello" + tail))) ==
      (Ok((200, 5)), tail)
  {
    hide Respond, IsField, IsLineText, IsHeader, Concat, Says, SaysChunked, StatusOf, LengthOf;
    var a, b := "TTP/1.1 200 OK", "Content-Length: 5";
    var fields := ["H" + a, b, ""];
    TypicalFields();
    TwoFields("H", a, b);
    assert "H" + a == "HTTP/1.1 200 OK";
    StatusOfOk();
    LengthOfFive();
    var chunked := exists k :: 0 <= k < |fields| && SaysChunked(fields[k]);
    TypicalSays(fields, chunked);
    FixedMessageIsRead("H", [a + "\r\n", b + "\r\n"], fields, "hello" + tail, 200, 5, chunked);
    assert ("hello" + tail)[5..] == tail;
  }

  lemma TypicalSays(fields: seq<string>, chunked: bool)
    requires fields == ["HTTP/1.1 200 OK", "Content-Length: 5", ""]
    requires IsLineText(fields[0]) && IsLineText(fields[1])
    requires StatusOf(fields[0]) == Some(200) && LengthOf(fields[1]) == Some(5)
    requires chunked <==> exists k :: 0 <= k < |fields| && SaysChunked(fields[k])
    ensures Says(fields, Some(200), Some(5), chunked)
  {
    hide StatusOf, LengthOf, SaysChunked, Lower;
    assert LengthOf(fields[0]) == None by {
      FirstIsH();
      NamesSomethingElse(fields[0]);
    }
    assert IsFirst(StatusOf, fields, Some(200)) && IsFirst(LengthOf, fields, Some(5)) by {
      hide IsLineText;
      assert StatusOf(fields[0]) == Some(200) && LengthOf(fields[1]) == Some(5);
    }
    assert fields[2] == "" && IsLineText("");
    hide IsLineText, IsFirst;
    assert forall i | 0 <= i < |fields| :: IsLineText(fields[i]);
  }

  lemma FirstIsH()
    ensures Lower("HTTP/1.1 200 OK")[0] == 'h'
  {
  }
}
