/** The two colour helpers of the game: parsing a "#rrggbb" / "#rgb" string
    into channels and printing one channel as two upper-case hex digits.
    Strings are sequences of Unicode characters: a character outside the
    Basic Multilingual Plane counts once here, where a JavaScript string
    holds it as two UTF-16 code units. The parser reproduces
    JavaScript's parseInt(s, 16), which skips leading white space, accepts a
    sign and a "0x" prefix, and then reads the longest run of hex digits. */
module Colour {

  datatype Option<T> = None | Some(value: T)

  datatype Rgb = Rgb(r: int, g: int, b: int)

  predicate IsHexDigit(c: char)
  {
    ('0' <= c <= '9') || ('a' <= c <= 'f') || ('A' <= c <= 'F')
  }

  /** The value of a hex digit (0 for any other character; it is only
      applied to digits). */
  function DigitValue(c: char): (d: nat)
    ensures d < 16
  {
    if '0' <= c <= '9' then c as int - '0' as int
    else if 'a' <= c <= 'f' then c as int - 'a' as int + 10
    else if 'A' <= c <= 'F' then c as int - 'A' as int + 10
    else 0
  }

  /** The upper-case digit for a value below 16 (what toUpperCase makes of toString(16)). */
  function UpperDigit(d: nat): (c: char)
    requires d < 16
    ensures IsHexDigit(c) && DigitValue(c) == d
    ensures !('a' <= c <= 'f')
  {
    if d < 10 then ('0' as int + d) as char else ('A' as int + d - 10) as char
  }

  function Pow16(n: nat): (p: nat)
    ensures p >= 1
  {
    if n == 0 then 1 else 16 * Pow16(n - 1)
  }

  /** The value of a run of hex digits, most significant first. */
  function HexValue(ds: seq<char>): (v: nat)
  {
    if ds == [] then 0 else HexValue(ds[..|ds| - 1]) * 16 + DigitValue(ds[|ds| - 1])
  }

  /** White space and line terminators that parseInt skips before the number. */
  predicate IsJsSpace(c: char)
  {
    c == '\t' || c == '\n' || c == '\U{000B}' || c == '\U{000C}' || c == '\r' || c == ' ' ||
    c == '\U{00A0}' || c == '\U{1680}' || ('\U{2000}' <= c <= '\U{200A}') ||
    c == '\U{2028}' || c == '\U{2029}' || c == '\U{202F}' || c == '\U{205F}' ||
    c == '\U{3000}' || c == '\U{FEFF}'
  }

  function TrimStart(s: seq<char>): (t: seq<char>)
    ensures t == [] || !IsJsSpace(t[0])
  {
    if s != [] && IsJsSpace(s[0]) then TrimStart(s[1..]) else s
  }

  /** The longest prefix made of hex digits. */
  function DigitPrefix(s: seq<char>): (p: seq<char>)
    ensures forall i :: 0 <= i < |p| ==> IsHexDigit(p[i])
    ensures |p| < |s| ==> !IsHexDigit(s[|p|])
    ensures |p| <= |s| && p == s[..|p|]
  {
    if s != [] && IsHexDigit(s[0]) then
      var rest := DigitPrefix(s[1..]);
      assert [s[0]] + rest == s[..|rest| + 1];
      [s[0]] + rest
    else []
  }

  /** parseInt(s, 16); None stands for NaN. A blank string is NaN, and only
      a minus sign after the leading white space gives a negative number. */
  function ParseIntHex(s: seq<char>): (n: Option<int>)
    ensures TrimStart(s) == [] ==> n == None
    ensures n.Some? && n.value < 0 ==> TrimStart(s)[0] == '-'
  {
    var t := TrimStart(s);
    var negative := t != [] && t[0] == '-';
    var u := if t != [] && (t[0] == '-' || t[0] == '+') then t[1..] else t;
    var v := if |u| >= 2 && u[0] == '0' && (u[1] == 'x' || u[1] == 'X') then u[2..] else u;
    var digits := DigitPrefix(v);
    if digits == [] then None
    else if negative then Some(0 - HexValue(digits))
    else Some(HexValue(digits))
  }

  lemma {:induction false} HexValueBound(ds: seq<char>)
    ensures HexValue(ds) < Pow16(|ds|)
    decreases |ds|
  {
    if ds != [] {
      HexValueBound(ds[..|ds| - 1]);
    }
  }

  lemma {:induction false} Pow16Monotone(m: nat, n: nat)
    requires m <= n
    ensures Pow16(m) <= Pow16(n)
    decreases n
  {
    if m < n {
      Pow16Monotone(m, n - 1);
    }
  }

  lemma {:induction false} TrimStartShorter(s: seq<char>)
    ensures |TrimStart(s)| <= |s|
    decreases |s|
  {
    if s != [] && IsJsSpace(s[0]) {
      TrimStartShorter(s[1..]);
    }
  }

  /** The number read has at most as many hex digits as the string has
      characters. */
  lemma ParseIntHexBound(s: seq<char>)
    ensures ParseIntHex(s).Some? ==> -(Pow16(|s|) as int) < ParseIntHex(s).value < Pow16(|s|)
  {
    var t := TrimStart(s);
    var u := if t != [] && (t[0] == '-' || t[0] == '+') then t[1..] else t;
    var v := if |u| >= 2 && u[0] == '0' && (u[1] == 'x' || u[1] == 'X') then u[2..] else u;
    var digits := DigitPrefix(v);
    TrimStartShorter(s);
    HexValueBound(digits);
    Pow16Monotone(|digits|, |s|);
  }

  /** String.prototype.replace with a string pattern: only the first match goes. */
  function RemoveFirst(s: seq<char>, c: char): (r: seq<char>)
    ensures c in s ==> |r| == |s| - 1
    ensures c !in s ==> r == s
  {
    if s == [] then []
    else if s[0] == c then s[1..]
    else [s[0]] + RemoveFirst(s[1..], c)
  }

  /** The character removed is the first occurrence of `c`; what comes
      before and after it is kept in order. */
  lemma RemoveFirstDropsFirst(s: seq<char>, c: char)
    requires c in s
    ensures exists i :: 0 <= i < |s| && s[i] == c && c !in s[..i] && RemoveFirst(s, c) == s[..i] + s[i + 1..]
  {
    var i := FirstOccurrence(s, c);
  }

  lemma {:induction false} FirstOccurrence(s: seq<char>, c: char) returns (i: nat)
    requires c in s
    ensures i < |s| && s[i] == c && c !in s[..i] && RemoveFirst(s, c) == s[..i] + s[i + 1..]
  {
    if s[0] == c {
      i := 0;
      assert s[..0] == [];
    } else {
      var t := s[1..];
      assert s == [s[0]] + t;
      assert c in t;
      var j := FirstOccurrence(t, c);
      i := j + 1;
      assert RemoveFirst(s, c) == [s[0]] + RemoveFirst(t, c);
      assert s[..i] == [s[0]] + t[..j];
      assert s[i + 1..] == t[j + 1..];
      assert c !in s[..i];
    }
  }

  /** "abc" becomes "aabbcc". */
  function Doubled(s: seq<char>): (r: seq<char>)
    ensures |r| == 2 * |s|
    ensures forall i :: 0 <= i < |s| ==> r[2 * i] == s[i] && r[2 * i + 1] == s[i]
  {
    if s == [] then [] else [s[0], s[0]] + Doubled(s[1..])
  }

  /** hexToRgb: null (None) unless, after dropping the first '#' and
      doubling a three-character form, six characters remain and parseInt
      reads a number from them. Channels are taken with JavaScript's 32-bit
      shift and mask, which on these magnitudes is floor division and a
      non-negative remainder. */
  function HexToRgb(hex: seq<char>): (c: Option<Rgb>)
    ensures c.Some? ==> 0 <= c.value.r < 256 && 0 <= c.value.g < 256 && 0 <= c.value.b < 256
    ensures |Normalized(hex)| != 6 ==> c.None?
    ensures |Normalized(hex)| == 6 ==> (c.None? <==> ParseIntHex(Normalized(hex)).None?)
  {
    var n := Normalized(hex);
    if |n| != 6 then None
    else match ParseIntHex(n)
      case None => None
      case Some(v) => Some(Rgb((v / 65536) % 256, (v / 256) % 256, v % 256))
  }

  function Normalized(hex: seq<char>): seq<char>
  {
    var n := RemoveFirst(hex, '#');
    if |n| == 3 then Doubled(n) else n
  }

  function Clamp255(v: int): int
  {
    if v < 0 then 0 else if v > 255 then 255 else v
  }

  /** componentToHex for an integer channel: clamp to [0, 255], then two
      upper-case hex digits. */
  function ComponentToHex(v: int): (s: seq<char>)
    ensures |s| == 2 && IsHexDigit(s[0]) && IsHexDigit(s[1])
    ensures !('a' <= s[0] <= 'f') && !('a' <= s[1] <= 'f')
    ensures HexValue(s) == Clamp255(v)
  {
    var c := Clamp255(v);
    var s := [UpperDigit(c / 16), UpperDigit(c % 16)];
    assert s[..1] == [s[0]];
    assert [s[0]][..0] == [];
    assert HexValue([s[0]]) == c / 16;
    assert HexValue(s) == (c / 16) * 16 + c % 16;
    s
  }

  lemma {:induction false} HexValueAppend(a: seq<char>, b: seq<char>)
    ensures HexValue(a + b) == HexValue(a) * Pow16(|b|) + HexValue(b)
    decreases |b|
  {
    if b == [] {
      assert a + b == a;
    } else {
      var ab := a + b;
      var b' := b[..|b| - 1];
      assert ab[..|ab| - 1] == a + b';
      HexValueAppend(a, b');
      var x, y, p, d := HexValue(a), HexValue(b'), Pow16(|b'|), DigitValue(b[|b| - 1]);
      assert HexValue(ab) == HexValue(a + b') * 16 + d;
      assert b[..|b| - 1] == b';
      assert HexValue(b) == y * 16 + d;
      assert Pow16(|b|) == p * 16;
      ShiftDigit(x, y, p, d);
    }
  }

  lemma ShiftDigit(x: int, y: int, p: int, d: int)
    ensures (x * p + y) * 16 + d == x * (p * 16) + (y * 16 + d)
  {
  }

  /** The digits a colour string is built from are exactly the digits
      parseInt reads back. */
  lemma {:induction false} DigitPrefixOfDigits(s: seq<char>)
    requires forall i :: 0 <= i < |s| ==> IsHexDigit(s[i])
    ensures DigitPrefix(s) == s
  {
    if s != [] {
      DigitPrefixOfDigits(s[1..]);
    }
  }

  lemma {:induction false} RemoveFirstLeading(c: char, s: seq<char>)
    ensures RemoveFirst([c] + s, c) == s
  {
    assert ([c] + s)[1..] == s;
  }

  /** A run of digits with no prefix to skip is read whole. */
  lemma ParsePlainDigits(s: seq<char>)
    requires s != [] && forall i :: 0 <= i < |s| ==> IsHexDigit(s[i])
    requires |s| >= 2 ==> s[1] != 'x' && s[1] != 'X'
    ensures ParseIntHex(s) == Some(HexValue(s))
  {
    DigitIsNotSpace(s[0]);
    DigitPrefixOfDigits(s);
    ParseUnprefixed(s);
  }

  lemma DigitIsNotSpace(c: char)
    requires IsHexDigit(c)
    ensures !IsJsSpace(c) && c != '-' && c != '+'
  {
  }

  lemma ChannelsOfValue(r: int, g: int, b: int)
    requires 0 <= r < 256 && 0 <= g < 256 && 0 <= b < 256
    ensures var v := (r * 256 + g) * 256 + b;
      (v / 65536) % 256 == r && (v / 256) % 256 == g && v % 256 == b
  {
    var v := (r * 256 + g) * 256 + b;
    assert v == r * 65536 + (g * 256 + b);
    assert v / 256 == r * 256 + g;
  }

  /** What hexToRgb returns once parseInt has produced a value. */
  lemma HexToRgbOfValue(hex: seq<char>, v: int)
    requires |Normalized(hex)| == 6 && ParseIntHex(Normalized(hex)) == Some(v)
    ensures HexToRgb(hex) == Some(Rgb((v / 65536) % 256, (v / 256) % 256, v % 256))
  {
  }

  lemma AppendTwoDigits(a: seq<char>, b: seq<char>)
    requires |b| == 2
    ensures HexValue(a + b) == HexValue(a) * 256 + HexValue(b)
  {
    HexValueAppend(a, b);
    assert Pow16(|b|) == 256;
  }

  /** Round trip: the "#RRGGBB" string built from three channels with
      componentToHex parses back to those channels. */
  lemma RgbRoundTrip(r: int, g: int, b: int)
    requires 0 <= r < 256 && 0 <= g < 256 && 0 <= b < 256
    ensures HexToRgb("#" + ComponentToHex(r) + ComponentToHex(g) + ComponentToHex(b)) == Some(Rgb(r, g, b))
  {
    var cr, cg, cb := ComponentToHex(r), ComponentToHex(g), ComponentToHex(b);
    var body := cr + cg + cb;
    var hex := "#" + cr + cg + cb;
    assert hex == ['#'] + body;
    RemoveFirstLeading('#', body);
    assert Normalized(hex) == body;
    assert |body| == 6 && body[1] == cr[1];
    assert forall i :: 0 <= i < |body| ==> IsHexDigit(body[i]);
    ParsePlainDigits(body);
    AppendTwoDigits(cr, cg);
    AppendTwoDigits(cr + cg, cb);
    var v := HexValue(body);
    assert v == (r * 256 + g) * 256 + b;
    ChannelsOfValue(r, g, b);
    HexToRgbOfValue(hex, v);
  }

  lemma {:induction false} RemoveFirstAbsent(s: seq<char>, c: char)
    requires c !in s
    ensures RemoveFirst(s, c) == s
  {
    if s != [] {
      RemoveFirstAbsent(s[1..], c);
    }
  }

  /** The three-character shorthand means the same colour as its doubled form. */
  lemma ShortFormMatchesLongForm(s: seq<char>)
    requires |s| == 3 && '#' !in s
    ensures HexToRgb(['#'] + s) == HexToRgb(Doubled(s))
  {
    RemoveFirstLeading('#', s);
    var d := Doubled(s);
    assert '#' !in d by {
      forall i | 0 <= i < |d| ensures d[i] != '#' {
        assert d[i] == s[i / 2] by { assert i == 2 * (i / 2) || i == 2 * (i / 2) + 1; }
      }
    }
    RemoveFirstAbsent(d, '#');
  }

  /** A string that starts with neither white space, a sign nor "0x" is
      read from its first character. */
  lemma ParseUnprefixed(s: seq<char>)
    requires s != [] && !IsJsSpace(s[0]) && s[0] != '-' && s[0] != '+'
    requires !(|s| >= 2 && s[0] == '0' && (s[1] == 'x' || s[1] == 'X'))
    ensures ParseIntHex(s) == if DigitPrefix(s) == [] then None else Some(HexValue(DigitPrefix(s)))
  {
    assert TrimStart(s) == s;
  }

  lemma {:induction false} DigitPrefixStops(s: seq<char>, k: nat)
    requires k <= |s| && forall i :: 0 <= i < k ==> IsHexDigit(s[i])
    requires k < |s| ==> !IsHexDigit(s[k])
    ensures DigitPrefix(s) == s[..k]
  {
    if k > 0 {
      DigitPrefixStops(s[1..], k - 1);
      assert [s[0]] + s[1..][..k - 1] == s[..k];
    }
  }

  /** parseInt stops at the first character that is not a hex digit, so a
      six-character colour whose digits run out after k characters is read
      as the value of those k digits rather than rejected. */
  lemma ParsesLeadingDigitsOnly(s: seq<char>, k: nat)
    requires |s| == 6 && '#' !in s
    requires 0 < k <= 6 && forall i :: 0 <= i < k ==> IsHexDigit(s[i])
    requires k < 6 ==> !IsHexDigit(s[k])
    requires !(s[0] == '0' && (s[1] == 'x' || s[1] == 'X'))
    ensures var v := HexValue(s[..k]);
      HexToRgb(s) == Some(Rgb((v / 65536) % 256, (v / 256) % 256, v % 256))
  {
    RemoveFirstAbsent(s, '#');
    DigitPrefixStops(s, k);
    DigitIsNotSpace(s[0]);
    ParseUnprefixed(s);
    HexToRgbOfValue(s, HexValue(s[..k]));
  }

  /** The instance "12zz56": parseInt reads 0x12 = 18, so the colour is
      (0, 0, 18) and not null. */
  lemma TrailingGarbageExample(s: seq<char>)
    requires s == "12zz56"
    ensures HexToRgb(s) == Some(Rgb(0, 0, 18))
  {
    assert s[..2] == "12" && "12"[..1] == "1" && "1"[..0] == [];
    var v := HexValue(s[..2]);
    assert v == 18;
    assert (v / 65536) % 256 == 0 && (v / 256) % 256 == 0 && v % 256 == 18;
    ParsesLeadingDigitsOnly(s, 2);
  }

  /** A character outside the Basic Multilingual Plane is one character
      here: "ab" followed by an emoji is the three-character form, doubled
      to "aabb" and two emoji, and parseInt reads 0xaabb. */
  lemma AstralCharacterExample(s: seq<char>)
    requires s == "ab\U{1F600}"
    ensures HexToRgb(s) == Some(Rgb(0, 170, 187))
  {
    var n := AstralNormalized(s);
    assert n[..4] == "aabb";
    ValueOfAabb();
    var v := HexValue(n[..4]);
    assert (v / 65536) % 256 == 0 && (v / 256) % 256 == 170 && v % 256 == 187;
    ParsesLeadingDigitsOnly(n, 4);
  }

  lemma AstralNormalized(s: seq<char>) returns (n: seq<char>)
    requires s == "ab\U{1F600}"
    ensures n == Normalized(s) && |n| == 6 && '#' !in n
    ensures n[0] == 'a' && n[1] == 'a' && n[2] == 'b' && n[3] == 'b' && n[4] == '\U{1F600}'
  {
    assert '#' !in s;
    n := Doubled(s);
    assert n[0] == s[0] && n[2] == s[1] && n[4] == s[2];
    assert n[5] == s[2];
  }

  lemma ValueOfAabb()
    ensures HexValue("aabb") == 43707
  {
    assert "aabb"[..3] == "aab" && "aab"[..2] == "aa" && "aa"[..1] == "a" && "a"[..0] == [];
  }

  /** Only the first '#' is removed: "##abcde" leaves "#abcde", whose first
      character is not a digit, so the result is null. */
  lemma OnlyFirstHashRemoved()
    ensures HexToRgb("##abcde") == None
  {
    var s := "#abcde";
    assert "##abcde" == ['#'] + s;
    RemoveFirstLeading('#', s);
    assert Normalized("##abcde") == s;
    assert DigitPrefix(s) == [];
    ParseUnprefixed(s);
  }

  lemma ValueOf12345()
    ensures HexValue("12345") == 74565
  {
    var d := "12345";
    assert d[..4] == "1234" && d[..3] == "123" && d[..2] == "12" && d[..1] == "1";
    assert "1234"[..3] == "123" && "123"[..2] == "12" && "12"[..1] == "1" && "1"[..0] == [];
    assert HexValue("1") == 1;
    assert HexValue("12") == 18;
    assert HexValue("123") == 291;
    assert HexValue("1234") == 4660;
  }

  /** parseInt skips leading white space and line terminators. */
  lemma ParseSkipsSpace(c: char, s: seq<char>)
    requires IsJsSpace(c)
    ensures ParseIntHex([c] + s) == ParseIntHex(s)
  {
    assert ([c] + s)[1..] == s;
    assert TrimStart([c] + s) == TrimStart(s);
  }

  /** A plus sign is read and changes nothing. */
  lemma ParsePlusSign(s: seq<char>)
    requires s == [] || (!IsJsSpace(s[0]) && s[0] != '-' && s[0] != '+')
    ensures ParseIntHex(['+'] + s) == ParseIntHex(s)
  {
    assert (['+'] + s)[1..] == s;
    assert TrimStart(['+'] + s) == ['+'] + s;
    assert TrimStart(s) == s;
  }

  /** A "0x" or "0X" prefix is skipped with radix 16: whatever follows it is
      read as a digit run, and "0x" alone is NaN. */
  lemma ParseHexPrefix(x: char, d: seq<char>)
    requires x == 'x' || x == 'X'
    ensures var p := DigitPrefix(d);
      ParseIntHex(['0', x] + d) == if p == [] then None else Some(HexValue(p))
  {
    var s := ['0', x] + d;
    assert TrimStart(s) == s;
    assert s[2..] == d;
  }

  /** With no white space or sign before it, the prefix is dropped. */
  lemma ParseHexPrefixDropped(x: char, d: seq<char>)
    requires x == 'x' || x == 'X'
    requires d == [] || (!IsJsSpace(d[0]) && d[0] != '-' && d[0] != '+')
    requires !(|d| >= 2 && d[0] == '0' && (d[1] == 'x' || d[1] == 'X'))
    ensures ParseIntHex(['0', x] + d) == ParseIntHex(d)
  {
    ParseHexPrefix(x, d);
    if d != [] {
      ParseUnprefixed(d);
    }
  }

  /** A minus sign negates the digits that follow it. */
  lemma ParseNegated(s: seq<char>)
    requires |s| >= 2 && s[0] == '-'
    requires !(|s| >= 3 && s[1] == '0' && (s[2] == 'x' || s[2] == 'X'))
    ensures var p := DigitPrefix(s[1..]);
      ParseIntHex(s) == if p == [] then None else Some(0 - HexValue(p))
  {
    assert TrimStart(s) == s;
  }

  lemma ParseMinus12345()
    ensures ParseIntHex("-12345") == Some(-74565)
  {
    var s := "-12345";
    var d := s[1..];
    assert d == "12345";
    assert forall i :: 0 <= i < |d| ==> IsHexDigit(d[i]);
    DigitPrefixOfDigits(d);
    ValueOf12345();
    ParseNegated(s);
  }

  /** A leading sign is accepted, and the channels then come from the
      two's-complement bits: "-12345" is -74565, i.e. (254, 220, 187). */
  lemma NegativeValueWraps()
    ensures HexToRgb("-12345") == Some(Rgb(254, 220, 187))
  {
    var s := "-12345";
    RemoveFirstAbsent(s, '#');
    ParseMinus12345();
    HexToRgbOfValue(s, -74565);
    assert -74565 / 65536 == -2 && -74565 / 256 == -292;
    assert (-2) % 256 == 254 && (-292) % 256 == 220 && -74565 % 256 == 187;
  }
}
