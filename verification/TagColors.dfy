/** Tag colours: opaque ARGB integers, read from whatever a client sends. */
module TagColors {
  import opened Common
  import opened Text

  const DEFAULT_TAG_COLOR: int := 0xFF64748B

  /** A colour as it arrives in JSON. `Unreadable` is null and every value whose text form
      is not a numeral (booleans, floats, lists, objects). */
  datatype RawColor = Unreadable | Number(n: int) | Written(text: string)

  function DigitValue(c: char): (v: Option<nat>)
    ensures v.Some? ==> v.value < 16
  {
    if '0' <= c <= '9' then Some((c as int) - ('0' as int))
    else if 'a' <= c <= 'f' then Some(10 + (c as int) - ('a' as int))
    else if 'A' <= c <= 'F' then Some(10 + (c as int) - ('A' as int))
    else None
  }

  function Power(b: nat, e: nat): (r: nat)
    ensures b > 0 ==> r > 0
  {
    if e == 0 then 1 else b * Power(b, e - 1)
  }

  /** A run of digits in which single underscores may separate two digits. */
  function DigitRun(s: string, base: nat): Option<nat> {
    if s == [] then None else
    var d := DigitValue(s[|s| - 1]);
    if d.None? || d.value >= base then None
    else if |s| == 1 then d
    else
      var high := DigitRun(if s[|s| - 2] == '_' then s[..|s| - 2] else s[..|s| - 1], base);
      if high.None? then None else Some(base * high.value + d.value)
  }

  lemma {:induction false} DigitRunBound(s: string, base: nat)
    requires base > 0
    ensures DigitRun(s, base).Some? ==> DigitRun(s, base).value < Power(base, |s|)
  {
    if DigitRun(s, base).Some? && |s| > 1 {
      var rest := if s[|s| - 2] == '_' then s[..|s| - 2] else s[..|s| - 1];
      DigitRunBound(rest, base);
      PowerStep(base, |rest|, DigitRun(rest, base).value, DigitValue(s[|s| - 1]).value);
      PowerMonotone(base, |rest| + 1, |s|);
    } else if |s| == 1 {
      assert Power(base, 1) == base * Power(base, 0);
    }
  }

  lemma PowerStep(b: nat, e: nat, high: nat, d: nat)
    requires high < Power(b, e) && d < b
    ensures b * high + d < Power(b, e + 1)
  {
    assert b * (high + 1) <= b * Power(b, e);
  }

  lemma PowerMonotone(b: nat, e: nat, f: nat)
    requires b > 0 && e <= f
    ensures Power(b, e) <= Power(b, f)
  {
    if e < f {
      PowerMonotone(b, e, f - 1);
      assert Power(b, f - 1) <= b * Power(b, f - 1);
    }
  }

  /** The digits of a numeral: no sign and, in base 16, no `0x` prefix. */
  function Digits(t: string, base: nat): (d: string)
    ensures |d| <= |t|
  {
    var unsigned := if t != [] && (t[0] == '-' || t[0] == '+') then t[1..] else t;
    if base == 16 && |unsigned| >= 2 && unsigned[0] == '0' && (unsigned[1] == 'x' || unsigned[1] == 'X') then
      if |unsigned| >= 3 && unsigned[2] == '_' then unsigned[3..] else unsigned[2..]
    else unsigned
  }

  /** `int(text, base)`: surrounding white space, one sign, and in base 16 one `0x` prefix. */
  function ParseInt(text: string, base: nat): Option<int> {
    var t := Trim(text);
    match DigitRun(Digits(t, base), base)
    case None => None
    case Some(v) => Some((if t != [] && t[0] == '-' then 0 - v else v) as int)
  }

  lemma ParseIntBound(text: string, base: nat)
    requires base > 0
    ensures ParseInt(text, base).Some? ==>
              0 - Power(base, |text|) < ParseInt(text, base).value < Power(base, |text|)
  {
    var d := Digits(Trim(text), base);
    DigitRunBound(d, base);
    PowerMonotone(base, |d|, |text|);
  }

  /** `0xFF000000 | v` on unbounded two's complement integers: a non-negative `v` below
      bit 24 gains the opaque byte; a negative one already has all those bits set. */
  function OrOpaque(v: int): int
    requires -0x1000000 < v < 0x1000000
  {
    if v >= 0 then 0xFF000000 + v else v
  }

  /** An integer colour: kept to 32 bits, made opaque when it carries no alpha. */
  function FromNumber(n: int): int {
    var number := n % 0x1_0000_0000;
    if number > 0xFFFFFF then number else OrOpaque(number)
  }

  /** The text of a `#rrggbb` colour, ready to be read in base 16. */
  function HashText(text: string): Option<string> {
    var t := Trim(text);
    if |t| == 7 && t[0] == '#' then Some(t[1..]) else None
  }

  function NormalizeColor(c: RawColor): int {
    match c
    case Unreadable => DEFAULT_TAG_COLOR
    case Number(n) => FromNumber(n)
    case Written(text) =>
      match HashText(text) {
        case Some(hex) =>
          (ParseIntBound(hex, 16);
           assert Power(16, 6) == 0x1000000;
           match ParseInt(hex, 16)
           case None => DEFAULT_TAG_COLOR
           case Some(v) => OrOpaque(v))
        case None =>
          match ParseInt(text, 10)
          case None => DEFAULT_TAG_COLOR
          case Some(n) => FromNumber(n)
      }
  }

  predicate ProperColor(color: int) {
    0x1000000 <= color <= 0xFFFFFFFF
  }

  /** A signed `#rrggbb`, such as "#-00001": the one kind of text that escapes the range. */
  predicate SignedHash(c: RawColor) {
    && c.Written?
    && var hex := HashText(c.text);
    && hex.Some?
    && ParseInt(hex.value, 16).Some? && ParseInt(hex.value, 16).value < 0
  }

  /** The stored colour is an opaque 32-bit colour exactly when the text was not a negative
      number behind a `#`. */
  lemma ColorRange(c: RawColor)
    ensures ProperColor(NormalizeColor(c)) <==> !SignedHash(c)
  {
    if c.Written? && HashText(c.text).Some? {
      ParseIntBound(HashText(c.text).value, 16);
      assert Power(16, 6) == 0x1000000;
    }
  }

  lemma SignedHashExample()
    ensures NormalizeColor(Written("#-00001")) == -1
  {
    var t := "#-00001";
    assert Trimmed(t);
    TrimFixed(t);
    var hex := t[1..];
    assert hex == "-00001";
    TrimFixed(hex);
    assert hex[1..] == "00001";
    var d := "00001";
    assert d[..4] == "0000" && d[..4][..3] == "000" && d[..4][..3][..2] == "00" && d[..4][..3][..2][..1] == "0";
    assert DigitRun("0", 16) == Some(0);
    assert DigitRun("00", 16) == Some(0);
    assert DigitRun("000", 16) == Some(0);
    assert DigitRun("0000", 16) == Some(0);
    assert DigitRun(d, 16) == Some(1);
  }

  /** Six hexadecimal digits behind a `#` are never negative. */
  lemma PlainHashIsProper(text: string)
    requires |text| == 7 && text[0] == '#'
    requires forall i :: 1 <= i < 7 ==> DigitValue(text[i]).Some?
    ensures ProperColor(NormalizeColor(Written(text)))
  {
    TrimFixed(text);
    TrimFixed(text[1..]);
    assert forall i :: 0 <= i < 6 ==> text[1..][i] == text[i + 1];
    ColorRange(Written(text));
  }

  /** Normalising is stable on what it stores: a stored colour written out as a number and
      read back is the same colour exactly when it is proper. */
  lemma NormalizeFixed(color: int)
    ensures NormalizeColor(Number(color)) == color <==> ProperColor(color)
  {
  }

  // ---- What a colour is read as -------------------------------------------------------------------

  /** The digit of this value, in either case. */
  predicate HexDigit(c: char, v: nat) {
    if v < 10 then c == "0123456789"[v] else v < 16 && (c == "abcdef"[v - 10] || c == "ABCDEF"[v - 10])
  }

  lemma HexDigitValue(c: char, v: nat)
    requires HexDigit(c, v)
    ensures DigitValue(c) == Some(v)
  {
    assert "0123456789" == ['0', '1', '2', '3', '4', '5', '6', '7', '8', '9'];
    assert "abcdef" == ['a', 'b', 'c', 'd', 'e', 'f'] && "ABCDEF" == ['A', 'B', 'C', 'D', 'E', 'F'];
  }

  /** One more digit at the end of a run of digits. */
  lemma OneMoreDigit(s: string, c: char, base: nat, d: nat)
    requires DigitValue(c) == Some(d) && d < base && s != "" && s[|s| - 1] != '_'
    ensures DigitRun(s + [c], base)
         == match DigitRun(s, base) case None => None case Some(high) => Some(base * high + d)
  {
    var t := s + [c];
    assert t[..|t| - 1] == s;
  }

  /** The number with these hexadecimal digits. */
  function FromHex(d: seq<nat>): nat {
    if d == [] then 0 else 16 * FromHex(d[..|d| - 1]) + d[|d| - 1]
  }

  lemma {:induction false} HexRun(text: string, d: seq<nat>)
    requires |text| == |d| > 0 && forall i :: 0 <= i < |d| ==> DigitValue(text[i]) == Some(d[i])
    ensures DigitRun(text, 16) == Some(FromHex(d))
  {
    var n := |d| - 1;
    if n > 0 {
      HexRun(text[..n], d[..n]);
      OneMoreDigit(text[..n], text[n], 16, d[n]);
      assert text == text[..n] + [text[n]];
    } else {
      assert d[..0] == [];
    }
  }

  lemma SixDigits(d: seq<nat>)
    requires |d| == 6
    ensures FromHex(d) == 0x100000 * d[0] + 0x10000 * d[1] + 0x1000 * d[2] + 0x100 * d[3] + 0x10 * d[4] + d[5]
  {
    assert d[..5][..4] == d[..4] && d[..4][..3] == d[..3] && d[..3][..2] == d[..2] && d[..2][..1] == d[..1];
    assert d[..1][..0] == [];
    assert FromHex(d[..1]) == d[0];
    assert FromHex(d[..2]) == 16 * d[0] + d[1];
    assert FromHex(d[..3]) == 0x100 * d[0] + 16 * d[1] + d[2];
    assert FromHex(d[..4]) == 0x1000 * d[0] + 0x100 * d[1] + 16 * d[2] + d[3];
    assert FromHex(d[..5]) == 0x10000 * d[0] + 0x1000 * d[1] + 0x100 * d[2] + 16 * d[3] + d[4];
  }

  /** `#rrggbb`, with or without white space around it, is that colour, opaque. */
  lemma HashColorIs(text: string, core: string, d: seq<nat>)
    requires IsCore(text, core) && |core| == 7 && core[0] == '#'
    requires |d| == 6 && forall i :: 0 <= i < 6 ==> HexDigit(core[i + 1], d[i])
    ensures NormalizeColor(Written(text))
         == 0xFF000000 + 0x100000 * d[0] + 0x10000 * d[1] + 0x1000 * d[2] + 0x100 * d[3] + 0x10 * d[4] + d[5]
  {
    var hex := core[1..];
    CoreIsTrim(text, core);
    assert forall i :: 0 <= i < 6 ==> hex[i] == core[i + 1];
    forall i | 0 <= i < 6 ensures DigitValue(hex[i]) == Some(d[i]) { HexDigitValue(hex[i], d[i]); }
    TrimFixed(hex);
    HexRun(hex, d);
    SixDigits(d);
    PlainHex(hex);
  }

  lemma PlainHex(hex: string)
    requires |hex| == 6 && forall i :: 0 <= i < 6 ==> DigitValue(hex[i]).Some?
    ensures Digits(hex, 16) == hex
  {
  }

  /** A number counts modulo 2^32, and is made opaque when it has no alpha. */
  lemma NumberColorIs(n: int, m: int, k: int)
    requires n == m + k * 0x1_0000_0000 && 0 <= m < 0x1_0000_0000
    ensures NormalizeColor(Number(n)) == if m < 0x1000000 then m + 0xFF000000 else m
  {
    assert n % 0x1_0000_0000 == m;
  }

  lemma {:induction false} DecimalRun(n: nat)
    ensures DigitRun(Decimal(n), 10) == Some(n)
  {
    if n >= 10 {
      DecimalRun(n / 10);
      OneMoreDigit(Decimal(n / 10), DigitOf(n % 10), 10, n % 10);
    }
  }

  /** A number written out, with or without a minus sign and white space around it, is read as that number. */
  lemma WrittenColorIs(text: string, n: nat, negative: bool)
    requires IsCore(text, (if negative then "-" else "") + Decimal(n))
    ensures NormalizeColor(Written(text)) == NormalizeColor(Number(if negative then 0 - n else n))
  {
    var t := (if negative then "-" else "") + Decimal(n);
    CoreIsTrim(text, t);
    DecimalRun(n);
    SignedDigits(n, negative);
    assert t[0] == (if negative then '-' else Decimal(n)[0]) && t[0] != '#';
    assert ParseInt(text, 10) == Some(if negative then 0 - n else n);
  }

  lemma SignedDigits(n: nat, negative: bool)
    ensures Digits((if negative then "-" else "") + Decimal(n), 10) == Decimal(n)
  {
    var d := Decimal(n);
    assert IsDigit(d[0]);
    if negative {
      assert ("-" + d)[0] == '-' && ("-" + d)[1..] == d;
    } else {
      assert "" + d == d;
    }
  }

  lemma {:induction false} OnlyDigits(s: string, base: nat)
    requires DigitRun(s, base).Some?
    ensures forall c :: c in s ==> c == '_' || (DigitValue(c).Some? && DigitValue(c).value < base)
  {
    if |s| > 1 {
      var rest := if s[|s| - 2] == '_' then s[..|s| - 2] else s[..|s| - 1];
      OnlyDigits(rest, base);
      assert s == if s[|s| - 2] == '_' then rest + ['_', s[|s| - 1]] else rest + [s[|s| - 1]];
    }
  }

  lemma TrimHas(text: string, c: char)
    requires c in text && !IsSpace(c)
    ensures c in Trim(text)
  {
    TrimIsCore(text);
    var i, j :| CoreAt(text, Trim(text), i, j);
    var k :| 0 <= k < |text| && text[k] == c;
    assert Trim(text)[k - i] == c;
  }

  /** A text with any other character in it, and null, is the default colour. */
  lemma OtherColorIsDefault(text: string, c: char)
    requires c in text && !IsSpace(c) && DigitValue(c).None? && c !in {'_', '+', '-', 'x', 'X', '#'}
    ensures NormalizeColor(Written(text)) == 0xFF64748B && NormalizeColor(Unreadable) == 0xFF64748B
  {
    TrimHas(text, c);
    if HashText(text).Some? {
      var hex := HashText(text).value;
      assert c in hex by { assert Trim(text) == ['#'] + hex; }
      NoNumeral(hex, c, 16);
    } else {
      NoNumeral(text, c, 10);
    }
  }

  lemma DigitsHave(t: string, c: char, base: nat)
    requires c in t && DigitValue(c).None? && c !in {'_', '+', '-', 'x', 'X'}
    ensures c in Digits(t, base)
  {
    var d := Digits(t, base);
    var cut := |t| - |d|;
    var k :| 0 <= k < |t| && t[k] == c;
    assert forall l :: 0 <= l < cut ==> t[l] in {'+', '-', '0', 'x', 'X', '_'};
    assert t[cut..] == d;
    assert d[k - cut] == c;
  }

  lemma NoNumeral(text: string, c: char, base: nat)
    requires c in text && !IsSpace(c) && DigitValue(c).None? && c !in {'_', '+', '-', 'x', 'X'}
    ensures ParseInt(text, base).None?
  {
    TrimHas(text, c);
    DigitsHave(Trim(text), c, base);
    var d := Digits(Trim(text), base);
    if DigitRun(d, base).Some? { OnlyDigits(d, base); }
  }

  /** Without a `#` in front, a text with anything but decimal digits, underscores and signs in it is the
      default colour, a hexadecimal number included. */
  lemma PlainTextIsDecimal(text: string, c: char)
    requires Trim(text) != "" && Trim(text)[0] != '#'
    requires c in text && !IsSpace(c) && !('0' <= c <= '9') && c !in {'_', '+', '-'}
    ensures NormalizeColor(Written(text)) == 0xFF64748B
  {
    TrimHas(text, c);
    var t := Trim(text);
    var d := Digits(t, 10);
    assert t == (if t[0] == '-' || t[0] == '+' then [t[0]] + d else d);
    if DigitRun(d, 10).Some? {
      OnlyDigits(d, 10);
      assert c in d;
    }
  }

  /** Behind a `#` the six characters may also be `0x` and four digits. */
  lemma PrefixedColorIs(text: string, core: string, d: seq<nat>)
    requires IsCore(text, core) && |core| == 7 && core[0] == '#' && core[1] == '0' && core[2] in {'x', 'X'}
    requires |d| == 4 && forall i :: 0 <= i < 4 ==> HexDigit(core[i + 3], d[i])
    ensures NormalizeColor(Written(text)) == 0xFF000000 + 0x1000 * d[0] + 0x100 * d[1] + 0x10 * d[2] + d[3]
  {
    var hex := core[1..];
    var digits := hex[2..];
    CoreIsTrim(text, core);
    forall i | 0 <= i < 4 ensures DigitValue(digits[i]) == Some(d[i]) && digits[i] != '_' && !IsSpace(digits[i]) {
      assert digits[i] == core[i + 3];
      HexDigitValue(core[i + 3], d[i]);
    }
    assert hex[0] == '0' && hex[1] == core[2] && hex[5] == digits[3];
    TrimFixed(hex);
    HexRun(digits, d);
    FourDigits(d);
    assert hex[2] == digits[0];
    assert Digits(hex, 16) == digits;
  }

  lemma FourDigits(d: seq<nat>)
    requires |d| == 4
    ensures FromHex(d) == 0x1000 * d[0] + 0x100 * d[1] + 0x10 * d[2] + d[3]
  {
    assert d[..3][..2] == d[..2] && d[..2][..1] == d[..1] && d[..1][..0] == [];
    assert FromHex(d[..1]) == d[0];
    assert FromHex(d[..2]) == 16 * d[0] + d[1];
    assert FromHex(d[..3]) == 0x100 * d[0] + 16 * d[1] + d[2];
  }
}
