/** URL-safe base64 (section 5 of RFC 4648): the encoder, and the decoder as the lenient
    automaton that reads it. */
module Base64 {
  import opened Common

  type Byte = b: int | 0 <= b < 256 witness 0
  type Sextet = v: int | 0 <= v < 64 witness 0

  function Symbol(v: Sextet): char {
    if v < 26 then (('A' as int) + v) as char
    else if v < 52 then (('a' as int) + v - 26) as char
    else if v < 62 then (('0' as int) + v - 52) as char
    else if v == 62 then '-'
    else '_'
  }

  /** Both alphabets are read: `+` and `/` are the standard forms of `-` and `_`. */
  function SextetOf(c: char): Option<Sextet> {
    if 'A' <= c <= 'Z' then Some((c as int) - ('A' as int))
    else if 'a' <= c <= 'z' then Some((c as int) - ('a' as int) + 26)
    else if '0' <= c <= '9' then Some((c as int) - ('0' as int) + 52)
    else if c == '-' || c == '+' then Some(62)
    else if c == '_' || c == '/' then Some(63)
    else None
  }

  predicate UrlSafe(c: char) {
    'A' <= c <= 'Z' || 'a' <= c <= 'z' || '0' <= c <= '9' || c == '_' || c == '-'
  }

  lemma SymbolRead(v: Sextet)
    ensures UrlSafe(Symbol(v)) && SextetOf(Symbol(v)) == Some(v)
  {
  }

  /** Three bytes become four symbols; what is left over is filled up with `=`. */
  function Encode(b: seq<Byte>): string {
    if b == [] then ""
    else if |b| == 1 then [Symbol(b[0] / 4), Symbol(b[0] % 4 * 16), '=', '=']
    else if |b| == 2 then [Symbol(b[0] / 4), Symbol(b[0] % 4 * 16 + b[1] / 16), Symbol(b[1] % 16 * 4), '=']
    else [Symbol(b[0] / 4), Symbol(b[0] % 4 * 16 + b[1] / 16), Symbol(b[1] % 16 * 4 + b[2] / 64), Symbol(b[2] % 64)]
         + Encode(b[3..])
  }

  function StripPadding(s: string): (r: string)
    ensures r <= s
    ensures r != [] ==> r[|r| - 1] != '='
    ensures forall i :: |r| <= i < |s| ==> s[i] == '='
  {
    if s != [] && s[|s| - 1] == '=' then StripPadding(s[..|s| - 1]) else s
  }

  function Padding(n: nat): (r: string)
    ensures |r| == n && forall i :: 0 <= i < n ==> r[i] == '='
  {
    if n == 0 then "" else Padding(n - 1) + "="
  }

  /** The filling the decoder puts back: up to the next multiple of four. */
  function Refill(s: string): string {
    s + Padding((4 - |s| % 4) % 4)
  }

  /** The decoder, after `quad` symbols of a group: `left` is what the last of them has left over,
      `pads` the fillers seen since. Foreign characters are skipped; a full filling ends the text. */
  function Scan(s: string, quad: nat, left: Sextet, pads: nat): Option<seq<Byte>>
    requires quad < 4
    decreases s
  {
    if s == [] then (if quad == 0 then Some([]) else None)
    else if s[0] == '=' then
      if quad < 2 then Scan(s[1..], quad, left, pads)
      else if quad + pads + 1 >= 4 then Some([])
      else Scan(s[1..], quad, left, pads + 1)
    else match SextetOf(s[0])
      case None => Scan(s[1..], quad, left, pads)
      case Some(v) =>
        if quad == 0 then Scan(s[1..], 1, v, 0)
        else if quad == 1 then Prepend(left * 4 % 256 + v / 16, Scan(s[1..], 2, v % 16, 0))
        else if quad == 2 then Prepend(left % 16 * 16 + v / 4, Scan(s[1..], 3, v % 4, 0))
        else Prepend(left % 4 * 64 + v, Scan(s[1..], 0, 0, 0))
  }

  function Prepend(b: Byte, rest: Option<seq<Byte>>): Option<seq<Byte>> {
    if rest.None? then None else Some([b] + rest.value)
  }

  function Decode(s: string): Option<seq<Byte>> {
    Scan(s, 0, 0, 0)
  }

  // ---- Reading back ------------------------------------------------------------------

  lemma ScanSymbol(v: Sextet, rest: string, quad: nat, left: Sextet, pads: nat)
    requires quad < 4
    ensures Scan([Symbol(v)] + rest, quad, left, pads)
         == (if quad == 0 then Scan(rest, 1, v, 0)
             else if quad == 1 then Prepend(left * 4 % 256 + v / 16, Scan(rest, 2, v % 16, 0))
             else if quad == 2 then Prepend(left % 16 * 16 + v / 4, Scan(rest, 3, v % 4, 0))
             else Prepend(left % 4 * 64 + v, Scan(rest, 0, 0, 0)))
  {
    SymbolRead(v);
    assert ([Symbol(v)] + rest)[1..] == rest;
  }

  lemma ScanTwo(x: Sextet, y: Sextet, rest: string)
    ensures Scan([Symbol(x), Symbol(y)] + rest, 0, 0, 0) == Prepend(x * 4 % 256 + y / 16, Scan(rest, 2, y % 16, 0))
  {
    assert [Symbol(x), Symbol(y)] + rest == [Symbol(x)] + ([Symbol(y)] + rest);
    ScanSymbol(x, [Symbol(y)] + rest, 0, 0, 0);
    ScanSymbol(y, rest, 1, x, 0);
  }

  lemma ScanLastTwo(x: Sextet, y: Sextet, rest: string, left: Sextet)
    ensures Scan([Symbol(x), Symbol(y)] + rest, 2, left, 0)
         == Prepend(left % 16 * 16 + x / 4, Prepend(x % 4 * 64 + y, Scan(rest, 0, 0, 0)))
  {
    var tail := [Symbol(y)] + rest;
    assert [Symbol(x), Symbol(y)] + rest == [Symbol(x)] + tail;
    assert Scan([Symbol(x)] + tail, 2, left, 0) == Prepend(left % 16 * 16 + x / 4, Scan(tail, 3, x % 4, 0)) by {
      ScanSymbol(x, tail, 2, left, 0);
    }
    assert Scan(tail, 3, x % 4, 0) == Prepend(x % 4 % 4 * 64 + y, Scan(rest, 0, 0, 0)) by {
      ScanSymbol(y, rest, 3, x % 4, 0);
    }
  }

  lemma Split16(m: int, q: int)
    requires 0 <= q < 16
    ensures (m * 16 + q) / 16 == m && (m * 16 + q) % 16 == q
  {
  }

  lemma Split4(m: int, q: int)
    requires 0 <= q < 4
    ensures (m * 4 + q) / 4 == m && (m * 4 + q) % 4 == q
  {
  }

  /** The bits of three bytes, regrouped and put together again. */
  lemma Regroup(x: Byte, y: Byte, z: Byte)
    ensures var b, c, d := x % 4 * 16 + y / 16, y % 16 * 4 + z / 64, z % 64;
            && x / 4 * 4 % 256 + b / 16 == x
            && b % 16 % 16 * 16 + c / 4 == y
            && c % 4 * 64 + d == z
  {
    Split16(x % 4, y / 16);
    Split4(y % 16, z / 64);
    assert y / 16 * 16 + y % 16 == y && z / 64 * 64 + z % 64 == z;
  }

  function Group(x: Byte, y: Byte, z: Byte): (r: string)
    ensures |r| == 4
  {
    [Symbol(x / 4), Symbol(x % 4 * 16 + y / 16)] + [Symbol(y % 16 * 4 + z / 64), Symbol(z % 64)]
  }

  lemma EncodeGroup(b: seq<Byte>)
    requires |b| >= 3
    ensures Encode(b) == Group(b[0], b[1], b[2]) + Encode(b[3..])
  {
  }

  lemma ScanGroup(x: Byte, y: Byte, z: Byte, rest: string)
    ensures Scan(Group(x, y, z) + rest, 0, 0, 0) == Prepend(x, Prepend(y, Prepend(z, Scan(rest, 0, 0, 0))))
  {
    var b, c, d := x % 4 * 16 + y / 16, y % 16 * 4 + z / 64, z % 64;
    var first, second := [Symbol(x / 4), Symbol(b)], [Symbol(c), Symbol(d)];
    assert Group(x, y, z) + rest == first + (second + rest);
    ScanTwo(x / 4, b, second + rest);
    ScanLastTwo(c, d, rest, b % 16);
    Regroup(x, y, z);
  }

  /** Main result: every byte string is read back. */
  lemma {:induction false} RoundTrip(b: seq<Byte>)
    ensures Decode(Encode(b)) == Some(b)
  {
    if |b| == 1 {
      ReadOne(b[0]);
      assert b == [b[0]];
    } else if |b| == 2 {
      ReadTwo(b[0], b[1]);
      assert b == [b[0], b[1]];
    } else if |b| >= 3 {
      EncodeGroup(b);
      ScanGroup(b[0], b[1], b[2], Encode(b[3..]));
      RoundTrip(b[3..]);
      assert b == [b[0]] + ([b[1]] + ([b[2]] + b[3..]));
    }
  }

  lemma PrependLast(b: Byte)
    ensures Prepend(b, Some([])) == Some([b])
  {
    var none: seq<Byte> := [];
    assert [b] + none == [b];
  }

  /** One or two bytes end in a filling, which ends the text. */
  lemma ReadOne(x: Byte)
    ensures Decode(Encode([x])) == Some([x])
  {
    var w := x % 4 * 16;
    ScanTwo(x / 4, w, "==");
    Regroup(x, 0, 0);
    assert "=="[1..] == "=";
    assert Scan("=", 2, w % 16, 1) == Some([]);
    assert Scan("==", 2, w % 16, 0) == Some([]);
    assert Encode([x]) == [Symbol(x / 4), Symbol(w)] + "==";
    PrependLast(x);
  }

  lemma ReadTwo(x: Byte, y: Byte)
    ensures Decode(Encode([x, y])) == Some([x, y])
  {
    var w, u := x % 4 * 16 + y / 16, y % 16 * 4;
    assert Encode([x, y]) == [Symbol(x / 4), Symbol(w)] + ([Symbol(u)] + "=");
    ScanTwo(x / 4, w, [Symbol(u)] + "=");
    ScanSymbol(u, "=", 2, w % 16, 0);
    Regroup(x, y, 0);
    assert Scan("=", 3, u % 4, 0) == Some([]);
    PrependLast(y);
    assert [x] + [y] == [x, y];
  }

  ghost predicate AllUrlSafe(s: string) {
    forall i :: 0 <= i < |s| ==> UrlSafe(s[i])
  }

  lemma GroupUrlSafe(x: Byte, y: Byte, z: Byte)
    ensures AllUrlSafe(Group(x, y, z))
  {
    var r := Group(x, y, z);
    SymbolRead(x / 4);
    SymbolRead(x % 4 * 16 + y / 16);
    SymbolRead(y % 16 * 4 + z / 64);
    SymbolRead(z % 64);
    assert r[0] == Symbol(x / 4) && r[1] == Symbol(x % 4 * 16 + y / 16);
    assert r[2] == Symbol(y % 16 * 4 + z / 64) && r[3] == Symbol(z % 64);
  }

  ghost predicate Shaped(b: seq<Byte>) {
    var s := StripPadding(Encode(b));
    |s| == (4 * |b| + 2) / 3 && AllUrlSafe(s) && Refill(s) == Encode(b)
  }

  lemma ShapeOne(x: Byte)
    ensures Shaped([x])
  {
    GroupUrlSafe(x, 0, 0);
    StripEnds(Group(x, 0, 0)[..2], "==");
    assert Encode([x]) == Group(x, 0, 0)[..2] + "==";
  }

  lemma ShapeTwo(x: Byte, y: Byte)
    ensures Shaped([x, y])
  {
    GroupUrlSafe(x, y, 0);
    StripEnds(Group(x, y, 0)[..3], "=");
    assert Encode([x, y]) == Group(x, y, 0)[..3] + "=";
  }

  /** The shape of an encoding: symbols, then the filling that the number of symbols calls for. */
  lemma {:induction false} EncodeShape(b: seq<Byte>)
    ensures var s := StripPadding(Encode(b));
            |s| == (4 * |b| + 2) / 3 && AllUrlSafe(s) && Refill(s) == Encode(b)
  {
    if |b| == 1 {
      ShapeOne(b[0]);
      assert b == [b[0]];
    } else if |b| == 2 {
      ShapeTwo(b[0], b[1]);
      assert b == [b[0], b[1]];
    } else if |b| >= 3 {
      EncodeShape(b[3..]);
      GroupUrlSafe(b[0], b[1], b[2]);
      EncodeGroup(b);
      PrefixGroup(Group(b[0], b[1], b[2]), StripPadding(Encode(b[3..])), Encode(b[3..]));
    }
  }

  lemma PrefixGroup(group: string, s: string, whole: string)
    requires |group| == 4 && AllUrlSafe(group) && AllUrlSafe(s) && Refill(s) == whole
    ensures var t := StripPadding(group + whole);
            t == group + s && AllUrlSafe(t) && Refill(t) == group + whole
  {
    var fill := Padding((4 - |s| % 4) % 4);
    Assoc(group, s, fill);
    FourMore(|s|);
    assert AllUrlSafe(group + s);
    StripEnds(group + s, fill);
  }

  lemma FourMore(n: nat)
    ensures (4 + n) % 4 == n % 4
  {
  }

  lemma {:induction false} StripEnds(s: string, fill: string)
    requires forall i :: 0 <= i < |fill| ==> fill[i] == '='
    requires AllUrlSafe(s)
    ensures StripPadding(s + fill) == s
  {
    if fill == [] {
      assert s + fill == s;
    } else {
      var shorter := fill[..|fill| - 1];
      assert (s + fill)[..|s + fill| - 1] == s + shorter;
      StripEnds(s, shorter);
    }
  }

  lemma {:induction false} EncodeWhole(b: seq<Byte>)
    ensures |Encode(b)| % 4 == 0
  {
    if |b| >= 3 {
      EncodeWhole(b[3..]);
      FourMore(|Encode(b[3..])|);
    }
  }
}
