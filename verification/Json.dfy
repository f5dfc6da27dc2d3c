/** The part of JSON (RFC 8259) that settings travel in: objects whose members are strings,
    printed in plain ASCII. */
module Json {
  import opened Common

  // ---- Printing ---------------------------------------------------------------------

  function HexDigit(v: int): char
    requires 0 <= v < 16
  {
    if v < 10 then (('0' as int) + v) as char else (('a' as int) + v - 10) as char
  }

  function Hex4(n: int): (r: string)
    requires 0 <= n < 0x10000
    ensures |r| == 4
  {
    [HexDigit(n / 16 / 16 / 16), HexDigit(n / 16 / 16 % 16), HexDigit(n / 16 % 16), HexDigit(n % 16)]
  }

  /** A `\u` escape of one 16-bit unit. */
  function Unit(n: int): (r: string)
    requires 0 <= n < 0x10000
    ensures |r| == 6
  {
    ['\\', 'u'] + Hex4(n)
  }

  function ShortEscape(c: char): Option<char> {
    if c == '"' then Some('"')
    else if c == '\\' then Some('\\')
    else if c == '\n' then Some('n')
    else if c == '\r' then Some('r')
    else if c == '\t' then Some('t')
    else if c as int == 0x08 then Some('b')
    else if c as int == 0x0C then Some('f')
    else None
  }

  /** How one character is written: as itself from space to tilde, else as an escape, and as two
      surrogates beyond the basic plane. */
  function Escape(c: char): (r: string)
    ensures 1 <= |r| <= 12
  {
    var n := c as int;
    if ShortEscape(c).Some? then ['\\', ShortEscape(c).value]
    else if ' ' <= c <= '~' then [c]
    else if n < 0x10000 then Unit(n)
    else Unit(HighUnit(c)) + Unit(LowUnit(c))
  }

  /** The two surrogates of a character beyond the basic plane. */
  function HighUnit(c: char): (u: int)
    requires c as int >= 0x10000
    ensures 0xD800 <= u < 0xDC00
  {
    0xD800 + ((c as int) - 0x10000) / 0x400
  }

  function LowUnit(c: char): (u: int)
    requires c as int >= 0x10000
    ensures 0xDC00 <= u < 0xE000
  {
    0xDC00 + ((c as int) - 0x10000) % 0x400
  }

  function EscapeAll(s: string): string {
    if s == [] then "" else Escape(s[0]) + EscapeAll(s[1..])
  }

  function Quote(s: string): string {
    "\"" + EscapeAll(s) + "\""
  }

  datatype Member = Member(name: string, value: string)

  function Members(ms: seq<Member>): string
    requires ms != []
  {
    Quote(ms[0].name) + ([':'] + (Quote(ms[0].value) + (if |ms| == 1 then "" else [','] + Members(ms[1..]))))
  }

  function Object(ms: seq<Member>): string {
    "{" + (if ms == [] then "" else Members(ms)) + "}"
  }

  // ---- Reading ----------------------------------------------------------------------

  datatype Read<T> = Bad | Good(value: T, rest: string)

  function HexValue(c: char): Option<int> {
    if '0' <= c <= '9' then Some((c as int) - ('0' as int))
    else if 'a' <= c <= 'f' then Some((c as int) - ('a' as int) + 10)
    else if 'A' <= c <= 'F' then Some((c as int) - ('A' as int) + 10)
    else None
  }

  /** The four digits after `\u`. */
  function UnitOf(s: string): (r: Option<int>)
    ensures r.Some? ==> |s| >= 4 && 0 <= r.value < 0x10000
  {
    if |s| < 4 then None else
    var a, b, c, d := HexValue(s[0]), HexValue(s[1]), HexValue(s[2]), HexValue(s[3]);
    if a.None? || b.None? || c.None? || d.None? then None
    else Some(a.value * 0x1000 + b.value * 0x100 + c.value * 16 + d.value)
  }

  /** One escape, after its backslash. Halves of a surrogate pair that stand alone are refused. */
  function ReadEscape(s: string): (r: Read<char>)
    ensures r.Good? ==> |r.rest| < |s|
  {
    if s == [] then Bad
    else match s[0]
      case '"' => Good('"', s[1..])
      case '\\' => Good('\\', s[1..])
      case '/' => Good('/', s[1..])
      case 'n' => Good('\n', s[1..])
      case 'r' => Good('\r', s[1..])
      case 't' => Good('\t', s[1..])
      case 'b' => Good(0x08 as char, s[1..])
      case 'f' => Good(0x0C as char, s[1..])
      case 'u' =>
        var high := UnitOf(s[1..]);
        if high.None? then Bad
        else if high.value < 0xD800 || high.value >= 0xE000 then Good(high.value as char, s[5..])
        else if high.value >= 0xDC00 || |s| < 7 || s[5] != '\\' || s[6] != 'u' then Bad
        else
          var low := UnitOf(s[7..]);
          if low.None? || !(0xDC00 <= low.value < 0xE000) then Bad
          else Good((0x10000 + (high.value - 0xD800) * 0x400 + (low.value - 0xDC00)) as char, s[11..])
      case _ => Bad
  }

  /** A string, after its opening quote. */
  function ReadString(s: string): (r: Read<string>)
    ensures r.Good? ==> |r.rest| < |s|
    decreases |s|
  {
    if s == [] then Bad
    else if s[0] == '"' then Good("", s[1..])
    else if s[0] == '\\' then
      match ReadEscape(s[1..])
      case Bad => Bad
      case Good(c, rest) => Continue(c, ReadString(rest))
    else if s[0] < ' ' then Bad
    else Continue(s[0], ReadString(s[1..]))
  }

  function Continue(c: char, r: Read<string>): (t: Read<string>)
    ensures t.Good? <==> r.Good?
    ensures t.Good? ==> t.value == [c] + r.value && t.rest == r.rest
  {
    if r.Bad? then Bad else Good([c] + r.value, r.rest)
  }

  /** White space is allowed between tokens. */
  function Skip(s: string): (r: string)
    ensures |r| <= |s|
  {
    if s != [] && s[0] in {' ', '\t', '\n', '\r'} then Skip(s[1..]) else s
  }

  /** `"name": "value"`, after white space. */
  function ReadMember(s: string): (r: Read<Member>)
    ensures r.Good? ==> |r.rest| < |s|
  {
    var t := Skip(s);
    if t == [] || t[0] != '"' then Bad
    else match ReadString(t[1..])
      case Bad => Bad
      case Good(name, rest) =>
        var u := Skip(rest);
        if u == [] || u[0] != ':' then Bad
        else
          var v := Skip(u[1..]);
          if v == [] || v[0] != '"' then Bad
          else match ReadString(v[1..])
            case Bad => Bad
            case Good(value, after) => Good(Member(name, value), after)
  }

  /** Members up to the closing brace; a name given twice keeps its last value. */
  function ReadMembers(s: string, seen: map<string, string>): (r: Read<map<string, string>>)
    decreases |s|
  {
    match ReadMember(s)
    case Bad => Bad
    case Good(m, rest) =>
      var t := Skip(rest);
      if t == [] then Bad
      else if t[0] == '}' then Good(seen[m.name := m.value], t[1..])
      else if t[0] == ',' then ReadMembers(t[1..], seen[m.name := m.value])
      else Bad
  }

  function Parse(s: string): Option<map<string, string>> {
    var t := Skip(s);
    if t == [] || t[0] != '{' then None
    else
      var u := Skip(t[1..]);
      var r := if u != [] && u[0] == '}' then Good(map[], u[1..]) else ReadMembers(t[1..], map[]);
      if r.Good? && Skip(r.rest) == "" then Some(r.value) else None
  }

  // ---- Printing stays in plain ASCII ------------------------------------------------------

  ghost predicate Plain(s: string) {
    forall i :: 0 <= i < |s| ==> ' ' <= s[i] <= '~'
  }

  lemma EscapePlain(c: char)
    ensures Plain(Escape(c))
  {
  }

  lemma {:induction false} EscapeAllPlain(s: string)
    ensures Plain(EscapeAll(s))
  {
    if s != [] {
      EscapePlain(s[0]);
      EscapeAllPlain(s[1..]);
    }
  }

  lemma QuotePlain(s: string, after: string)
    requires Plain(after)
    ensures Plain(Quote(s) + after)
  {
    EscapeAllPlain(s);
  }

  lemma {:induction false} MembersPlain(ms: seq<Member>)
    requires ms != []
    ensures Plain(Members(ms))
  {
    var more := if |ms| == 1 then "" else [','] + Members(ms[1..]);
    if |ms| > 1 { MembersPlain(ms[1..]); }
    QuotePlain(ms[0].value, more);
    QuotePlain(ms[0].name, [':'] + (Quote(ms[0].value) + more));
  }

  lemma ObjectPlain(ms: seq<Member>)
    ensures Plain(Object(ms))
  {
    if ms != [] { MembersPlain(ms); }
  }

  // ---- Reading back what was printed -------------------------------------------------------

  lemma UnitRead(n: int, after: string)
    requires 0 <= n < 0x10000
    ensures Unit(n) + after == ['\\', 'u'] + (Hex4(n) + after)
    ensures UnitOf((Unit(n) + after)[2..]) == Some(n)
  {
    Assoc(['\\', 'u'], Hex4(n), after);
  }

  lemma ReadPair(s: string, c: char, high: int, low: int)
    requires c as int >= 0x10000
    requires high == HighUnit(c) && low == LowUnit(c)
    requires |s| >= 11 && s[0] == 'u' && s[5] == '\\' && s[6] == 'u'
    requires UnitOf(s[1..]) == Some(high) && UnitOf(s[7..]) == Some(low)
    ensures ReadEscape(s) == Good(c, s[11..])
  {
  }

  /** The cuts that reading two units makes. */
  lemma PairCuts(high: string, low: string, rest: string)
    requires |high| == 6 && |low| == 6
    ensures var s := (high + low + rest)[1..];
            && |s| >= 11 && s[0] == high[1] && s[5] == low[0] && s[6] == low[1]
            && s[1..] == (high + (low + rest))[2..] && s[7..] == (low + rest)[2..] && s[11..] == rest
  {
  }

  lemma PairUnits(c: char, high: int, low: int, rest: string)
    requires c as int >= 0x10000
    requires high == HighUnit(c) && low == LowUnit(c)
    ensures ReadEscape((Unit(high) + Unit(low) + rest)[1..]) == Good(c, rest)
  {
    PairCuts(Unit(high), Unit(low), rest);
    UnitRead(high, Unit(low) + rest);
    UnitRead(low, rest);
    ReadPair((Unit(high) + Unit(low) + rest)[1..], c, high, low);
  }

  lemma EscapeWide(c: char)
    requires c as int >= 0x10000
    ensures Escape(c) == Unit(HighUnit(c)) + Unit(LowUnit(c))
  {
  }

  /** One escape of two units is read as the character beyond the basic plane it stands for. */
  lemma PairRead(c: char, rest: string)
    requires c as int >= 0x10000
    ensures ReadEscape((Escape(c) + rest)[1..]) == Good(c, rest)
  {
    var high, low := HighUnit(c), LowUnit(c);
    EscapeWide(c);
    PairUnits(c, high, low, rest);
  }

  lemma ShortRead(c: char, rest: string)
    requires ShortEscape(c).Some?
    ensures ReadEscape((Escape(c) + rest)[1..]) == Good(c, rest)
  {
    assert (Escape(c) + rest)[1..][1..] == rest;
  }

  lemma BasicRead(c: char, rest: string)
    requires ShortEscape(c).None? && !(' ' <= c <= '~') && c as int < 0x10000
    ensures ReadEscape((Escape(c) + rest)[1..]) == Good(c, rest)
  {
    var s := Unit(c as int) + rest;
    UnitRead(c as int, rest);
    assert s[1..][1..] == s[2..];
    assert s[1..][5..] == rest;
  }

  lemma EscapeRead(c: char, rest: string)
    ensures ReadString(Escape(c) + rest) == Continue(c, ReadString(rest))
  {
    var s := Escape(c) + rest;
    if ShortEscape(c).Some? {
      ShortRead(c, rest);
    } else if ' ' <= c <= '~' {
      assert s[1..] == rest;
    } else if c as int < 0x10000 {
      BasicRead(c, rest);
    } else {
      PairRead(c, rest);
    }
  }

  /** `after` is what follows the closing quote. */
  lemma {:induction false} StringRead(s: string, after: string)
    ensures ReadString(EscapeAll(s) + (['"'] + after)) == Good(s, after)
  {
    var close := ['"'] + after;
    if s == [] {
      assert EscapeAll(s) + close == close;
      assert close[1..] == after;
    } else {
      var tail := EscapeAll(s[1..]) + close;
      Assoc(Escape(s[0]), EscapeAll(s[1..]), close);
      EscapeRead(s[0], tail);
      StringRead(s[1..], after);
      assert [s[0]] + s[1..] == s;
    }
  }

  lemma QuoteRead(s: string, after: string)
    ensures var t := Quote(s) + after; t[0] == '"' && ReadString(t[1..]) == Good(s, after)
  {
    assert (Quote(s) + after)[1..] == EscapeAll(s) + (['"'] + after);
    StringRead(s, after);
  }

  lemma MemberRead(m: Member, after: string)
    ensures ReadMember(Quote(m.name) + ([':'] + (Quote(m.value) + after))) == Good(m, after)
  {
    var value := Quote(m.value) + after;
    var colon := [':'] + value;
    QuoteRead(m.name, colon);
    QuoteRead(m.value, after);
    assert colon[1..] == value;
  }

  /** The members as a dictionary; of two with the same name the later one counts. */
  function AsMap(ms: seq<Member>, seen: map<string, string>): map<string, string> {
    if ms == [] then seen else AsMap(ms[1..], seen[ms[0].name := ms[0].value])
  }

  /** What follows one member decides whether the object goes on. */
  lemma MemberThen(s: string, m: Member, after: string, seen: map<string, string>)
    requires ReadMember(s) == Good(m, after) && after != [] && after[0] in {'}', ','}
    ensures ReadMembers(s, seen)
         == if after[0] == '}' then Good(seen[m.name := m.value], after[1..])
            else ReadMembers(after[1..], seen[m.name := m.value])
  {
  }

  lemma {:induction false} MembersRead(ms: seq<Member>, after: string, seen: map<string, string>)
    requires ms != []
    ensures ReadMembers(Members(ms) + (['}'] + after), seen) == Good(AsMap(ms, seen), after)
  {
    var m, end := ms[0], ['}'] + after;
    var s, seen' := Members(ms) + end, seen[m.name := m.value];
    var tail := if |ms| == 1 then end else [','] + (Members(ms[1..]) + end);
    MembersStep(ms, end);
    MemberRead(m, tail);
    MemberThen(s, m, tail, seen);
    if |ms| == 1 {
      assert tail[1..] == after;
      assert ms[1..] == [] && AsMap(ms[1..], seen') == seen';
    } else {
      assert tail[1..] == Members(ms[1..]) + end;
      MembersRead(ms[1..], after, seen');
    }
  }

  lemma MembersStep(ms: seq<Member>, end: string)
    requires ms != []
    ensures Members(ms) + end
         == Quote(ms[0].name) + ([':'] + (Quote(ms[0].value)
            + (if |ms| == 1 then end else [','] + (Members(ms[1..]) + end))))
  {
    var more := if |ms| == 1 then "" else [','] + Members(ms[1..]);
    var value := Quote(ms[0].value);
    Assoc(Quote(ms[0].name), [':'] + (value + more), end);
    Assoc([':'], value + more, end);
    Assoc(value, more, end);
    if |ms| == 1 { assert more + end == end; } else { Assoc([','], Members(ms[1..]), end); }
  }

  lemma ParseInside(s: string, m: map<string, string>)
    requires |s| >= 2 && s[0] == '{' && s[1] == '"'
    requires ReadMembers(s[1..], map[]) == Good(m, "")
    ensures Parse(s) == Some(m)
  {
    assert Skip(s) == s && Skip(s[1..]) == s[1..] && Skip("") == "";
  }

  /** Main result: an object of string members is read back, for all names and values. */
  lemma ObjectRead(ms: seq<Member>)
    ensures Parse(Object(ms)) == Some(AsMap(ms, map[]))
  {
    if ms == [] {
      assert Object(ms) == "{}";
    } else {
      ObjectInside(ms);
      MembersRead(ms, "", map[]);
      ParseInside(Object(ms), AsMap(ms, map[]));
    }
  }

  lemma ObjectInside(ms: seq<Member>)
    requires ms != []
    ensures |Object(ms)| >= 2 && Object(ms)[0] == '{' && Object(ms)[1] == '"'
    ensures Object(ms)[1..] == Members(ms) + (['}'] + "")
  {
    assert ['}'] + "" == "}";
    Assoc("{", Members(ms), "}");
  }
}
