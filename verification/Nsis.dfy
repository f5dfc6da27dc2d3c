/** Values inside the strings of an NSIS script: escaping, and how such a string is read. */
module Nsis {
  import opened Common
  import opened Replacing

  /** One pass after the other, as the service does it. */
  function Escape(text: string): string {
    Replace(Replace(Replace(text, "$", "$$"), "\"", "$\\\""), "'", "$\\'")
  }

  function EscapeChar(c: char): string {
    if c == '$' then "$$" else if c == '"' then "$\\\"" else if c == '\'' then "$\\'" else [c]
  }

  function Each(f: char -> string, text: string): string {
    if text == "" then "" else f(text[0]) + Each(f, text[1..])
  }

  function EscapeEach(text: string): string {
    Each(EscapeChar, text)
  }

  lemma OneChar(c: char, d: char, v: string)
    ensures Replace([c], [d], v) == if c == d then v else [c]
  {
    assert [c][1..] == "" && v + "" == v;
    assert [c][0] == c && [d][0] == d;
    if [d] <= [c] { assert [d][0] == [c][0]; }
    assert Replace("", [d], v) == "";
  }

  lemma ReplaceQuoted(c: char, q: char, v: string)
    requires q in {'"', '\''} && c != q
    ensures Replace(['$', '\\', c], [q], v) == ['$', '\\', c]
  {
    assert !Occurs([q], ['$', '\\', c]) by {
      forall i | StartsAt([q], ['$', '\\', c], i) ensures q in ['$', '\\', c] {
        assert ['$', '\\', c][i] == ['$', '\\', c][i..][0];
      }
    }
    ReplaceNothing(['$', '\\', c], [q], v);
  }

  lemma EscapeOne(c: char)
    ensures Escape([c]) == EscapeChar(c)
  {
    OneChar(c, '$', "$$");
    if c == '$' {
      assert "$$" == "$" + "$";
      ReplaceSplit("$", "$", "\"", "$\\\"");
      ReplaceSplit("$", "$", "'", "$\\'");
      OneChar('$', '"', "$\\\"");
      OneChar('$', '\'', "$\\'");
    } else {
      OneChar(c, '"', "$\\\"");
      if c == '"' { ReplaceQuoted('"', '\'', "$\\'"); } else { OneChar(c, '\'', "$\\'"); }
    }
  }

  lemma EscapeJoin(a: string, b: string)
    ensures Escape(a + b) == Escape(a) + Escape(b)
  {
    var a1, b1 := Replace(a, "$", "$$"), Replace(b, "$", "$$");
    ReplaceSplit(a, b, "$", "$$");
    ReplaceSplit(a1, b1, "\"", "$\\\"");
    ReplaceSplit(Replace(a1, "\"", "$\\\""), Replace(b1, "\"", "$\\\""), "'", "$\\'");
  }

  /** The three passes do not get in each other's way: together they are one map over the
      characters. */
  lemma {:induction false} EscapeIsEach(text: string)
    ensures Escape(text) == EscapeEach(text)
  {
    if text != "" {
      EscapeOne(text[0]);
      EscapeJoin([text[0]], text[1..]);
      EscapeIsEach(text[1..]);
      assert text == [text[0]] + text[1..];
    }
  }

  // ---- Reading ----------------------------------------------------------------------

  /** The three escapes taken back; every other character stands for itself. */
  function Unescape(s: string): string {
    if s == "" then ""
    else if |s| >= 2 && s[0] == '$' && s[1] == '$' then "$" + Unescape(s[2..])
    else if |s| >= 3 && s[0] == '$' && s[1] == '\\' && s[2] in {'"', '\''} then [s[2]] + Unescape(s[3..])
    else [s[0]] + Unescape(s[1..])
  }

  datatype Span = Span(text: string, rest: string)

  /** A string of the script, after its opening quote: up to the first unescaped quote of the same
      kind. `None` when it does not end. */
  function ReadQuoted(quote: char, s: string): Option<Span> {
    if s == "" then None
    else if |s| >= 2 && s[0] == '$' && s[1] == '$' then Put('$', ReadQuoted(quote, s[2..]))
    else if |s| >= 3 && s[0] == '$' && s[1] == '\\' && s[2] in {'"', '\''} then Put(s[2], ReadQuoted(quote, s[3..]))
    else if s[0] == quote then Some(Span("", s[1..]))
    else Put(s[0], ReadQuoted(quote, s[1..]))
  }

  function Put(c: char, r: Option<Span>): Option<Span> {
    if r.None? then None else Some(Span([c] + r.value.text, r.value.rest))
  }

  /** Main result: taking the escapes back gives the text, for every text. */
  lemma {:induction false} UnescapeEscape(text: string)
    ensures Unescape(Escape(text)) == text
  {
    EscapeIsEach(text);
    if text != "" {
      UnescapeEscape(text[1..]);
      EscapeIsEach(text[1..]);
    }
  }

  function PutAll(t: string, r: Option<Span>): Option<Span> {
    if t == "" then r else Put(t[0], PutAll(t[1..], r))
  }

  lemma {:induction false} PutAllText(t: string, s: Span)
    ensures PutAll(t, Some(s)) == Some(Span(t + s.text, s.rest))
  {
    if t == "" {
      assert t + s.text == s.text;
    } else {
      PutAllText(t[1..], s);
      assert t + s.text == [t[0]] + (t[1..] + s.text);
    }
  }

  /** Main result: whatever the text, its escaped form between either kind of quote is read as
      exactly that text, and never ends the string early or late. */
  lemma {:induction false} ReadEscaped(quote: char, text: string, rest: string)
    requires quote in {'"', '\''}
    ensures ReadQuoted(quote, Escape(text) + rest) == PutAll(text, ReadQuoted(quote, rest))
  {
    EscapeIsEach(text);
    if text == "" {
      assert EscapeEach(text) + rest == rest;
    } else {
      var tail := EscapeEach(text[1..]) + rest;
      Assoc(EscapeChar(text[0]), EscapeEach(text[1..]), rest);
      EscapeIsEach(text[1..]);
      ReadEscaped(quote, text[1..], rest);
    }
  }

  lemma ReadWhole(quote: char, text: string, after: string)
    requires quote in {'"', '\''}
    ensures ReadQuoted(quote, Escape(text) + ([quote] + after)) == Some(Span(text, after))
  {
    var end := [quote] + after;
    ReadEscaped(quote, text, end);
    assert end[1..] == after;
    assert ReadQuoted(quote, end) == Some(Span("", after));
    PutAllText(text, Span("", after));
    assert text + "" == text;
  }

  /** Every quote of an escaped text stands directly behind a dollar sign and a backslash. */
  ghost predicate QuotesEscaped(s: string) {
    forall i :: 0 <= i < |s| && s[i] in {'"', '\''} ==> i >= 2 && s[i - 1] == '\\' && s[i - 2] == '$'
  }

  lemma {:induction false} EscapedQuotes(text: string)
    ensures QuotesEscaped(Escape(text))
  {
    EscapeIsEach(text);
    if text != "" {
      EscapedQuotes(text[1..]);
      EscapeIsEach(text[1..]);
    }
  }

  /** Script text around a value that the reader takes as it stands: no quote of the kind that ends
      the string, and behind each dollar sign a brace. */
  predicate Inert(s: string, quote: char) {
    forall i :: 0 <= i < |s| ==> InertAt(s, i, quote)
  }

  predicate InertAt(s: string, i: nat, quote: char)
    requires i < |s|
  {
    s[i] != quote && (s[i] == '$' ==> i + 1 < |s| && s[i + 1] == '{')
  }

  lemma InertTail(quote: char, s: string)
    requires s != "" && Inert(s, quote)
    ensures Inert(s[1..], quote)
  {
    var t := s[1..];
    forall i | 0 <= i < |t| ensures InertAt(t, i, quote) {
      assert InertAt(s, i + 1, quote);
    }
  }

  lemma {:induction false} ReadInert(quote: char, s: string, rest: string)
    requires Inert(s, quote)
    ensures ReadQuoted(quote, s + rest) == PutAll(s, ReadQuoted(quote, rest))
  {
    if s == "" {
      assert s + rest == rest;
    } else {
      assert (s + rest)[1..] == s[1..] + rest;
      assert InertAt(s, 0, quote);
      assert s[0] == '$' ==> |s| > 1 && (s + rest)[1] == s[1];
      InertTail(quote, s);
      ReadInert(quote, s[1..], rest);
    }
  }

  // ---- Tokens in escaped values --------------------------------------------------------------

  predicate TokenText(p: string) {
    p != "" && forall i :: 0 <= i < |p| ==> TokenChar(p[i])
  }

  lemma TokenIsText(n: string)
    requires Name(n)
    ensures TokenText(Token(n))
  {
    forall i | 0 <= i < |Token(n)| ensures TokenChar(Token(n)[i]) { CharOfToken(n, i); }
  }

  ghost predicate NoTokenChar(s: string) {
    forall i :: 0 <= i < |s| ==> !TokenChar(s[i])
  }

  /** A map that leaves the characters of tokens alone and makes no new ones. */
  ghost predicate Gentle(f: char -> string) {
    forall c :: f(c) != "" && (if TokenChar(c) then f(c) == [c] else NoTokenChar(f(c)))
  }

  lemma {:induction false} EachPrefix(f: char -> string, p: string, text: string)
    requires Gentle(f) && p <= Each(f, text) && forall i :: 0 <= i < |p| ==> TokenChar(p[i])
    ensures p <= text
  {
    if p != "" {
      var c, rest := text[0], Each(f, text[1..]);
      assert p[0] == Each(f, text)[0] == f(c)[0];
      assert f(c) == [c];
      assert Each(f, text)[1..] == rest;
      assert p[1..] <= rest;
      EachPrefix(f, p[1..], text[1..]);
      assert p == [p[0]] + p[1..] && text == [c] + text[1..];
    }
  }

  lemma StartsBeyond(a: string, b: string, p: string, i: int)
    requires StartsAt(p, a + b, i) && i >= |a|
    ensures StartsAt(p, b, i - |a|)
  {
    assert (a + b)[i..] == b[i - |a|..];
  }

  lemma StartsBehind(p: string, c: char, t: string)
    requires Occurs(p, t)
    ensures Occurs(p, [c] + t)
  {
    var i :| StartsAt(p, t, i);
    assert ([c] + t)[i + 1..] == t[i..];
    assert StartsAt(p, [c] + t, i + 1);
  }

  lemma NotInside(f: char -> string, c: char, rest: string, p: string, i: int)
    requires Gentle(f) && TokenText(p) && StartsAt(p, f(c) + rest, i)
    ensures i == 0 || i >= |f(c)|
  {
    assert (f(c) + rest)[i] == (f(c) + rest)[i..][0] == p[0];
  }

  /** Such a map brings no token into a text. */
  lemma {:induction false} EachOccurs(f: char -> string, p: string, text: string)
    requires Gentle(f) && TokenText(p) && Occurs(p, Each(f, text))
    ensures Occurs(p, text)
  {
    var i :| StartsAt(p, Each(f, text), i);
    if i == 0 {
      assert Each(f, text)[0..] == Each(f, text);
      EachPrefix(f, p, text);
      assert text[0..] == text;
      assert StartsAt(p, text, 0);
    } else {
      var rest := Each(f, text[1..]);
      NotInside(f, text[0], rest, p, i);
      StartsBeyond(f(text[0]), rest, p, i);
      EachOccurs(f, p, text[1..]);
      StartsBehind(p, text[0], text[1..]);
      assert [text[0]] + text[1..] == text;
    }
  }

  lemma EscapeOccurs(n: string, text: string)
    requires Name(n) && !Occurs(Token(n), text)
    ensures !Occurs(Token(n), Escape(text))
  {
    EscapeIsEach(text);
    TokenIsText(n);
    if Occurs(Token(n), EscapeEach(text)) { EachOccurs(EscapeChar, Token(n), text); }
  }

  // ---- Doubling the dollar signs alone ----------------------------------------------------------

  function DoubleChar(c: char): string {
    if c == '$' then "$$" else [c]
  }

  lemma {:induction false} DoubleIsEach(text: string)
    ensures Replace(text, "$", "$$") == Each(DoubleChar, text)
  {
    if text != "" {
      OneChar(text[0], '$', "$$");
      ReplaceSplit([text[0]], text[1..], "$", "$$");
      DoubleIsEach(text[1..]);
      assert text == [text[0]] + text[1..];
    }
  }

  /** The doubled dollars taken back. */
  function Undouble(s: string): string {
    if s == "" then ""
    else if |s| >= 2 && s[0] == '$' && s[1] == '$' then "$" + Undouble(s[2..])
    else [s[0]] + Undouble(s[1..])
  }

  lemma {:induction false} UndoubleDouble(text: string)
    ensures Undouble(Replace(text, "$", "$$")) == text
  {
    DoubleIsEach(text);
    if text != "" {
      UndoubleDouble(text[1..]);
      DoubleIsEach(text[1..]);
    }
  }

  lemma DoubleOccurs(n: string, text: string)
    requires Name(n) && !Occurs(Token(n), text)
    ensures !Occurs(Token(n), Replace(text, "$", "$$"))
  {
    DoubleIsEach(text);
    assert Gentle(DoubleChar);
    TokenIsText(n);
    if Occurs(Token(n), Each(DoubleChar, text)) { EachOccurs(DoubleChar, Token(n), text); }
  }

  lemma {:induction false} EachJoin(f: char -> string, a: string, b: string)
    ensures Each(f, a + b) == Each(f, a) + Each(f, b)
  {
    if a == "" {
      assert a + b == b;
    } else {
      assert (a + b)[1..] == a[1..] + b;
      EachJoin(f, a[1..], b);
      Assoc(f(a[0]), Each(f, a[1..]), Each(f, b));
    }
  }

  lemma {:induction false} EachToken(f: char -> string, p: string)
    requires Gentle(f) && forall i :: 0 <= i < |p| ==> TokenChar(p[i])
    ensures Each(f, p) == p
  {
    if p != "" {
      assert f(p[0]) == [p[0]];
      EachToken(f, p[1..]);
      assert p == [p[0]] + p[1..];
    }
  }

  lemma EachAround(a: string, p: string, b: string)
    requires TokenText(p)
    ensures Each(DoubleChar, a + (p + b)) == Each(DoubleChar, a) + (p + Each(DoubleChar, b))
  {
    EachJoin(DoubleChar, a, p + b);
    EachJoin(DoubleChar, p, b);
    assert Gentle(DoubleChar);
    EachToken(DoubleChar, p);
  }

  lemma StartsAfter(a: string, p: string, b: string)
    ensures StartsAt(p, a + (p + b), |a|)
  {
    assert (a + (p + b))[|a|..] == p + b;
  }

  lemma CutOut(p: string, t: string, i: int)
    requires StartsAt(p, t, i)
    ensures t == t[..i] + (p + t[i..][|p|..])
  {
    assert t[i..] == p + t[i..][|p|..];
  }

  /** Nor does it lose one. */
  lemma DoubleKeeps(n: string, text: string)
    requires Name(n) && Occurs(Token(n), text)
    ensures Occurs(Token(n), Replace(text, "$", "$$"))
  {
    var p := Token(n);
    var i :| StartsAt(p, text, i);
    var a, b := text[..i], text[i..][|p|..];
    TokenIsText(n);
    CutOut(p, text, i);
    DoubleIsEach(text);
    EachAround(a, p, b);
    StartsAfter(Each(DoubleChar, a), p, Each(DoubleChar, b));
  }
}
