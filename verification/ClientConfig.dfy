/** The config string a client is set up with: JSON, URL-safe base64 without filling, reversed. */
module ClientConfig {
  import opened Common
  import opened Text
  import opened Base64
  import opened Json

  datatype Servers = Servers(idServer: string, relayServer: string, apiServer: string, key: string)

  function Fields(s: Servers): seq<Member> {
    [Member("host", s.idServer), Member("relay", s.relayServer), Member("api", s.apiServer), Member("key", s.key)]
  }

  function AsJson(s: Servers): string {
    Object(Fields(s))
  }

  /** The bytes of a text; `None` unless it is plain ASCII. */
  function Ascii(t: string): (r: Option<seq<Byte>>)
    ensures r.Some? <==> forall i :: 0 <= i < |t| ==> (t[i] as int) < 128
    ensures r.Some? ==> |r.value| == |t| && forall i :: 0 <= i < |t| ==> r.value[i] == t[i] as int
  {
    if t == [] then Some([])
    else if t[0] as int >= 128 then None
    else
      var rest := Ascii(t[1..]);
      if rest.None? then None else Some([t[0] as int] + rest.value)
  }

  /** The text of some bytes, when they are ASCII. */
  function FromAscii(b: seq<Byte>): (r: Option<string>)
    ensures r.Some? <==> forall i :: 0 <= i < |b| ==> b[i] < 128
    ensures r.Some? ==> |r.value| == |b| && forall i :: 0 <= i < |b| ==> r.value[i] as int == b[i]
  {
    if b == [] then Some([])
    else if b[0] >= 128 then None
    else
      var rest := FromAscii(b[1..]);
      if rest.None? then None else Some([b[0] as char] + rest.value)
  }

  function Reverse(s: string): (r: string)
    ensures |r| == |s| && forall i :: 0 <= i < |s| ==> r[i] == s[|s| - 1 - i]
  {
    if s == [] then [] else Reverse(s[1..]) + [s[0]]
  }

  /** The JSON text is printable ASCII, so its bytes are its characters. */
  function JsonBytes(s: Servers): (b: seq<Byte>)
    ensures |b| == |AsJson(s)| && Ascii(AsJson(s)) == Some(b)
  {
    ObjectPlain(Fields(s));
    Ascii(AsJson(s)).value
  }

  function ConfigString(s: Servers): string {
    Reverse(StripPadding(Encode(JsonBytes(s))))
  }

  /** The same with its filling, which other writers leave on. */
  function PaddedConfigString(s: Servers): string {
    Reverse(Encode(JsonBytes(s)))
  }

  function DecodeConfigString(text: string): Option<map<string, string>> {
    var encoded := Refill(Reverse(Trim(text)));
    if Ascii(encoded).None? then None
    else
      var b := Decode(encoded);
      if b.None? then None
      else
        var json := FromAscii(b.value);
        if json.None? then None else Parse(json.value)
  }

  // ---- Round trip -------------------------------------------------------------------------

  lemma ReverseTwice(s: string)
    ensures Reverse(Reverse(s)) == s
  {
  }

  lemma {:induction false} AsciiRoundTrip(t: string)
    requires Ascii(t).Some?
    ensures FromAscii(Ascii(t).value) == Some(t)
  {
    if t != [] {
      AsciiRoundTrip(t[1..]);
      assert [t[0]] + t[1..] == t;
      assert Ascii(t).value[1..] == Ascii(t[1..]).value;
    }
  }

  ghost predicate AllSpace(s: string) {
    forall i :: 0 <= i < |s| ==> IsSpace(s[i])
  }

  lemma {:induction false} TrimLeftSpaces(before: string, t: string)
    requires AllSpace(before) && t != [] && !IsSpace(t[0])
    ensures TrimLeft(before + t) == t
  {
    if before == [] {
      assert before + t == t;
    } else {
      assert (before + t)[1..] == before[1..] + t;
      TrimLeftSpaces(before[1..], t);
    }
  }

  lemma {:induction false} TrimRightSpaces(t: string, after: string)
    requires AllSpace(after) && t != [] && !IsSpace(t[|t| - 1])
    ensures TrimRight(t + after) == t
  {
    if after == [] {
      assert t + after == t;
    } else {
      var shorter := after[..|after| - 1];
      assert (t + after)[..|t + after| - 1] == t + shorter;
      TrimRightSpaces(t, shorter);
    }
  }

  lemma TrimPasted(before: string, t: string, after: string)
    requires AllSpace(before) && AllSpace(after) && t != [] && !IsSpace(t[0]) && !IsSpace(t[|t| - 1])
    ensures Trim(before + t + after) == t
  {
    Assoc(before, t, after);
    TrimLeftSpaces(before, t + after);
    TrimRightSpaces(t, after);
  }

  ghost predicate NoSpaceAscii(s: string) {
    forall i :: 0 <= i < |s| ==> !IsSpace(s[i]) && (s[i] as int) < 128
  }

  lemma SymbolsClean(s: string, e: string)
    requires AllUrlSafe(s) && s <= e && forall i :: |s| <= i < |e| ==> e[i] == '='
    ensures NoSpaceAscii(e)
  {
    forall i | 0 <= i < |e| ensures !IsSpace(e[i]) && (e[i] as int) < 128 {
      if i < |s| { assert e[i] == s[i]; }
    }
  }

  lemma RefillWhole(e: string)
    requires |e| % 4 == 0
    ensures Refill(e) == e
  {
    assert e + Padding(0) == e;
  }

  /** What the encoding of a text looks like, with and without filling. */
  lemma EncodingChars(b: seq<Byte>)
    ensures NoSpaceAscii(Encode(b)) && NoSpaceAscii(StripPadding(Encode(b)))
    ensures Refill(Encode(b)) == Encode(b) && Refill(StripPadding(Encode(b))) == Encode(b)
    ensures b != [] ==> StripPadding(Encode(b)) != []
  {
    var e := Encode(b);
    var s := StripPadding(e);
    EncodeShape(b);
    EncodeWhole(b);
    RefillWhole(e);
    SymbolsClean(s, e);
    SymbolsClean(s, s);
  }

  lemma DecodeText(json: string, b: seq<Byte>, text: string)
    requires Ascii(json) == Some(b) && Refill(Reverse(Trim(text))) == Encode(b)
    ensures DecodeConfigString(text) == Parse(json)
  {
    EncodingChars(b);
    RoundTrip(b);
    AsciiRoundTrip(json);
  }

  lemma FieldsMap(s: Servers)
    ensures AsMap(Fields(s), map[])
         == map["host" := s.idServer, "relay" := s.relayServer, "api" := s.apiServer, "key" := s.key]
  {
    var f := Fields(s);
    assert f[1..] == [f[1], f[2], f[3]];
    assert f[1..][1..] == [f[2], f[3]];
    assert f[1..][1..][1..] == [f[3]];
    var m1 := map["host" := s.idServer];
    var m2 := m1["relay" := s.relayServer];
    var m3 := m2["api" := s.apiServer];
    var m4 := m3["key" := s.key];
    assert AsMap([f[3]], m3) == m4 by { assert [f[3]][1..] == []; }
    assert AsMap([f[2], f[3]], m2) == m4;
    assert AsMap([f[1], f[2], f[3]], m1) == m4;
    assert map[]["host" := s.idServer] == m1;
  }

  /** Main result. A config string gives back the four settings for every input, also when it is
      pasted with white space around it and whether or not its writer left the filling on. */
  lemma ConfigRoundTrip(s: Servers, before: string, after: string, padded: bool)
    requires AllSpace(before) && AllSpace(after)
    ensures DecodeConfigString(before + (if padded then PaddedConfigString(s) else ConfigString(s)) + after)
         == Some(map["host" := s.idServer, "relay" := s.relayServer, "api" := s.apiServer, "key" := s.key])
  {
    var b := JsonBytes(s);
    var encoded := if padded then Encode(b) else StripPadding(Encode(b));
    EncodingChars(b);
    assert AsJson(s) != [];
    TrimPasted(before, Reverse(encoded), after);
    ReverseTwice(encoded);
    DecodeText(AsJson(s), b, before + Reverse(encoded) + after);
    ObjectRead(Fields(s));
    FieldsMap(s);
  }

  /** Different settings never share a config string. */
  lemma ConfigInjective(s: Servers, t: Servers)
    requires ConfigString(s) == ConfigString(t)
    ensures s == t
  {
    ConfigRoundTrip(s, "", "", false);
    ConfigRoundTrip(t, "", "", false);
    SameFields(s, t);
  }

  lemma SameFields(s: Servers, t: Servers)
    requires map["host" := s.idServer, "relay" := s.relayServer, "api" := s.apiServer, "key" := s.key]
          == map["host" := t.idServer, "relay" := t.relayServer, "api" := t.apiServer, "key" := t.key]
    ensures s == t
  {
    var m := map["host" := s.idServer, "relay" := s.relayServer, "api" := s.apiServer, "key" := s.key];
    assert m["host"] == t.idServer && m["relay"] == t.relayServer && m["api"] == t.apiServer && m["key"] == t.key;
  }

  // ---- The installer's check ------------------------------------------------------------------

  predicate ConfigChar(c: char) {
    UrlSafe(c) || c == '='
  }

  /** `^[A-Za-z0-9_=-]{1,2048}$`; the end of the pattern also lets one line break through. */
  predicate ConfigPattern(c: string) {
    var core := if c != "" && c[|c| - 1] == '\n' then c[..|c| - 1] else c;
    1 <= |core| <= 2048 && forall i :: 0 <= i < |core| ==> ConfigChar(core[i])
  }

  function Width(s: string): nat {
    |EscapeAll(s)|
  }

  lemma JsonLength(s: Servers)
    ensures |AsJson(s)| == 40 + Width(s.idServer) + Width(s.relayServer) + Width(s.apiServer) + Width(s.key)
  {
    var f := Fields(s);
    NameWidths();
    var three, two, one := f[1..], f[2..], f[3..];
    assert three[1..] == two && two[1..] == one;
    assert |Members(one)| == |Quote("key")| + 1 + |Quote(s.key)|;
    assert |Members(two)| == |Quote("api")| + 1 + |Quote(s.apiServer)| + 1 + |Members(one)|;
    assert |Members(three)| == |Quote("relay")| + 1 + |Quote(s.relayServer)| + 1 + |Members(two)|;
    assert |Members(f)| == |Quote("host")| + 1 + |Quote(s.idServer)| + 1 + |Members(three)|;
  }

  lemma {:induction false} PlainWidth(s: string)
    requires forall i :: 0 <= i < |s| ==> ' ' <= s[i] <= '~' && s[i] != '"' && s[i] != '\\'
    ensures Width(s) == |s|
  {
    if s != [] { PlainWidth(s[1..]); }
  }

  lemma NameWidths()
    ensures |Quote("host")| == 6 && |Quote("relay")| == 7 && |Quote("api")| == 5 && |Quote("key")| == 5
  {
    PlainWidth("host");
    PlainWidth("relay");
    PlainWidth("api");
    PlainWidth("key");
  }

  lemma PatternOfSymbols(c: string)
    requires AllUrlSafe(c) && c != ""
    ensures ConfigPattern(c) <==> |c| <= 2048
  {
    assert UrlSafe(c[|c| - 1]);
    assert forall i :: 0 <= i < |c| ==> UrlSafe(c[i]) && ConfigChar(c[i]);
  }

  /** Main result. n bytes of JSON make exactly the least number of symbols that can hold them,
      so the installer takes a config string if and only if the JSON has at most 1536 bytes. */
  lemma AcceptedIff(s: Servers)
    ensures |ConfigString(s)| == (4 * |AsJson(s)| + 2) / 3
    ensures ConfigPattern(ConfigString(s)) <==> |AsJson(s)| <= 1536
  {
    EncodeShape(JsonBytes(s));
    JsonLength(s);
    PatternOfSymbols(ConfigString(s));
  }

  /** Settings of ordinary characters within the field limit are always taken ... */
  lemma OrdinarySettingsAccepted(s: Servers)
    requires forall t :: t in {s.idServer, s.relayServer, s.apiServer, s.key} ==>
               |t| <= 255 && forall i :: 0 <= i < |t| ==> ' ' <= t[i] <= '~' && t[i] != '"' && t[i] != '\\'
    ensures ConfigPattern(ConfigString(s))
  {
    PlainWidth(s.idServer);
    PlainWidth(s.relayServer);
    PlainWidth(s.apiServer);
    PlainWidth(s.key);
    JsonLength(s);
    AcceptedIff(s);
  }

  lemma {:induction false} WideWidth(s: string)
    requires forall i :: 0 <= i < |s| ==> s[i] as int >= 0x10000
    ensures Width(s) == 12 * |s|
  {
    if s != [] { WideWidth(s[1..]); }
  }

  /** ... but the field limit counts characters, not bytes of JSON: 125 characters from beyond the
      basic plane are refused. */
  lemma WideSettingsRefused(s: Servers)
    requires |s.idServer| >= 125 && forall i :: 0 <= i < |s.idServer| ==> s.idServer[i] as int >= 0x10000
    ensures !ConfigPattern(ConfigString(s))
  {
    WideWidth(s.idServer);
    JsonLength(s);
    AcceptedIff(s);
  }
}
