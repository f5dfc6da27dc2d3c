/** Text handling shared by the services: trimming, clipping and numerals. */
module Text {
  import opened Common

  /** The characters that `str.strip` removes. */
  predicate IsSpace(c: char) {
    var n := c as int;
    || 0x09 <= n <= 0x0D || 0x1C <= n <= 0x20 || n == 0x85 || n == 0xA0 || n == 0x1680
    || 0x2000 <= n <= 0x200A || n == 0x2028 || n == 0x2029 || n == 0x202F || n == 0x205F || n == 0x3000
  }

  /** The same, one by one: the white space of Unicode and the four separators of ASCII. */
  const SPACES: set<int> := {
    9, 10, 11, 12, 13, 28, 29, 30, 31, 32, 133, 160, 5760,
    8192, 8193, 8194, 8195, 8196, 8197, 8198, 8199, 8200, 8201, 8202, 8232, 8233, 8239, 8287, 12288}

  lemma SpacesAre(c: char)
    ensures IsSpace(c) <==> c as int in SPACES
  {
  }

  function TrimLeft(s: string): (r: string)
    ensures |r| <= |s|
    ensures r != [] ==> !IsSpace(r[0])
  {
    if s == [] then s else if IsSpace(s[0]) then TrimLeft(s[1..]) else s
  }

  function TrimRight(s: string): (r: string)
    ensures r <= s
    ensures r != [] ==> !IsSpace(r[|r| - 1])
  {
    if s == [] then s else if IsSpace(s[|s| - 1]) then TrimRight(s[..|s| - 1]) else s
  }

  function Trim(s: string): (r: string)
    ensures |r| <= |s|
  {
    TrimRight(TrimLeft(s))
  }

  /** No white space at either end. */
  predicate Trimmed(s: string) {
    s != [] ==> !IsSpace(s[0]) && !IsSpace(s[|s| - 1])
  }

  lemma TrimIsTrimmed(s: string)
    ensures Trimmed(Trim(s))
  {
  }

  lemma TrimFixed(s: string)
    ensures Trim(s) == s <==> Trimmed(s)
  {
    TrimIsTrimmed(s);
  }

  /** A free-text field from a client: trimmed, then cut to `limit` characters; empty
      means "not set". `None` stands for any value that is not text. */
  function Clip(value: Option<string>, limit: nat): (r: Option<string>)
    ensures r.Some? ==> value.Some? && 0 < |r.value| <= limit && |r.value| <= |value.value|
  {
    if value.None? then None else
    var t := Trim(value.value);
    var cut := if |t| > limit then t[..limit] else t;
    if cut == [] then None else Some(cut)
  }

  /** Text that clipping leaves alone. */
  predicate ClipStable(s: string, limit: nat) {
    Trimmed(s) && 0 < |s| <= limit
  }

  lemma ClipFixed(s: string, limit: nat)
    ensures Clip(Some(s), limit) == Some(s) <==> ClipStable(s, limit)
  {
    TrimFixed(s);
    if Clip(Some(s), limit) == Some(s) {
      TrimSameLength(s);
    }
  }

  lemma TrimSameLength(s: string)
    requires |Trim(s)| == |s|
    ensures Trim(s) == s
  {
  }

  /** Clipping never makes text longer, and it shortens whatever it changes. */
  lemma ClipShortens(s: string, limit: nat)
    ensures Clip(Some(s), limit).Some? && Clip(Some(s), limit) != Some(s) ==> |Clip(Some(s), limit).value| < |s|
  {
    if Clip(Some(s), limit).Some? && |Clip(Some(s), limit).value| == |s| {
      TrimSameLength(s);
    }
  }

  // ---- The same, told from the text alone ----------------------------------------------------

  /** `core` is all of the text but the white space around it. */
  ghost predicate IsCore(s: string, core: string) {
    exists i, j :: CoreAt(s, core, i, j)
  }

  ghost predicate CoreAt(s: string, core: string, i: int, j: int) {
    && 0 <= i <= j <= |s| && core == s[i..j] && Trimmed(core)
    && (forall k :: 0 <= k < i ==> IsSpace(s[k])) && (forall k :: j <= k < |s| ==> IsSpace(s[k]))
  }

  lemma {:induction false} TrimLeftAt(s: string) returns (i: nat)
    ensures i <= |s| && TrimLeft(s) == s[i..] && forall k :: 0 <= k < i ==> IsSpace(s[k])
  {
    if s == [] || !IsSpace(s[0]) {
      i := 0;
    } else {
      i := TrimLeftAt(s[1..]);
      assert forall k :: 0 < k <= i ==> s[k] == s[1..][k - 1];
      i := i + 1;
    }
  }

  lemma {:induction false} TrimRightAt(s: string)
    ensures forall k :: |TrimRight(s)| <= k < |s| ==> IsSpace(s[k])
  {
    if s != [] && IsSpace(s[|s| - 1]) {
      TrimRightAt(s[..|s| - 1]);
      assert forall k :: 0 <= k < |s| - 1 ==> s[k] == s[..|s| - 1][k];
    }
  }

  lemma TrimIsCore(s: string)
    ensures IsCore(s, Trim(s))
  {
    var i := TrimLeftAt(s);
    var rest := s[i..];
    TrimRightAt(rest);
    TrimIsTrimmed(s);
    var j := i + |Trim(s)|;
    assert Trim(s) == rest[..|Trim(s)|] == s[i..j];
    forall k | j <= k < |s| ensures IsSpace(s[k]) { assert s[k] == rest[k - i]; }
    assert CoreAt(s, Trim(s), i, j);
  }

  lemma CoreIsTrim(s: string, core: string)
    requires IsCore(s, core)
    ensures core == Trim(s)
  {
    TrimIsCore(s);
    var i, j :| CoreAt(s, core, i, j);
    var k, l :| CoreAt(s, Trim(s), k, l);
    SameCore(s, core, i, j, Trim(s), k, l);
  }

  lemma SameCore(s: string, a: string, i: int, j: int, b: string, k: int, l: int)
    requires CoreAt(s, a, i, j) && CoreAt(s, b, k, l)
    ensures a == b
  {
    if i < j {
      assert s[i] == a[0] && s[j - 1] == a[|a| - 1];
    }
    if k < l {
      assert s[k] == b[0] && s[l - 1] == b[|b| - 1];
    }
  }

  /** What a column of this width keeps of a value: the text without the white space around it, cut to the
      width; nothing if that is empty or the value is no text. */
  ghost predicate Keeps(value: Option<string>, width: nat, stored: Option<string>) {
    match value
    case None => stored.None?
    case Some(s) =>
      exists core :: IsCore(s, core) &&
        stored == if core == "" then None else Some(if |core| <= width then core else core[..width])
  }

  /** Clipping is that, and nothing else is. */
  lemma ClipKeeps(value: Option<string>, limit: nat, stored: Option<string>)
    requires limit > 0
    ensures Keeps(value, limit, stored) <==> stored == Clip(value, limit)
  {
    if value.Some? {
      TrimIsCore(value.value);
      if core :| IsCore(value.value, core) &&
                 stored == (if core == "" then None else Some(if |core| <= limit then core else core[..limit]))
      {
        CoreIsTrim(value.value, core);
      }
    }
  }

  // ---- Decimal numerals ------------------------------------------------------------

  predicate IsDigit(c: char) {
    '0' <= c <= '9'
  }

  function DigitOf(n: nat): (c: char)
    requires n < 10
    ensures IsDigit(c) && ValueOf(c) == n
  {
    (n + ('0' as int)) as char
  }

  function ValueOf(c: char): nat
    requires IsDigit(c)
  {
    (c as int) - ('0' as int)
  }

  /** `str(n)`. */
  function Decimal(n: nat): (s: string)
    ensures s != [] && forall i :: 0 <= i < |s| ==> IsDigit(s[i])
  {
    if n < 10 then [DigitOf(n)] else Decimal(n / 10) + [DigitOf(n % 10)]
  }

  /** The value of a text of digits. */
  function DecimalValue(s: string): nat
    requires forall i :: 0 <= i < |s| ==> IsDigit(s[i])
  {
    if s == [] then 0
    else 10 * DecimalValue(s[..|s| - 1]) + ValueOf(s[|s| - 1])
  }

  lemma {:induction false} DecimalRoundTrip(n: nat)
    ensures DecimalValue(Decimal(n)) == n
  {
    if n >= 10 {
      DecimalRoundTrip(n / 10);
      assert Decimal(n)[..|Decimal(n)| - 1] == Decimal(n / 10);
    }
  }

  lemma DecimalInjective(m: nat, n: nat)
    requires Decimal(m) == Decimal(n)
    ensures m == n
  {
    DecimalRoundTrip(m);
    DecimalRoundTrip(n);
  }
}
