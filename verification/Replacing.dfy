/** Replacing a piece of text everywhere, and filling a template one token after the other. */
module Replacing {
  import opened Common

  ghost predicate StartsAt(p: string, t: string, i: int) {
    0 <= i <= |t| && p <= t[i..]
  }

  ghost predicate Occurs(p: string, t: string) {
    exists i :: StartsAt(p, t, i)
  }

  /** From left to right, without looking at what was put in. */
  function Replace(t: string, p: string, v: string): string
    requires p != ""
    decreases |t|
  {
    if |t| < |p| then t
    else if p <= t then v + Replace(t[|p|..], p, v)
    else [t[0]] + Replace(t[1..], p, v)
  }

  lemma NotInTail(p: string, t: string, k: nat)
    requires !Occurs(p, t) && k <= |t|
    ensures !Occurs(p, t[k..])
  {
    forall i | StartsAt(p, t[k..], i) ensures StartsAt(p, t, k + i) {
      assert t[k..][i..] == t[k + i..];
    }
  }

  lemma {:induction false} ReplaceNothing(t: string, p: string, v: string)
    requires p != "" && !Occurs(p, t)
    ensures Replace(t, p, v) == t
  {
    assert !StartsAt(p, t, 0) && t[0..] == t;
    if |t| >= |p| {
      NotInTail(p, t, 1);
      ReplaceNothing(t[1..], p, v);
      assert t == [t[0]] + t[1..];
    }
  }

  /** No occurrence of `p` can reach over the seam: one of the two characters there is none of
      its characters, or one side is empty, or `p` is a single character. */
  predicate Seam(a: string, b: string, p: string) {
    a == "" || b == "" || |p| == 1 || a[|a| - 1] !in p || b[0] !in p
  }

  lemma ReachesOver(a: string, b: string, p: string)
    requires a != "" && |p| > |a| && p <= a + b
    ensures b != "" && a[|a| - 1] in p && b[0] in p
  {
    assert p[|a| - 1] == (a + b)[|a| - 1] == a[|a| - 1];
    assert p[|a|] == (a + b)[|a|] == b[0];
  }

  lemma NoReachOver(a: string, b: string, p: string)
    requires a != "" && p != "" && Seam(a, b, p)
    ensures p <= a + b <==> p <= a
  {
    if |p| <= |a| {
      assert (a + b)[..|p|] == a[..|p|];
    } else if p <= a + b {
      ReachesOver(a, b, p);
    }
  }

  lemma {:induction false} ReplaceSplit(a: string, b: string, p: string, v: string)
    requires p != "" && Seam(a, b, p)
    ensures Replace(a + b, p, v) == Replace(a, p, v) + Replace(b, p, v)
    decreases |a|
  {
    if a == "" {
      assert a + b == b;
      assert Replace(a, p, v) + Replace(b, p, v) == Replace(b, p, v);
    } else {
      NoReachOver(a, b, p);
      var k := if p <= a then |p| else 1;
      assert a[k..] != "" ==> a[k..][|a[k..]| - 1] == a[|a| - 1];
      ReplaceSplit(a[k..], b, p, v);
      if p <= a { SplitHit(a, b, p, v); } else { SplitMiss(a, b, p, v); }
    }
  }

  lemma SplitHit(a: string, b: string, p: string, v: string)
    requires p != "" && p <= a
    requires Replace(a[|p|..] + b, p, v) == Replace(a[|p|..], p, v) + Replace(b, p, v)
    ensures Replace(a + b, p, v) == Replace(a, p, v) + Replace(b, p, v)
  {
    assert (a + b)[..|p|] == a[..|p|];
    assert (a + b)[|p|..] == a[|p|..] + b;
    Assoc(v, Replace(a[|p|..], p, v), Replace(b, p, v));
  }

  lemma SplitMiss(a: string, b: string, p: string, v: string)
    requires p != "" && a != "" && !(p <= a + b) && !(p <= a)
    requires Replace(a[1..] + b, p, v) == Replace(a[1..], p, v) + Replace(b, p, v)
    ensures Replace(a + b, p, v) == Replace(a, p, v) + Replace(b, p, v)
  {
    ReplaceMiss(a, p, v);
    MissSum(a, b, p, v);
    Assoc([a[0]], Replace(a[1..], p, v), Replace(b, p, v));
  }

  lemma MissSum(a: string, b: string, p: string, v: string)
    requires p != "" && a != "" && !(p <= a + b)
    ensures Replace(a + b, p, v) == [a[0]] + Replace(a[1..] + b, p, v)
  {
    ReplaceMiss(a + b, p, v);
    assert (a + b)[1..] == a[1..] + b;
  }

  lemma ReplaceMiss(t: string, p: string, v: string)
    requires p != "" && t != "" && !(p <= t)
    ensures Replace(t, p, v) == [t[0]] + Replace(t[1..], p, v)
  {
    assert [t[0]] + t[1..] == t;
  }

  // ---- Tokens -----------------------------------------------------------------------

  predicate Name(n: string) {
    n != "" && forall i :: 0 <= i < |n| ==> 'A' <= n[i] <= 'Z'
  }

  predicate TokenChar(c: char) {
    c == '@' || 'A' <= c <= 'Z'
  }

  function Token(n: string): (r: string)
    ensures |r| == |n| + 4
  {
    "@@" + n + "@@"
  }

  lemma TokenChars(n: string, c: char)
    requires Name(n) && c in Token(n)
    ensures TokenChar(c)
  {
  }

  lemma TokenHit(n: string, v: string)
    ensures Replace(Token(n), Token(n), v) == v
  {
    assert Token(n)[|Token(n)|..] == "";
    assert Replace("", Token(n), v) == "";
    assert v + "" == v;
  }

  lemma CharOfToken(n: string, k: nat)
    requires k < |n| + 4
    ensures Token(n)[k] == if k < 2 || k >= |n| + 2 then '@' else n[k - 2]
  {
  }

  /** The characters of a token within a text, by their place in the text. */
  lemma CharAt(n: string, t: string, i: nat, k: nat)
    requires StartsAt(Token(n), t, i) && k < |n| + 4
    ensures i + |n| + 4 <= |t| && t[i + k] == if k < 2 || k >= |n| + 2 then '@' else n[k - 2]
  {
    CharOfToken(n, k);
    assert t[i + k] == t[i..][k] == Token(n)[k];
  }

  lemma TokenAt(m: string, n: string, i: int)
    requires Name(m) && Name(n) && StartsAt(Token(n), Token(m), i)
    ensures m == n
  {
    var t := Token(m);
    CharAt(n, t, i, 0);
    CharAt(n, t, i, 1);
    CharOfToken(m, i);
    CharOfToken(m, i + 1);
    assert i == 0;
    CharAt(n, t, 0, |n| + 2);
    CharOfToken(m, |n| + 2);
    assert |n| == |m|;
    forall k | 0 <= k < |n| ensures n[k] == m[k] {
      CharAt(n, t, 0, k + 2);
      CharOfToken(m, k + 2);
    }
  }

  /** One token is no part of another. */
  lemma TokenMiss(m: string, n: string)
    requires Name(m) && Name(n) && m != n
    ensures !Occurs(Token(n), Token(m))
  {
    if i :| StartsAt(Token(n), Token(m), i) { TokenAt(m, n, i); }
  }

  // ---- Filling a template ------------------------------------------------------------------

  datatype Filling = Filling(name: string, value: string)

  /** `for token, value in replacements.items(): text = text.replace(token, value)` */
  function Fill(text: string, fs: seq<Filling>): string
    decreases |fs|
  {
    if fs == [] then text else Fill(Replace(text, Token(fs[0].name), fs[0].value), fs[1..])
  }

  method FillTokens(text: string, fs: seq<Filling>) returns (r: string)
    ensures r == Fill(text, fs)
  {
    r := text;
    var i := 0;
    while i < |fs|
      invariant 0 <= i <= |fs| && Fill(r, fs[i..]) == Fill(text, fs)
    {
      assert fs[i..][1..] == fs[i + 1..];
      r := Replace(r, Token(fs[i].name), fs[i].value);
      i := i + 1;
    }
  }

  /** A template: text before, between and after its holes. */
  function Weave(literals: seq<string>, holes: seq<string>): string
    requires |literals| == |holes| + 1
  {
    if holes == [] then literals[0] else literals[0] + (holes[0] + Weave(literals[1..], holes[1..]))
  }

  /** Text between two holes: no part of a token can touch its ends, and it has no `@`. */
  predicate Solid(s: string) {
    s != "" && !TokenChar(s[0]) && !TokenChar(s[|s| - 1]) && '@' !in s
  }

  predicate AllSolid(literals: seq<string>) {
    forall i :: 0 <= i < |literals| ==> Solid(literals[i])
  }

  function ReplaceEach(holes: seq<string>, p: string, v: string): (r: seq<string>)
    requires p != ""
    ensures |r| == |holes| && forall i :: 0 <= i < |holes| ==> r[i] == Replace(holes[i], p, v)
  {
    if holes == [] then [] else [Replace(holes[0], p, v)] + ReplaceEach(holes[1..], p, v)
  }

  function FillEach(holes: seq<string>, fs: seq<Filling>): (r: seq<string>)
    ensures |r| == |holes| && forall i :: 0 <= i < |holes| ==> r[i] == Fill(holes[i], fs)
  {
    if holes == [] then [] else [Fill(holes[0], fs)] + FillEach(holes[1..], fs)
  }

  lemma TokenHasAt(n: string, s: string)
    requires Occurs(Token(n), s)
    ensures '@' in s
  {
    var i :| StartsAt(Token(n), s, i);
    assert s[i..][0] == Token(n)[0] == '@';
  }

  lemma SolidReplace(s: string, n: string, v: string)
    requires Solid(s)
    ensures Replace(s, Token(n), v) == s
  {
    if Occurs(Token(n), s) { TokenHasAt(n, s); }
    ReplaceNothing(s, Token(n), v);
  }

  lemma SolidSeams(s: string, n: string, before: string, after: string)
    requires Solid(s) && Name(n)
    ensures Seam(s, after, Token(n))
    ensures forall t: string :: t != "" && t[0] == s[0] ==> Seam(before, t, Token(n))
  {
    if s[|s| - 1] in Token(n) { TokenChars(n, s[|s| - 1]); }
    if s[0] in Token(n) { TokenChars(n, s[0]); }
  }

  /** One pass over a template with anything in its holes is a pass over each hole. */
  lemma {:induction false} WeaveReplace(literals: seq<string>, holes: seq<string>, n: string, v: string)
    requires |literals| == |holes| + 1 && AllSolid(literals) && Name(n)
    ensures Replace(Weave(literals, holes), Token(n), v) == Weave(literals, ReplaceEach(holes, Token(n), v))
  {
    var p := Token(n);
    SolidReplace(literals[0], n, v);
    if holes != [] {
      var rest := Weave(literals[1..], holes[1..]);
      assert Solid(literals[1]) && AllSolid(literals[1..]);
      SolidSeams(literals[0], n, "", holes[0] + rest);
      SolidSeams(literals[1], n, holes[0], "");
      ReplaceSplit(literals[0], holes[0] + rest, p, v);
      ReplaceSplit(holes[0], rest, p, v);
      WeaveReplace(literals[1..], holes[1..], n, v);
      assert ReplaceEach(holes, p, v)[1..] == ReplaceEach(holes[1..], p, v);
    }
  }

  predicate AllNamed(fs: seq<Filling>) {
    forall i :: 0 <= i < |fs| ==> Name(fs[i].name)
  }

  /** All passes together: what ends up in a hole depends on that hole alone. */
  lemma {:induction false} WeaveFill(literals: seq<string>, holes: seq<string>, fs: seq<Filling>)
    requires |literals| == |holes| + 1 && AllSolid(literals) && AllNamed(fs)
    ensures Fill(Weave(literals, holes), fs) == Weave(literals, FillEach(holes, fs))
    decreases |fs|
  {
    if fs == [] {
      assert FillEach(holes, fs) == holes;
    } else {
      var once := ReplaceEach(holes, Token(fs[0].name), fs[0].value);
      WeaveReplace(literals, holes, fs[0].name, fs[0].value);
      WeaveFill(literals, once, fs[1..]);
      assert FillEach(once, fs[1..]) == FillEach(holes, fs);
    }
  }

  /** What one token is filled with: its value, over which the later passes still go. */
  function Filled(n: string, fs: seq<Filling>): string {
    if fs == [] then Token(n)
    else if fs[0].name == n then Fill(fs[0].value, fs[1..])
    else Filled(n, fs[1..])
  }

  lemma {:induction false} FillToken(n: string, fs: seq<Filling>)
    requires Name(n) && AllNamed(fs)
    ensures Fill(Token(n), fs) == Filled(n, fs)
  {
    if fs != [] {
      assert AllNamed(fs[1..]);
      if fs[0].name == n {
        TokenHit(n, fs[0].value);
      } else {
        TokenMiss(n, fs[0].name);
        ReplaceNothing(Token(n), Token(fs[0].name), fs[0].value);
        FillToken(n, fs[1..]);
      }
    }
  }

  ghost predicate FreeOf(t: string, fs: seq<Filling>) {
    forall i :: 0 <= i < |fs| ==> !Occurs(Token(fs[i].name), t)
  }

  lemma {:induction false} FillNothing(t: string, fs: seq<Filling>)
    requires FreeOf(t, fs)
    ensures Fill(t, fs) == t
  {
    if fs != [] {
      ReplaceNothing(t, Token(fs[0].name), fs[0].value);
      assert forall i :: 0 <= i < |fs[1..]| ==> fs[1..][i] == fs[i + 1];
      FillNothing(t, fs[1..]);
    }
  }

  /** The value of a name, as one simultaneous substitution would use it. */
  function ValueOf(n: string, fs: seq<Filling>): string {
    if fs == [] then Token(n) else if fs[0].name == n then fs[0].value else ValueOf(n, fs[1..])
  }

  /** No value holds a token that is filled after it. */
  ghost predicate NoLaterToken(fs: seq<Filling>) {
    fs != [] ==> FreeOf(fs[0].value, fs[1..]) && NoLaterToken(fs[1..])
  }

  lemma {:induction false} FilledIsValue(n: string, fs: seq<Filling>)
    requires NoLaterToken(fs)
    ensures Filled(n, fs) == ValueOf(n, fs)
  {
    if fs != [] {
      if fs[0].name == n { FillNothing(fs[0].value, fs[1..]); } else { FilledIsValue(n, fs[1..]); }
    }
  }

  function Tokens(names: seq<string>): (r: seq<string>)
    ensures |r| == |names| && forall i :: 0 <= i < |names| ==> r[i] == Token(names[i])
  {
    if names == [] then [] else [Token(names[0])] + Tokens(names[1..])
  }

  function Values(names: seq<string>, fs: seq<Filling>): (r: seq<string>)
    ensures |r| == |names| && forall i :: 0 <= i < |names| ==> r[i] == ValueOf(names[i], fs)
  {
    if names == [] then [] else [ValueOf(names[0], fs)] + Values(names[1..], fs)
  }

  function FilledValues(names: seq<string>, fs: seq<Filling>): (r: seq<string>)
    ensures |r| == |names| && forall i :: 0 <= i < |names| ==> r[i] == Filled(names[i], fs)
  {
    if names == [] then [] else [Filled(names[0], fs)] + FilledValues(names[1..], fs)
  }

  ghost predicate Template(literals: seq<string>, names: seq<string>) {
    |literals| == |names| + 1 && AllSolid(literals) && forall i :: 0 <= i < |names| ==> Name(names[i])
  }

  /** Main result, for all values: filling token after token puts into each hole that token's value
      with the later tokens filled in it, and nothing else in the template changes. */
  lemma SequentialFill(literals: seq<string>, names: seq<string>, fs: seq<Filling>)
    requires Template(literals, names) && AllNamed(fs)
    ensures Fill(Weave(literals, Tokens(names)), fs) == Weave(literals, FilledValues(names, fs))
  {
    WeaveFill(literals, Tokens(names), fs);
    forall i | 0 <= i < |names| ensures FillEach(Tokens(names), fs)[i] == FilledValues(names, fs)[i] {
      FillToken(names[i], fs);
    }
    assert FillEach(Tokens(names), fs) == FilledValues(names, fs);
  }

  /** So it is one simultaneous substitution when no value holds a later token. */
  lemma SimultaneousFill(literals: seq<string>, names: seq<string>, fs: seq<Filling>)
    requires Template(literals, names) && AllNamed(fs) && NoLaterToken(fs)
    ensures Fill(Weave(literals, Tokens(names)), fs) == Weave(literals, Values(names, fs))
  {
    SequentialFill(literals, names, fs);
    forall i | 0 <= i < |names| ensures FilledValues(names, fs)[i] == Values(names, fs)[i] {
      FilledIsValue(names[i], fs);
    }
    assert FilledValues(names, fs) == Values(names, fs);
  }

  ghost predicate ValueFreeAt(fs: seq<Filling>, i: nat)
    requires i < |fs|
  {
    FreeOf(fs[i].value, fs[i + 1..])
  }

  lemma {:induction false} NoLaterByPlace(fs: seq<Filling>)
    requires forall i :: 0 <= i < |fs| ==> ValueFreeAt(fs, i)
    ensures NoLaterToken(fs)
  {
    if fs != [] {
      assert ValueFreeAt(fs, 0);
      forall i | 0 <= i < |fs[1..]| ensures ValueFreeAt(fs[1..], i) {
        assert ValueFreeAt(fs, i + 1) && fs[1..][i] == fs[i + 1] && fs[1..][i + 1..] == fs[i + 2..];
      }
      NoLaterByPlace(fs[1..]);
    }
  }

  predicate DistinctNames(fs: seq<Filling>) {
    forall i, j :: 0 <= i < j < |fs| ==> fs[i].name != fs[j].name
  }

  lemma {:induction false} FilledAt(fs: seq<Filling>, i: nat)
    requires i < |fs| && DistinctNames(fs)
    ensures Filled(fs[i].name, fs) == Fill(fs[i].value, fs[i + 1..])
    ensures ValueOf(fs[i].name, fs) == fs[i].value
  {
    if i > 0 {
      assert fs[1..][i - 1] == fs[i] && fs[1..][i..] == fs[i + 1..];
      assert forall k :: 0 <= k < |fs[1..]| ==> fs[1..][k] == fs[k + 1];
      FilledAt(fs[1..], i - 1);
    }
  }

  /** Over a text with none of the tokens but the last, only the last pass does anything. */
  lemma {:induction false} FillLast(t: string, fs: seq<Filling>)
    requires fs != [] && forall i :: 0 <= i < |fs| - 1 ==> !Occurs(Token(fs[i].name), t)
    ensures Fill(t, fs) == Replace(t, Token(Last(fs).name), Last(fs).value)
  {
    if |fs| > 1 {
      ReplaceNothing(t, Token(fs[0].name), fs[0].value);
      assert forall k :: 0 <= k < |fs[1..]| ==> fs[1..][k] == fs[k + 1];
      FillLast(t, fs[1..]);
    } else {
      assert fs[1..] == [];
    }
  }

  // ---- When a pass changes something ------------------------------------------------------------

  function Count(t: string, p: string): nat
    requires p != ""
    decreases |t|
  {
    if |t| < |p| then 0
    else if p <= t then 1 + Count(t[|p|..], p)
    else Count(t[1..], p)
  }

  lemma {:induction false} ReplaceLength(t: string, p: string, v: string)
    requires p != ""
    ensures |Replace(t, p, v)| == |t| + Count(t, p) * (|v| - |p|)
    decreases |t|
  {
    if |t| >= |p| {
      if p <= t {
        ReplaceLength(t[|p|..], p, v);
        OneMore(Count(t[|p|..], p), |v| - |p|);
      } else {
        ReplaceLength(t[1..], p, v);
      }
    }
  }

  lemma OneMore(c: int, d: int)
    ensures (1 + c) * d == d + c * d
  {
  }

  lemma {:induction false} OccursCounts(t: string, p: string, i: int)
    requires p != "" && StartsAt(p, t, i)
    ensures Count(t, p) >= 1
    decreases |t|
  {
    if !(p <= t) {
      assert t[0..] == t;
      assert t[i..] == t[1..][i - 1..];
      OccursCounts(t[1..], p, i - 1);
    }
  }

  lemma {:induction false} ReplaceDiffers(t: string, p: string, v: string)
    requires p != "" && Count(t, p) >= 1 && |v| == |p| && v != p
    ensures Replace(t, p, v) != t
    decreases |t|
  {
    var r := Replace(t, p, v);
    if p <= t {
      assert r[..|p|] == v && t[..|p|] == p;
    } else {
      ReplaceDiffers(t[1..], p, v);
      assert r[1..] == Replace(t[1..], p, v);
    }
  }

  /** A pass leaves a text alone exactly when it has nothing to replace or replaces by the same. */
  lemma ReplaceFixed(t: string, p: string, v: string)
    requires p != ""
    ensures Replace(t, p, v) == t <==> !Occurs(p, t) || v == p
  {
    if !Occurs(p, t) {
      ReplaceNothing(t, p, v);
    } else if v == p {
      ReplaceSame(t, p);
    } else {
      ReplaceChanges(t, p, v);
    }
  }

  lemma ReplaceChanges(t: string, p: string, v: string)
    requires p != "" && Occurs(p, t) && v != p
    ensures Replace(t, p, v) != t
  {
    var i :| StartsAt(p, t, i);
    OccursCounts(t, p, i);
    if |v| == |p| {
      ReplaceDiffers(t, p, v);
    } else {
      ReplaceLength(t, p, v);
      NonZero(Count(t, p), |v| - |p|);
    }
  }

  lemma NonZero(c: int, d: int)
    requires c >= 1 && d != 0
    ensures c * d != 0
  {
  }

  lemma {:induction false} ReplaceSame(t: string, p: string)
    requires p != ""
    ensures Replace(t, p, p) == t
    decreases |t|
  {
    if |t| >= |p| {
      if p <= t {
        ReplaceSame(t[|p|..], p);
        assert t == p + t[|p|..];
      } else {
        ReplaceSame(t[1..], p);
        assert t == [t[0]] + t[1..];
      }
    }
  }

  /** Two fillings of a template that differ in one hole are different. */
  lemma {:induction false} WeaveDiffers(literals: seq<string>, xs: seq<string>, ys: seq<string>, k: nat)
    requires |literals| == |xs| + 1 == |ys| + 1 && k < |xs| && xs[k] != ys[k]
    requires forall j :: 0 <= j < |xs| && j != k ==> xs[j] == ys[j]
    ensures Weave(literals, xs) != Weave(literals, ys)
  {
    var restX, restY := Weave(literals[1..], xs[1..]), Weave(literals[1..], ys[1..]);
    if k == 0 {
      assert xs[1..] == ys[1..];
      CancelRight(xs[0], ys[0], restX);
      CancelLeft(literals[0], xs[0] + restX, ys[0] + restY);
    } else {
      WeaveDiffers(literals[1..], xs[1..], ys[1..], k - 1);
      CancelLeft(xs[0], restX, restY);
      CancelLeft(literals[0], xs[0] + restX, ys[0] + restY);
    }
  }

  lemma CancelLeft(a: string, x: string, y: string)
    ensures a + x == a + y <==> x == y
  {
    assert (a + x)[|a|..] == x && (a + y)[|a|..] == y;
  }

  lemma CancelRight(x: string, y: string, b: string)
    ensures x + b == y + b <==> x == y
  {
    if x + b == y + b {
      assert |x| == |y|;
      assert (x + b)[..|x|] == x && (y + b)[..|y|] == y;
    }
  }

  // ---- One value with later tokens in it --------------------------------------------------------

  lemma CleanHole(fs: seq<Filling>, i: nat)
    requires i < |fs| && DistinctNames(fs) && ValueFreeAt(fs, i)
    ensures Filled(fs[i].name, fs) == ValueOf(fs[i].name, fs)
  {
    FilledAt(fs, i);
    FillNothing(fs[i].value, fs[i + 1..]);
  }

  ghost predicate Covered(n: string, fs: seq<Filling>) {
    exists i :: 0 <= i < |fs| && fs[i].name == n
  }

  ghost predicate AllCovered(names: seq<string>, fs: seq<Filling>) {
    forall j :: 0 <= j < |names| ==> Covered(names[j], fs)
  }

  ghost predicate CleanBut(fs: seq<Filling>, c: nat) {
    forall i :: 0 <= i < |fs| && i != c ==> ValueFreeAt(fs, i)
  }

  /** If the values of all names but one hold no later token, the sequential filling is the
      simultaneous one exactly when the later passes leave that one value alone. */
  lemma OneDirtyHole(literals: seq<string>, names: seq<string>, fs: seq<Filling>, c: nat, k: nat)
    requires Template(literals, names) && AllNamed(fs) && DistinctNames(fs) && Distinct(names)
    requires c < |fs| && k < |names| && names[k] == fs[c].name
    requires AllCovered(names, fs) && CleanBut(fs, c)
    ensures Fill(Weave(literals, Tokens(names)), fs) == Weave(literals, Values(names, fs))
            <==> Fill(fs[c].value, fs[c + 1..]) == fs[c].value
  {
    var xs, ys := FilledValues(names, fs), Values(names, fs);
    SequentialFill(literals, names, fs);
    FilledAt(fs, c);
    forall j | 0 <= j < |names| && j != k ensures xs[j] == ys[j] {
      assert Covered(names[j], fs);
      var i :| 0 <= i < |fs| && fs[i].name == names[j];
      CleanHole(fs, i);
    }
    if xs[k] == ys[k] { assert xs == ys; } else { WeaveDiffers(literals, xs, ys, k); }
  }

  // ---- Names and values in the order of filling ---------------------------------------------------

  function Paired(names: seq<string>, values: seq<string>): (fs: seq<Filling>)
    requires |names| == |values|
    ensures |fs| == |names| && forall i :: 0 <= i < |fs| ==> fs[i] == Filling(names[i], values[i])
  {
    seq(|names|, i requires 0 <= i < |names| => Filling(names[i], values[i]))
  }

  ghost predicate TokenNames(names: seq<string>) {
    Distinct(names) && forall k :: 0 <= k < |names| ==> Name(names[k])
  }

  ghost predicate SameNames(a: seq<string>, b: seq<string>) {
    Distinct(a) && forall n :: n in a <==> n in b
  }

  /** None of the tokens from the `k`th on is in the text. */
  ghost predicate FreeFrom(names: seq<string>, text: string, k: nat) {
    forall j :: k <= j < |names| ==> !Occurs(Token(names[j]), text)
  }

  /** No value but the `c`th holds a token that is filled after it. */
  ghost predicate FreeBut(names: seq<string>, values: seq<string>, c: nat)
    requires |names| == |values|
  {
    forall i :: 0 <= i < |names| && i != c ==> FreeFrom(names, values[i], i + 1)
  }

  lemma PairedNames(names: seq<string>, values: seq<string>)
    requires TokenNames(names) && |names| == |values|
    ensures AllNamed(Paired(names, values)) && DistinctNames(Paired(names, values))
  {
  }

  lemma PairedFree(names: seq<string>, values: seq<string>, i: nat)
    requires |names| == |values| && i < |names| && FreeFrom(names, values[i], i + 1)
    ensures ValueFreeAt(Paired(names, values), i)
  {
    var later := Paired(names, values)[i + 1..];
    assert forall k :: 0 <= k < |later| ==> later[k].name == names[i + 1 + k];
  }

  lemma PairedCovers(names: seq<string>, values: seq<string>, holes: seq<string>)
    requires |names| == |values| && SameNames(holes, names)
    ensures AllCovered(holes, Paired(names, values))
  {
    forall j | 0 <= j < |holes| ensures Covered(holes[j], Paired(names, values)) {
      assert holes[j] in names;
      var i :| 0 <= i < |names| && names[i] == holes[j];
      assert Paired(names, values)[i].name == holes[j];
    }
  }

  lemma PairedClean(names: seq<string>, values: seq<string>, c: nat)
    requires |names| == |values| && FreeBut(names, values, c)
    ensures CleanBut(Paired(names, values), c)
  {
    forall i | 0 <= i < |names| && i != c ensures ValueFreeAt(Paired(names, values), i) {
      assert FreeFrom(names, values[i], i + 1);
      PairedFree(names, values, i);
    }
  }

  /** The filling token by token is the simultaneous substitution. */
  ghost predicate AtOnce(literals: seq<string>, holes: seq<string>, names: seq<string>, values: seq<string>)
    requires |names| == |values| && |literals| == |holes| + 1
  {
    Fill(Weave(literals, Tokens(holes)), Paired(names, values))
    == Weave(literals, Values(holes, Paired(names, values)))
  }

  /** If no value holds a later token, the filling is the simultaneous substitution. */
  lemma CleanFill(literals: seq<string>, holes: seq<string>, names: seq<string>, values: seq<string>)
    requires TokenNames(names) && |names| == |values| && Template(literals, holes)
    requires FreeBut(names, values, |names|)
    ensures AtOnce(literals, holes, names, values)
  {
    PairedNames(names, values);
    PairedClean(names, values, |names|);
    NoLaterByPlace(Paired(names, values));
    SimultaneousFill(literals, holes, Paired(names, values));
  }

  /** The later passes over the `c`th value: only the last one can do anything. */
  lemma LastPass(names: seq<string>, values: seq<string>, c: nat)
    requires |names| == |values| && c + 1 < |names|
    requires forall j :: c < j < |names| - 1 ==> !Occurs(Token(names[j]), values[c])
    ensures Fill(values[c], Paired(names, values)[c + 1..]) == Replace(values[c], Token(Last(names)), Last(values))
  {
    var later := Paired(names, values)[c + 1..];
    assert forall k :: 0 <= k < |later| ==> later[k] == Filling(names[c + 1 + k], values[c + 1 + k]);
    FillLast(values[c], later);
  }

  /** If only one value holds a later token, and that only the last one: the sequential filling is the
      simultaneous substitution exactly when it does not. */
  lemma LastDecides(literals: seq<string>, holes: seq<string>, names: seq<string>, values: seq<string>, c: nat)
    requires TokenNames(names) && |names| == |values| && Template(literals, holes) && SameNames(holes, names)
    requires c + 1 < |names| && FreeBut(names, values, c)
    requires forall j :: c < j < |names| - 1 ==> !Occurs(Token(names[j]), values[c])
    requires Last(values) != Token(Last(names))
    ensures AtOnce(literals, holes, names, values) <==> !Occurs(Token(Last(names)), values[c])
  {
    assert names[c] in holes;
    var k :| 0 <= k < |holes| && holes[k] == names[c];
    PairedNames(names, values);
    PairedCovers(names, values, holes);
    PairedClean(names, values, c);
    OneDirtyHole(literals, holes, Paired(names, values), c, k);
    LastPass(names, values, c);
    ReplaceFixed(values[c], Token(Last(names)), Last(values));
  }

  // ---- When any of several passes shows ---------------------------------------------------------

  function Chars(t: string, c: char): nat {
    if t == "" then 0 else (if t[0] == c then 1 else 0) + Chars(t[1..], c)
  }

  lemma {:induction false} CharsJoin(a: string, b: string, c: char)
    ensures Chars(a + b, c) == Chars(a, c) + Chars(b, c)
  {
    if a == "" {
      assert a + b == b;
    } else {
      assert (a + b)[1..] == a[1..] + b;
      CharsJoin(a[1..], b, c);
    }
  }

  lemma {:induction false} CharsNone(t: string, c: char)
    ensures Chars(t, c) == 0 <==> c !in t
  {
    if t != "" {
      CharsNone(t[1..], c);
      assert t == [t[0]] + t[1..];
    }
  }

  /** A text that does not start with `p` holds it further on, if at all. */
  lemma OccursLater(p: string, t: string)
    requires p != "" && t != "" && !(p <= t) && Occurs(p, t)
    ensures Occurs(p, t[1..])
  {
    var i :| StartsAt(p, t, i);
    assert t[0..] == t;
    assert t[1..][i - 1..] == t[i..];
    assert StartsAt(p, t[1..], i - 1);
  }

  lemma TooShort(p: string, t: string)
    requires |t| < |p|
    ensures !Occurs(p, t)
  {
  }

  /** A pass that puts in none of these characters for a pattern that has some leaves fewer of them,
      as soon as it does anything. */
  lemma {:induction false} CharsFall(t: string, p: string, v: string, c: char)
    requires c in p && c !in v
    ensures Chars(Replace(t, p, v), c) <= Chars(t, c)
    ensures Occurs(p, t) ==> Chars(Replace(t, p, v), c) < Chars(t, c)
    decreases |t|
  {
    CharsNone(p, c);
    CharsNone(v, c);
    if |t| < |p| {
      TooShort(p, t);
    } else if p <= t {
      CharsFall(t[|p|..], p, v, c);
      CharsJoin(p, t[|p|..], c);
      assert t == p + t[|p|..];
      CharsJoin(v, Replace(t[|p|..], p, v), c);
    } else {
      CharsFall(t[1..], p, v, c);
      CharsJoin([t[0]], Replace(t[1..], p, v), c);
      CharsJoin([t[0]], t[1..], c);
      assert t == [t[0]] + t[1..];
      if Occurs(p, t) { OccursLater(p, t); }
    }
  }

  /** The other way round: some are put in, and none taken out. */
  lemma {:induction false} CharsRise(t: string, p: string, v: string, c: char)
    requires p != "" && c !in p
    ensures Chars(Replace(t, p, v), c) >= Chars(t, c)
    ensures Occurs(p, t) && c in v ==> Chars(Replace(t, p, v), c) > Chars(t, c)
    decreases |t|
  {
    CharsNone(p, c);
    CharsNone(v, c);
    if |t| < |p| {
      TooShort(p, t);
    } else if p <= t {
      CharsRise(t[|p|..], p, v, c);
      CharsJoin(p, t[|p|..], c);
      assert t == p + t[|p|..];
      CharsJoin(v, Replace(t[|p|..], p, v), c);
    } else {
      CharsRise(t[1..], p, v, c);
      CharsJoin([t[0]], Replace(t[1..], p, v), c);
      CharsJoin([t[0]], t[1..], c);
      assert t == [t[0]] + t[1..];
      if Occurs(p, t) { OccursLater(p, t); }
    }
  }

  lemma TokenHasNot(n: string, c: char)
    requires Name(n) && !TokenChar(c)
    ensures c !in Token(n)
  {
    if c in Token(n) { TokenChars(n, c); }
  }

  lemma TokenHasAts(n: string)
    ensures '@' in Token(n)
  {
    assert Token(n)[0] == '@';
  }

  ghost predicate NoAts(fs: seq<Filling>) {
    forall i :: 0 <= i < |fs| ==> '@' !in fs[i].value
  }

  /** Passes whose values have no `@` leave fewer of them, as soon as one of them does anything. */
  lemma {:induction false} FillFall(t: string, fs: seq<Filling>)
    requires NoAts(fs)
    ensures Chars(Fill(t, fs), '@') <= Chars(t, '@')
    ensures !FreeOf(t, fs) ==> Chars(Fill(t, fs), '@') < Chars(t, '@')
    decreases |fs|
  {
    if fs != [] {
      var n, next := fs[0].name, Replace(t, Token(fs[0].name), fs[0].value);
      TokenHasAts(n);
      CharsFall(t, Token(n), fs[0].value, '@');
      assert forall i :: 0 <= i < |fs[1..]| ==> fs[1..][i] == fs[i + 1];
      FillFall(next, fs[1..]);
      if !Occurs(Token(n), t) {
        ReplaceNothing(t, Token(n), fs[0].value);
        FreeTail(t, fs);
      }
    }
  }

  lemma FreeTail(t: string, fs: seq<Filling>)
    requires fs != [] && !Occurs(Token(fs[0].name), t)
    ensures FreeOf(t, fs) <==> FreeOf(t, fs[1..])
  {
    assert forall i :: 0 <= i < |fs[1..]| ==> fs[1..][i] == fs[i + 1];
    assert forall i :: 1 <= i < |fs| ==> fs[i] == fs[1..][i - 1];
  }

  lemma {:induction false} FillRise(t: string, fs: seq<Filling>, c: char)
    requires AllNamed(fs) && !TokenChar(c)
    ensures Chars(Fill(t, fs), c) >= Chars(t, c)
    decreases |fs|
  {
    if fs != [] {
      TokenHasNot(fs[0].name, c);
      CharsRise(t, Token(fs[0].name), fs[0].value, c);
      assert AllNamed(fs[1..]);
      FillRise(Replace(t, Token(fs[0].name), fs[0].value), fs[1..], c);
    }
  }

  lemma {:induction false} FillInit(t: string, fs: seq<Filling>)
    requires fs != []
    ensures Fill(t, fs) == Replace(Fill(t, DropLast(fs)), Token(Last(fs).name), Last(fs).value)
    decreases |fs|
  {
    if |fs| > 1 {
      assert DropLast(fs)[1..] == DropLast(fs[1..]);
      FillInit(Replace(t, Token(fs[0].name), fs[0].value), fs[1..]);
    } else {
      assert fs[1..] == [] && DropLast(fs) == [];
    }
  }

  /** Whether several passes change a text: if all values but the last have no `@`, and the last has none
      either or has a character that no token has, then exactly if the text holds any of the tokens. */
  lemma PassesShow(t: string, fs: seq<Filling>, c: char)
    requires fs != [] && AllNamed(fs) && NoAts(DropLast(fs)) && !TokenChar(c)
    requires '@' !in Last(fs).value || c in Last(fs).value
    ensures Fill(t, fs) == t <==> FreeOf(t, fs)
  {
    var init, last := DropLast(fs), Last(fs);
    if FreeOf(t, fs) {
      FillNothing(t, fs);
    } else if '@' !in last.value {
      assert NoAts(fs) by {
        assert forall i :: 0 <= i < |init| ==> init[i] == fs[i];
      }
      FillFall(t, fs);
    } else {
      LastPassShows(t, fs, c);
    }
  }

  lemma LastPassShows(t: string, fs: seq<Filling>, c: char)
    requires fs != [] && AllNamed(fs) && NoAts(DropLast(fs)) && !TokenChar(c)
    requires c in Last(fs).value && !FreeOf(t, fs)
    ensures Fill(t, fs) != t
  {
    var init, last := DropLast(fs), Last(fs);
    var before := Fill(t, init);
    FillInit(t, fs);
    assert AllNamed(init) by {
      assert forall i :: 0 <= i < |init| ==> init[i] == fs[i];
    }
    FillRise(t, init, c);
    if Occurs(Token(last.name), before) {
      TokenHasNot(last.name, c);
      CharsRise(before, Token(last.name), last.value, c);
    } else {
      ReplaceNothing(before, Token(last.name), last.value);
      if FreeOf(t, init) { FillNothing(t, init); } else { FillFall(t, init); }
    }
  }

  /** If only one value holds later tokens, and the values filled after it are such: the sequential filling
      is the simultaneous substitution if and only if that value holds none of the later tokens. */
  lemma AnyDecides(
      literals: seq<string>, holes: seq<string>, names: seq<string>, values: seq<string>, c: nat, other: char)
    requires TokenNames(names) && |names| == |values| && Template(literals, holes) && SameNames(holes, names)
    requires c + 1 < |names| && FreeBut(names, values, c) && !TokenChar(other)
    requires forall j :: c < j < |names| - 1 ==> '@' !in values[j]
    requires '@' !in Last(values) || other in Last(values)
    ensures AtOnce(literals, holes, names, values) <==> FreeFrom(names, values[c], c + 1)
  {
    assert names[c] in holes;
    var k :| 0 <= k < |holes| && holes[k] == names[c];
    PairedNames(names, values);
    PairedCovers(names, values, holes);
    PairedClean(names, values, c);
    OneDirtyHole(literals, holes, Paired(names, values), c, k);
    LaterPasses(names, values, c, other);
  }

  lemma LaterPasses(names: seq<string>, values: seq<string>, c: nat, other: char)
    requires TokenNames(names) && |names| == |values| && c + 1 < |names| && !TokenChar(other)
    requires forall j :: c < j < |names| - 1 ==> '@' !in values[j]
    requires '@' !in Last(values) || other in Last(values)
    ensures Fill(values[c], Paired(names, values)[c + 1..]) == values[c] <==> FreeFrom(names, values[c], c + 1)
  {
    var later := Paired(names, values)[c + 1..];
    assert forall k :: 0 <= k < |later| ==> later[k] == Filling(names[c + 1 + k], values[c + 1 + k]);
    assert NoAts(DropLast(later)) by {
      assert forall k :: 0 <= k < |DropLast(later)| ==> DropLast(later)[k] == later[k];
    }
    assert Last(later).value == Last(values);
    PassesShow(values[c], later, other);
    assert forall j :: c + 1 <= j < |names| ==> names[j] == later[j - c - 1].name;
  }
}
