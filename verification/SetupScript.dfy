/** The NSIS script of an installer: the values that are checked or escaped, and filling them into
    the template. */
module SetupScript {
  import opened Common
  import opened Replacing
  import opened Nsis
  import opened SetupTemplate
  import ClientConfig

  datatype Spec = Spec(
    servers: ClientConfig.Servers,
    version: string,
    arch: string,
    msi: string,
    icon: string,
    outfile: string,
    resetSettings: bool,
    signCommand: string,
    password: string)

  datatype Refusal = BadConfig | BadRelease | PasswordTooLong | PasswordNotPlain

  const MAX_PASSWORD: nat := 512

  // ---- The values -------------------------------------------------------------------

  predicate HostChar(c: char) {
    'A' <= c <= 'Z' || 'a' <= c <= 'z' || '0' <= c <= '9' || c in {'.', '_', ':', '/', '-'}
  }

  function Host(s: string): (r: string)
    ensures forall i :: 0 <= i < |r| ==> HostChar(r[i])
  {
    if s == "" then "" else (if HostChar(s[0]) then [s[0]] else "") + Host(s[1..])
  }

  predicate VersionChar(c: char) {
    'A' <= c <= 'Z' || 'a' <= c <= 'z' || '0' <= c <= '9' || c in {'.', '_', '-'}
  }

  function LineOf(v: string): string {
    if v != "" && v[|v| - 1] == '\n' then v[..|v| - 1] else v
  }

  /** `^[A-Za-z0-9._-]{1,64}$`; the end of the pattern also lets one line break through. */
  predicate VersionPattern(v: string) {
    var core := LineOf(v);
    1 <= |core| <= 64 && forall i :: 0 <= i < |core| ==> VersionChar(core[i])
  }

  predicate PlainText(s: string) {
    forall i :: 0 <= i < |s| ==> ' ' <= s[i] <= '~'
  }

  function IconBlock(icon: string): string {
    if icon == "" then "" else IconLines(Escape(icon))
  }

  /** The line with the icon, for when its file is there. */
  function IconLines(path: string): string {
    "!if /FileExists \"" + (path + ("\"\nIcon \"" + (path + "\"\n!endif\n")))
  }

  function ResetLines(): SolidText {
    Append("    RMDir /r \"$APPDATA\\RustDesk\"\n",
    Append("    RMDir /r \"$LOCALAPPDATA\\rustdesk\"\n",
    Append("    RMDir /r \"",
    Append("$WINDIR\\ServiceProfiles\\LocalService",
    "\\AppData\\Roaming\\RustDesk\"\n"))))
  }

  function ResetBlock(reset: bool): string {
    Given(reset, ResetLines())
  }

  /** A block that stands only if it is asked for. */
  function Given(asked: bool, block: string): string {
    if asked then block else ""
  }

  /** The command line up to the password, inside the quotes of its `ExecWait`. */
  function SetPassword(): (r: string)
    ensures Inert(r, '\'')
  {
    var program := "\"${INSTALL_DIR}\\${EXECUTABLE}\"";
    program + " --password \""
  }

  function PasswordBlock(password: string): string {
    if password == "" then "" else Starts() + PasswordLine(password)
  }

  function Starts(): string {
    "    Sleep 5000\n    ExecWait '"
  }

  function PasswordLine(password: string): string {
    SetPassword() + (Escape(password) + "\"'\n")
  }

  function Finalize(command: string): string {
    if command == "" then "" else "!finalize `" + (Replace(command, "$", "$$") + "`\n")
  }

  /** The tokens in the order in which they are filled in. */
  function Order(): seq<string> {
    ["SERVER", "VERSION", "ARCH", "CONFIG", "FINALIZE", "OUTFILE", "ICON", "MSI", "RESET", "PASSWORD"]
  }

  /** The value of the `i`th of them. */
  function ValueAt(s: Spec, i: nat): string
    requires i < 10
  {
    if i == 0 then Take80(Host(s.servers.idServer))
    else if i == 1 then s.version
    else if i == 2 then s.arch
    else if i == 3 then ClientConfig.ConfigString(s.servers)
    else if i == 4 then Finalize(s.signCommand)
    else if i == 5 then Escape(s.outfile)
    else if i == 6 then IconBlock(s.icon)
    else if i == 7 then Escape(s.msi)
    else if i == 8 then ResetBlock(s.resetSettings)
    else PasswordBlock(s.password)
  }

  function ValuesOf(s: Spec): (values: seq<string>)
    ensures |values| == 10
  {
    seq(10, i => if 0 <= i < 10 then ValueAt(s, i) else "")
  }

  function Replacements(s: Spec): seq<Filling> {
    Paired(Order(), ValuesOf(s))
  }

  function Take80(s: string): (r: string)
    ensures r <= s
  {
    if |s| <= 80 then s else s[..80]
  }

  function Check(s: Spec): Option<Refusal> {
    if !ClientConfig.ConfigPattern(ClientConfig.ConfigString(s.servers)) then Some(BadConfig)
    else if s.arch !in {"x64", "arm64"} || !VersionPattern(s.version) then Some(BadRelease)
    else if |s.password| > MAX_PASSWORD then Some(PasswordTooLong)
    else if !PlainText(s.password) then Some(PasswordNotPlain)
    else None
  }

  /** The ten tokens stand once each in a template of the right shape. */
  ghost predicate GoodTemplate(t: Blanks) {
    Template(t.literals, t.names) && SameNames(t.names, Order())
  }

  function Rendered(t: Blanks, s: Spec): string
    requires |t.literals| == |t.names| + 1
  {
    Fill(Weave(t.literals, Tokens(t.names)), Replacements(s))
  }

  method RenderNsi(t: Blanks, s: Spec) returns (r: Result<string, Refusal>)
    requires |t.literals| == |t.names| + 1
    ensures match Check(s) case Some(e) => r == Err(e) case None => r == Ok(Rendered(t, s))
  {
    var problem := Check(s);
    if problem.Some? { return Err(problem.value); }
    var text := FillTokens(Weave(t.literals, Tokens(t.names)), Replacements(s));
    return Ok(text);
  }

  // ---- Which values hold a token ---------------------------------------------------------------

  /** The paths hold no token that is filled after them. */
  ghost predicate CleanPaths(s: Spec) {
    FreeFrom(Order(), s.outfile, 6) && FreeFrom(Order(), s.icon, 7) && FreeFrom(Order(), s.msi, 8)
  }

  /** What a caller can see to: neither does the signing command. There is no condition on the
      password, which is filled in last, or on any other setting. */
  ghost predicate CleanSpec(s: Spec) {
    CleanPaths(s) && FreeFrom(Order(), s.signCommand, 5)
  }

  lemma NoAtFree(t: string, n: string)
    requires '@' !in t
    ensures !Occurs(Token(n), t)
  {
    if Occurs(Token(n), t) { TokenHasAt(n, t); }
  }

  lemma OccursWhere(a: string, b: string, p: string)
    requires p != "" && Seam(a, b, p) && Occurs(p, a + b)
    ensures Occurs(p, a) || Occurs(p, b)
  {
    var i :| StartsAt(p, a + b, i);
    if i >= |a| {
      StartsBeyond(a, b, p, i);
    } else {
      var rest := a[i..];
      assert (a + b)[i..] == rest + b;
      assert rest[|rest| - 1] == a[|a| - 1];
      NoReachOver(rest, b, p);
      assert StartsAt(p, a, i);
    }
  }

  lemma OccursSplit(a: string, b: string, p: string)
    requires p != "" && Seam(a, b, p) && !Occurs(p, a) && !Occurs(p, b)
    ensures !Occurs(p, a + b)
  {
    if Occurs(p, a + b) { OccursWhere(a, b, p); }
  }

  /** Script text before and after a value makes no token with it. */
  lemma Between(l: string, x: string, r: string, n: string)
    requires Solid(l) && r != "" && !TokenChar(r[0]) && !Occurs(Token(n), r) && Name(n) && !Occurs(Token(n), x)
    ensures !Occurs(Token(n), l + (x + r))
  {
    SolidSeams(l, n, "", x + r);
    if r[0] in Token(n) { TokenChars(n, r[0]); }
    OccursSplit(x, r, Token(n));
    NoAtFree(l, n);
    OccursSplit(l, x + r, Token(n));
  }

  lemma FinalizeFree(command: string, n: string)
    requires Name(n) && !Occurs(Token(n), command)
    ensures !Occurs(Token(n), Finalize(command))
  {
    NoAtFree("", n);
    DoubleOccurs(n, command);
    NoAtFree("`\n", n);
    Between("!finalize `", Replace(command, "$", "$$"), "`\n", n);
  }

  lemma IconFree(icon: string, n: string)
    requires Name(n) && !Occurs(Token(n), icon)
    ensures !Occurs(Token(n), IconBlock(icon))
  {
    NoAtFree("", n);
    EscapeOccurs(n, icon);
    NoAtFree("\"\n!endif\n", n);
    Between("\"\nIcon \"", Escape(icon), "\"\n!endif\n", n);
    Between("!if /FileExists \"", Escape(icon), "\"\nIcon \"" + (Escape(icon) + "\"\n!endif\n"), n);
  }

  lemma ConfigNoAt(c: string)
    requires ClientConfig.ConfigPattern(c)
    ensures '@' !in c
  {
    assert forall i :: 0 <= i < |c| ==> c[i] == '\n' || ClientConfig.ConfigChar(c[i]);
  }

  lemma VersionNoAt(v: string)
    requires VersionPattern(v)
    ensures '@' !in v
  {
    assert forall i :: 0 <= i < |v| ==> v[i] == '\n' || VersionChar(v[i]);
  }

  lemma HostNoAt(h: string)
    ensures '@' !in Take80(Host(h))
  {
    assert forall i :: 0 <= i < |Host(h)| ==> HostChar(Host(h)[i]);
  }

  lemma OrderDistinct()
    ensures Distinct(Order())
  {
    var order, initials := Order(), "SVACFOIMRP";
    assert forall k :: 0 <= k < 10 ==> order[k][0] == initials[k];
    InitialsDiffer(initials);
    DifferentInitials(order, initials);
  }

  lemma DifferentInitials(words: seq<string>, initials: string)
    requires |words| == |initials| && forall k :: 0 <= k < |words| ==> words[k] != "" && words[k][0] == initials[k]
    requires forall i, j :: 0 <= i < j < |initials| ==> initials[i] != initials[j]
    ensures Distinct(words)
  {
    forall i, j | 0 <= i < j < |words| ensures words[i] != words[j] {
      assert words[i][0] != words[j][0];
    }
  }

  lemma OrderIsNames()
    ensures forall k :: 0 <= k < 10 ==> Name(Order()[k])
  {
  }

  lemma OrderNames()
    ensures TokenNames(Order())
  {
    OrderDistinct();
    OrderIsNames();
  }

  lemma InitialsDiffer(s: string)
    requires s == "SVACFOIMRP"
    ensures forall i, j :: 0 <= i < j < 10 ==> s[i] != s[j]
  {
  }

  lemma ServerSafe(s: Spec, n: string)
    ensures !Occurs(Token(n), ValueAt(s, 0))
  {
    HostNoAt(s.servers.idServer);
    NoAtFree(Take80(Host(s.servers.idServer)), n);
  }

  lemma VersionSafe(s: Spec, n: string)
    requires Check(s).None?
    ensures !Occurs(Token(n), ValueAt(s, 1)) && !Occurs(Token(n), ValueAt(s, 2))
  {
    VersionAt(s);
    ArchAt(s);
    VersionNoAt(s.version);
    NoAtFree(s.version, n);
    NoAtFree(s.arch, n);
  }

  lemma ConfigSafe(s: Spec, n: string)
    requires Check(s).None?
    ensures !Occurs(Token(n), ValueAt(s, 3))
  {
    ConfigAt(s);
    ConfigNoAt(ClientConfig.ConfigString(s.servers));
    NoAtFree(ClientConfig.ConfigString(s.servers), n);
  }

  lemma ResetNoAt(reset: bool)
    ensures '@' !in ResetBlock(reset)
  {
  }

  lemma ResetSafe(s: Spec, n: string)
    ensures !Occurs(Token(n), ValueAt(s, 8))
  {
    ResetIs(s);
    ResetNoAt(s.resetSettings);
    NoAtFree(ResetBlock(s.resetSettings), n);
  }

  lemma ResetIs(s: Spec)
    ensures ValueAt(s, 8) == ResetBlock(s.resetSettings)
  {
  }

  /** The values that a caller has no say in hold no token at all. */
  lemma SafeFree(names: seq<string>, s: Spec)
    requires Check(s).None?
    ensures FreeFrom(names, ValueAt(s, 0), 1) && FreeFrom(names, ValueAt(s, 1), 2) && FreeFrom(names, ValueAt(s, 2), 3)
    ensures FreeFrom(names, ValueAt(s, 3), 4) && FreeFrom(names, ValueAt(s, 8), 9)
  {
    forall n: string
      ensures !Occurs(Token(n), ValueAt(s, 0)) && !Occurs(Token(n), ValueAt(s, 1)) && !Occurs(Token(n), ValueAt(s, 2))
      ensures !Occurs(Token(n), ValueAt(s, 3)) && !Occurs(Token(n), ValueAt(s, 8))
    {
      ServerSafe(s, n);
      VersionSafe(s, n);
      ConfigSafe(s, n);
      ResetSafe(s, n);
    }
  }

  /** The paths hold none of the tokens filled after them. */
  lemma PathFree(names: seq<string>, s: Spec)
    requires TokenNames(names)
    requires FreeFrom(names, s.outfile, 6) && FreeFrom(names, s.icon, 7) && FreeFrom(names, s.msi, 8)
    ensures FreeFrom(names, ValueAt(s, 5), 6) && FreeFrom(names, ValueAt(s, 6), 7) && FreeFrom(names, ValueAt(s, 7), 8)
  {
    OutfileAt(s);
    IconAt(s);
    MsiAt(s);
    forall j | 6 <= j < |names| ensures !Occurs(Token(names[j]), Escape(s.outfile)) {
      EscapeOccurs(names[j], s.outfile);
    }
    forall j | 7 <= j < |names| ensures !Occurs(Token(names[j]), IconBlock(s.icon)) { IconFree(s.icon, names[j]); }
    forall j | 8 <= j < |names| ensures !Occurs(Token(names[j]), Escape(s.msi)) { EscapeOccurs(names[j], s.msi); }
  }

  lemma CommandFree(names: seq<string>, s: Spec)
    requires TokenNames(names) && FreeFrom(names, s.signCommand, 5)
    ensures FreeFrom(names, ValueAt(s, 4), 5)
  {
    CommandAt(s);
    forall j | 5 <= j < |names| ensures !Occurs(Token(names[j]), Finalize(s.signCommand)) {
      FinalizeFree(s.signCommand, names[j]);
    }
  }

  /** One by one for ten names. */
  lemma TenFree(names: seq<string>, values: seq<string>)
    requires |names| == |values| == 10
    requires FreeFrom(names, values[0], 1) && FreeFrom(names, values[1], 2) && FreeFrom(names, values[2], 3)
    requires FreeFrom(names, values[3], 4) && FreeFrom(names, values[5], 6) && FreeFrom(names, values[6], 7)
    requires FreeFrom(names, values[7], 8) && FreeFrom(names, values[8], 9)
    ensures FreeBut(names, values, 4)
    ensures FreeFrom(names, values[4], 5) ==> FreeBut(names, values, 10)
  {
  }

  lemma ValuesAre(s: Spec)
    ensures forall i :: 0 <= i < 10 ==> ValuesOf(s)[i] == ValueAt(s, i)
  {
  }

  /** The caller's paths in place, only the signing command's value can hold a later token. */
  lemma PathsFree(names: seq<string>, s: Spec)
    requires TokenNames(names) && |names| == 10 && Check(s).None?
    requires FreeFrom(names, s.outfile, 6) && FreeFrom(names, s.icon, 7) && FreeFrom(names, s.msi, 8)
    ensures FreeBut(names, ValuesOf(s), 4)
    ensures FreeFrom(names, s.signCommand, 5) ==> FreeBut(names, ValuesOf(s), 10)
  {
    SafeFree(names, s);
    PathFree(names, s);
    if FreeFrom(names, s.signCommand, 5) { CommandFree(names, s); }
    ValuesAre(s);
    TenFree(names, ValuesOf(s));
  }

  /** One simultaneous substitution of all ten values. */
  function Substituted(t: Blanks, s: Spec): string
    requires |t.literals| == |t.names| + 1
  {
    Weave(t.literals, Values(t.names, Replacements(s)))
  }

  /** Main result: for every password, and all paths and signing commands without a later token,
      the script is the template with each value in its own place. */
  lemma RenderedIsSubstituted(t: Blanks, s: Spec)
    requires GoodTemplate(t) && Check(s).None? && CleanSpec(s)
    ensures Rendered(t, s) == Substituted(t, s)
  {
    OrderNames();
    PathsFree(Order(), s);
    CleanFill(t.literals, t.names, Order(), ValuesOf(s));
    RenderedAtOnce(t, s);
  }

  /** The password's line: the reader of the `ExecWait` string gets the command with exactly this
      password in it, and the string ends with the line. */
  lemma PasswordReads(password: string)
    ensures ReadQuoted('\'', SetPassword() + (Escape(password) + "\"'\n"))
         == Some(Span(SetPassword() + (password + "\""), "\n"))
  {
    var end := "\"'\n";
    ReadInert('\'', SetPassword(), Escape(password) + end);
    ReadEscaped('\'', password, end);
    assert end[1..][1..] == "\n";
    assert end[1..] == "'\n" && ['"'] + "" == "\"";
    assert ReadQuoted('\'', "'\n") == Some(Span("", "\n"));
    assert ReadQuoted('\'', end) == Some(Span("\"", "\n"));
    PutAllText(password, Span("\"", "\n"));
    PutAllText(SetPassword(), Span(password + "\"", "\n"));
  }

  // ---- A token in the signing command ------------------------------------------------------------

  lemma FinalizeHas(command: string, n: string)
    requires Name(n) && Occurs(Token(n), command)
    ensures Occurs(Token(n), Finalize(command))
  {
    DoubleKeeps(n, command);
    assert command != "" by { if command == "" { NoAtFree("", n); } }
    var d := Replace(command, "$", "$$");
    var i :| StartsAt(Token(n), d, i);
    assert Finalize(command)[|"!finalize `"| + i..] == d[i..] + "`\n";
    assert StartsAt(Token(n), Finalize(command), |"!finalize `"| + i);
  }

  /** The signing command holds none of the tokens filled after it, but for the last. */
  ghost predicate FreeButLast(names: seq<string>, command: string) {
    forall j :: 5 <= j < |names| - 1 ==> !Occurs(Token(names[j]), command)
  }

  lemma BlockIsNoToken(password: string, n: string)
    ensures PasswordBlock(password) != Token(n)
  {
    CharOfToken(n, 0);
    if password != "" { assert PasswordBlock(password)[0] == ' '; }
  }

  lemma FinalizeHasIff(command: string, n: string)
    requires Name(n)
    ensures Occurs(Token(n), Finalize(command)) <==> Occurs(Token(n), command)
  {
    if Occurs(Token(n), command) { FinalizeHas(command, n); } else { FinalizeFree(command, n); }
  }

  /** With clean paths, and a signing command that holds no later token but the last: the sequential
      filling is the simultaneous one if and only if the command does not hold the last token. */
  lemma CommandDecides(names: seq<string>, t: Blanks, values: seq<string>, command: string, password: string)
    requires TokenNames(names) && |names| == |values| == 10
    requires Template(t.literals, t.names) && SameNames(t.names, names)
    requires Suits(names, values, command, password) && FreeButLast(names, command)
    ensures AtOnce(t.literals, t.names, names, values) <==> !Occurs(Token(names[9]), command)
  {
    forall j | 4 < j < 10 ensures Occurs(Token(names[j]), values[4]) <==> Occurs(Token(names[j]), command) {
      FinalizeHasIff(command, names[j]);
    }
    BlockIsNoToken(password, names[9]);
    LastDecides(t.literals, t.names, names, values, 4);
  }

  /** Each token's value, with the later passes over it, in its own place. */
  function Passed(t: Blanks, s: Spec): string
    requires |t.literals| == |t.names| + 1
  {
    Weave(t.literals, FilledValues(t.names, Replacements(s)))
  }

  /** Whatever the paths and the command hold, each hole ends up with its own value, over which the
      later passes have gone. */
  lemma RenderedAlways(t: Blanks, s: Spec)
    requires GoodTemplate(t)
    ensures Rendered(t, s) == Passed(t, s)
  {
    OrderNames();
    PairedNames(Order(), ValuesOf(s));
    SequentialFill(t.literals, t.names, Replacements(s));
  }

  /** Where the command and the password stand among the values. */
  lemma CommandAndPassword(s: Spec)
    ensures ValuesOf(s)[4] == Finalize(s.signCommand) && ValuesOf(s)[9] == PasswordBlock(s.password)
  {
    CommandAt(s);
    PasswordAt(s);
  }

  lemma RenderedAtOnce(t: Blanks, s: Spec)
    requires GoodTemplate(t)
    ensures Rendered(t, s) == Substituted(t, s) <==> AtOnce(t.literals, t.names, Order(), ValuesOf(s))
  {
  }

  lemma LastIsPassword()
    ensures Order()[9] == "PASSWORD"
  {
  }

  /** Where a later token does matter, it shows: with clean paths and a signing command free of the
      tokens up to RESET, the script is the simultaneous substitution if and only if the command
      does not hold the password's token. */
  lemma PasswordTokenInCommand(t: Blanks, s: Spec)
    requires GoodTemplate(t) && Check(s).None? && CleanPaths(s) && FreeButLast(Order(), s.signCommand)
    ensures Rendered(t, s) == Substituted(t, s) <==> !Occurs(Token("PASSWORD"), s.signCommand)
  {
    OrderNames();
    LastIsPassword();
    SpecSuits(Order(), s);
    CommandDecides(Order(), t, ValuesOf(s), s.signCommand, s.password);
    RenderedAtOnce(t, s);
  }

  // ---- What each hole holds, told from the settings -----------------------------------------------

  /** The value that goes into the hole of this name. */
  function Hole(s: Spec, name: string): string {
    ValueOf(name, Replacements(s))
  }

  lemma HoleAt(s: Spec, i: nat)
    requires i < 10
    ensures Hole(s, Order()[i]) == ValueAt(s, i)
  {
    OrderNames();
    PairedNames(Order(), ValuesOf(s));
    FilledAt(Replacements(s), i);
  }

  /** An ASCII letter or digit, by its number. */
  predicate Alphanumeric(c: char) {
    var n := c as int;
    48 <= n < 58 || 65 <= n < 91 || 97 <= n < 123
  }

  /** The characters of a host name, a port and a path. */
  predicate OfHost(c: char) {
    Alphanumeric(c) || c == '.' || c == '_' || c == ':' || c == '/' || c == '-'
  }

  /** The server's name is cut to 80 of the characters a host can have; one that has no others and is no
      longer stands as it is. */
  lemma ServerHole(s: Spec)
    ensures var v, name := Hole(s, "SERVER"), s.servers.idServer;
            && |v| <= 80 && (forall i :: 0 <= i < |v| ==> OfHost(v[i]))
            && (|name| <= 80 && (forall i :: 0 <= i < |name| ==> OfHost(name[i])) ==> v == name)
  {
    forall c ensures HostChar(c) <==> OfHost(c) {}
    HoleAt(s, 0);
    assert Order()[0] == "SERVER";
    if forall i :: 0 <= i < |s.servers.idServer| ==> HostChar(s.servers.idServer[i]) { HostFixed(s.servers.idServer); }
  }

  /** Every other character is left out, wherever it stands, and nothing else. */
  lemma HostKeeps(a: string, c: char, b: string)
    ensures Host(a + ([c] + b)) == Host(a) + ((if OfHost(c) then [c] else "") + Host(b))
  {
    HostJoin(a, [c] + b);
    assert ([c] + b)[0] == c && ([c] + b)[1..] == b;
  }

  lemma {:induction false} HostJoin(a: string, b: string)
    ensures Host(a + b) == Host(a) + Host(b)
  {
    if a == "" {
      assert a + b == b;
    } else {
      assert (a + b)[1..] == a[1..] + b && (a + b)[0] == a[0];
      HostJoin(a[1..], b);
      Assoc(if HostChar(a[0]) then [a[0]] else "", Host(a[1..]), Host(b));
    }
  }

  lemma {:induction false} HostFixed(t: string)
    requires forall i :: 0 <= i < |t| ==> HostChar(t[i])
    ensures Host(t) == t
  {
    if t != "" {
      HostFixed(t[1..]);
      assert t == [t[0]] + t[1..];
    }
  }

  lemma VersionAt(s: Spec)
    ensures Order()[1] == "VERSION" && ValueAt(s, 1) == s.version
  {
  }

  lemma ArchAt(s: Spec)
    ensures Order()[2] == "ARCH" && ValueAt(s, 2) == s.arch
  {
  }

  lemma ConfigAt(s: Spec)
    ensures Order()[3] == "CONFIG" && ValueAt(s, 3) == ClientConfig.ConfigString(s.servers)
  {
  }

  lemma CommandAt(s: Spec)
    ensures Order()[4] == "FINALIZE" && ValueAt(s, 4) == Finalize(s.signCommand)
  {
  }

  lemma OutfileAt(s: Spec)
    ensures Order()[5] == "OUTFILE" && ValueAt(s, 5) == Escape(s.outfile)
  {
  }

  lemma IconAt(s: Spec)
    ensures Order()[6] == "ICON" && ValueAt(s, 6) == IconBlock(s.icon)
  {
  }

  lemma MsiAt(s: Spec)
    ensures Order()[7] == "MSI" && ValueAt(s, 7) == Escape(s.msi)
  {
  }

  lemma ResetAt(s: Spec)
    ensures Order()[8] == "RESET" && (ValueAt(s, 8) == "" <==> !s.resetSettings)
  {
  }

  lemma PasswordAt(s: Spec)
    ensures Order()[9] == "PASSWORD" && ValueAt(s, 9) == PasswordBlock(s.password)
  {
  }

  /** The config string reads back as the four settings. */
  lemma ConfigReads(servers: ClientConfig.Servers)
    ensures ClientConfig.DecodeConfigString(ClientConfig.ConfigString(servers)) ==
            Some(map["host" := servers.idServer, "relay" := servers.relayServer,
                     "api" := servers.apiServer, "key" := servers.key])
  {
    var config := ClientConfig.ConfigString(servers);
    ClientConfig.ConfigRoundTrip(servers, "", "", false);
    assert "" + config + "" == config;
  }

  /** Version and architecture stand as they are. */
  lemma PlainHoles(s: Spec)
    ensures Hole(s, "VERSION") == s.version && Hole(s, "ARCH") == s.arch
  {
    HoleAt(s, 1);
    HoleAt(s, 2);
    VersionAt(s);
    ArchAt(s);
  }

  lemma ConfigHole(s: Spec)
    ensures ClientConfig.DecodeConfigString(Hole(s, "CONFIG")) ==
            Some(map["host" := s.servers.idServer, "relay" := s.servers.relayServer,
                     "api" := s.servers.apiServer, "key" := s.servers.key])
  {
    HoleAt(s, 3);
    ConfigAt(s);
    ConfigReads(s.servers);
  }

  /** The signing command stands between backquotes with its dollars doubled, on a line of its own. */
  lemma CommandHole(s: Spec)
    ensures s.signCommand == "" ==> Hole(s, "FINALIZE") == ""
    ensures s.signCommand != "" ==>
              exists w :: Hole(s, "FINALIZE") == "!finalize `" + (w + "`\n") && Undouble(w) == s.signCommand
  {
    HoleAt(s, 4);
    CommandAt(s);
    UndoubleDouble(s.signCommand);
  }

  /** The paths stand escaped, each in its own hole. */
  lemma PathHoles(s: Spec)
    ensures Unescape(Hole(s, "OUTFILE")) == s.outfile && Unescape(Hole(s, "MSI")) == s.msi
  {
    HoleAt(s, 5);
    HoleAt(s, 7);
    OutfileAt(s);
    MsiAt(s);
    UnescapeEscape(s.outfile);
    UnescapeEscape(s.msi);
  }

  /** The icon is used if there is one, and only if its file is there. */
  lemma IconHole(s: Spec)
    ensures s.icon == "" ==> Hole(s, "ICON") == ""
    ensures s.icon != "" ==>
              exists e :: Unescape(e) == s.icon && Hole(s, "ICON") == IconLines(e)
  {
    HoleAt(s, 6);
    IconAt(s);
    UnescapeEscape(s.icon);
  }

  /** The settings are removed if that is asked for. */
  lemma ResetHole(s: Spec)
    ensures Hole(s, "RESET") == "" <==> !s.resetSettings
  {
    HoleAt(s, 8);
    ResetAt(s);
  }

  /** The password's line is there if there is a password, and its string reads as the command with this
      password. */
  lemma PasswordHole(s: Spec)
    ensures s.password == "" ==> Hole(s, "PASSWORD") == ""
    ensures s.password != "" ==> exists line :: Hole(s, "PASSWORD") == Starts() + line && Sets(line, s.password)
  {
    HoleAt(s, 9);
    PasswordAt(s);
    LineSets(s.password);
  }

  lemma LineSets(password: string)
    ensures Sets(PasswordLine(password), password)
  {
    PasswordReads(password);
  }

  /** The rest of a line that sets this password. */
  predicate Sets(line: string, password: string) {
    ReadQuoted('\'', line) == Some(Span(SetPassword() + (password + "\""), "\n"))
  }

  /** What is refused, told from the settings: in this order, a configuration of more than 1536 bytes, another
      architecture or version, and a password that is too long or not plain ASCII. */
  lemma RefusedIff(s: Spec)
    ensures Check(s) ==
            if |ClientConfig.AsJson(s.servers)| > 1536 then Some(BadConfig)
            else if (s.arch != "x64" && s.arch != "arm64") || !GoodVersion(s.version) then Some(BadRelease)
            else if |s.password| > 512 then Some(PasswordTooLong)
            else if exists c :: c in s.password && !(0x20 <= c as int <= 0x7E) then Some(PasswordNotPlain)
            else None
  {
    ClientConfig.AcceptedIff(s.servers);
    if PlainText(s.password) {
      forall c | c in s.password ensures 0x20 <= c as int <= 0x7E {
        var i :| 0 <= i < |s.password| && s.password[i] == c;
      }
    } else {
      var i :| 0 <= i < |s.password| && !(' ' <= s.password[i] <= '~');
      assert s.password[i] in s.password;
    }
    VersionIs(s.version);
  }

  /** One to 64 letters, digits, dots, underscores and dashes, with or without a line break behind them. */
  ghost predicate GoodVersion(v: string) {
    exists core :: VersionCore(v, core)
  }

  predicate VersionCore(v: string, core: string) {
    && (v == core || v == core + "\n") && 1 <= |core| <= 64
    && forall i :: 0 <= i < |core| ==>
         Alphanumeric(core[i]) || core[i] == '.' || core[i] == '_' || core[i] == '-'
  }

  lemma VersionIs(v: string)
    ensures VersionPattern(v) <==> GoodVersion(v)
  {
    if VersionPattern(v) {
      assert VersionCore(v, LineOf(v));
    }
    if core :| VersionCore(v, core) {
      assert core[|core| - 1] != '\n';
      if v == core + "\n" { assert v[..|v| - 1] == core; }
    }
  }

  // ---- Any token in the signing command ------------------------------------------------------------

  /** The paths hold no `@`. */
  predicate PlainPaths(s: Spec) {
    '@' !in s.outfile && '@' !in s.icon && '@' !in s.msi
  }

  lemma {:induction false} ReplaceNoAt(t: string, p: string, v: string)
    requires p != "" && '@' !in t && '@' !in v
    ensures '@' !in Replace(t, p, v)
    decreases |t|
  {
    if |t| >= |p| { ReplaceNoAt(t[if p <= t then |p| else 1..], p, v); }
  }

  lemma EscapeNoAt(text: string)
    requires '@' !in text
    ensures '@' !in Escape(text)
  {
    var once := Replace(text, "$", "$$");
    ReplaceNoAt(text, "$", "$$");
    ReplaceNoAt(once, "\"", "$\\\"");
    ReplaceNoAt(Replace(once, "\"", "$\\\""), "'", "$\\'");
  }

  lemma IconNoAt(icon: string)
    requires '@' !in icon
    ensures '@' !in IconBlock(icon)
  {
    EscapeNoAt(icon);
  }

  lemma LaterNoAt(s: Spec, j: nat)
    requires PlainPaths(s) && 4 < j < 9
    ensures '@' !in ValueAt(s, j)
  {
    if j == 5 { EscapeNoAt(s.outfile); }
    else if j == 6 { IconNoAt(s.icon); }
    else if j == 7 { EscapeNoAt(s.msi); }
  }

  lemma PasswordLines(password: string)
    ensures '@' !in PasswordBlock(password) || '\n' in PasswordBlock(password)
  {
    if password != "" {
      assert PasswordBlock(password)[|"    Sleep 5000"|] == '\n';
    }
  }

  lemma PlainPathsFree(names: seq<string>, s: Spec)
    requires PlainPaths(s)
    ensures FreeFrom(names, s.outfile, 6) && FreeFrom(names, s.icon, 7) && FreeFrom(names, s.msi, 8)
  {
    forall n: string ensures !Occurs(Token(n), s.outfile) && !Occurs(Token(n), s.icon) && !Occurs(Token(n), s.msi) {
      NoAtFree(s.outfile, n);
      NoAtFree(s.icon, n);
      NoAtFree(s.msi, n);
    }
  }

  lemma CommandHolds(names: seq<string>, command: string)
    requires TokenNames(names)
    ensures FreeFrom(names, Finalize(command), 5) <==> FreeFrom(names, command, 5)
  {
    forall j | 5 <= j < |names|
      ensures Occurs(Token(names[j]), Finalize(command)) <==> Occurs(Token(names[j]), command)
    {
      FinalizeHasIff(command, names[j]);
    }
  }

  lemma LaterValues(s: Spec)
    requires PlainPaths(s)
    ensures forall j :: 4 < j < 9 ==> '@' !in ValuesOf(s)[j]
  {
    forall j | 4 < j < 9 ensures '@' !in ValuesOf(s)[j] { LaterNoAt(s, j); }
  }

  /** On the values alone. */
  lemma AnyInCommand(names: seq<string>, t: Blanks, values: seq<string>, command: string, password: string)
    requires TokenNames(names) && |names| == |values| == 10
    requires Template(t.literals, t.names) && SameNames(t.names, names)
    requires Suits(names, values, command, password) && forall j :: 4 < j < 9 ==> '@' !in values[j]
    ensures AtOnce(t.literals, t.names, names, values) <==> FreeFrom(names, command, 5)
  {
    PasswordLines(password);
    CommandHolds(names, command);
    AnyDecides(t.literals, t.names, names, values, 4, '\n');
  }

  /** Values of which only the command's can hold a later token. */
  ghost predicate Suits(names: seq<string>, values: seq<string>, command: string, password: string) {
    && |names| == |values| == 10 && values[4] == Finalize(command) && values[9] == PasswordBlock(password)
    && FreeBut(names, values, 4)
  }

  lemma SpecSuits(names: seq<string>, s: Spec)
    requires TokenNames(names) && |names| == 10 && Check(s).None?
    requires FreeFrom(names, s.outfile, 6) && FreeFrom(names, s.icon, 7) && FreeFrom(names, s.msi, 8)
    ensures Suits(names, ValuesOf(s), s.signCommand, s.password)
  {
    PathsFree(names, s);
    CommandAndPassword(s);
  }

  lemma AnyAtOnce(names: seq<string>, t: Blanks, s: Spec)
    requires TokenNames(names) && |names| == 10 && Template(t.literals, t.names) && SameNames(t.names, names)
    requires Check(s).None? && PlainPaths(s)
    ensures AtOnce(t.literals, t.names, names, ValuesOf(s)) <==> FreeFrom(names, s.signCommand, 5)
  {
    PlainPathsFree(names, s);
    SpecSuits(names, s);
    LaterValues(s);
    AnyInCommand(names, t, ValuesOf(s), s.signCommand, s.password);
  }

  /** Main result, exact over all five tokens filled after the signing command: with paths that hold no
      `@`, and for every password, the script is the simultaneous substitution if and only if the command
      holds none of these tokens. */
  lemma TokenInCommand(t: Blanks, s: Spec)
    requires GoodTemplate(t) && Check(s).None? && PlainPaths(s)
    ensures Rendered(t, s) == Substituted(t, s) <==> FreeFrom(Order(), s.signCommand, 5)
  {
    OrderNames();
    AnyAtOnce(Order(), t, s);
    RenderedAtOnce(t, s);
  }

  /** The template the service has is one of these. */
  lemma SetupIsGood()
    ensures GoodTemplate(Setup())
  {
    SetupIsTemplate();
    TokensInScript();
  }

  lemma TokensInScript()
    ensures SameNames(Names(), Order())
  {
  }
}
