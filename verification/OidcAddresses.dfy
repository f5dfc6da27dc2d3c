/** Whom an unknown provider account may sign in, told from the claims, the provider's settings and the
    table of users. */
module OidcAddresses {
  import opened Common
  import opened Text
  import opened OidcIdentities
  import OidcRuns

  // ---- Letters of either case -----------------------------------------------------------------

  /** The same letter, or a capital and its small letter. */
  predicate SmallOf(c: char, d: char) {
    if 'A' <= c <= 'Z' then (d as int) == (c as int) + 32 else d == c
  }

  ghost predicate InSmall(s: string, t: string) {
    |s| == |t| && forall i :: 0 <= i < |s| ==> SmallOf(s[i], t[i])
  }

  predicate SameLetter(c: char, d: char) {
    c == d || ('A' <= c <= 'Z' && SmallOf(c, d)) || ('A' <= d <= 'Z' && SmallOf(d, c))
  }

  /** Two texts that differ in nothing but capitals. */
  ghost predicate CaseAside(s: string, t: string) {
    |s| == |t| && forall i :: 0 <= i < |s| ==> SameLetter(s[i], t[i])
  }

  lemma LowerIsSmall(s: string, t: string)
    ensures InSmall(s, t) <==> Lower(s) == t
  {
    if InSmall(s, t) {
      forall i | 0 <= i < |s| ensures Lower(s)[i] == t[i] { assert SmallOf(s[i], t[i]); }
    }
  }

  lemma LowerLetter(c: char, d: char)
    ensures LowerChar(c) == LowerChar(d) <==> SameLetter(c, d)
  {
  }

  lemma LowerIsCaseAside(s: string, t: string)
    ensures Lower(s) == Lower(t) <==> CaseAside(s, t)
  {
    if |s| == |t| {
      forall i | 0 <= i < |s| ensures Lower(s)[i] == Lower(t)[i] <==> SameLetter(s[i], t[i]) {
        LowerLetter(s[i], t[i]);
      }
    }
  }

  // ---- The address and its domain ----------------------------------------------------------------

  /** The claimed address, verified by the provider. */
  ghost predicate Verified(claims: Claims, address: string) {
    && claims.emailVerified && claims.email.Some?
    && '@' in claims.email.value && |claims.email.value| <= 255 && IsCore(claims.email.value, address)
  }

  /** What stands behind the last `@`. */
  ghost predicate DomainOf(address: string, domain: string) {
    exists i :: 0 <= i < |address| && address[i] == '@' && domain == address[i + 1..] && '@' !in domain
  }

  ghost predicate MayEnter(p: Provider, address: string) {
    || p.allowedDomains == {}
    || exists domain, allowed ::
         DomainOf(address, domain) && InSmall(domain, allowed) && allowed in p.allowedDomains
  }

  ghost predicate HasAddress(db: Db, user: nat, address: string) {
    user in db.users && db.users[user].email.Some? && CaseAside(db.users[user].email.value, address)
  }

  /** The one user with this address, who has no identity of this provider yet. */
  ghost predicate LinksTo(db: Db, p: Provider, address: string, user: nat) {
    && p.linkByEmail && HasAddress(db, user, address)
    && (forall other :: HasAddress(db, other, address) ==> other == user)
    && forall i :: i in db.identities && db.identities[i].user == user ==> db.identities[i].issuer != p.issuer
  }

  ghost predicate MakesUser(db: Db, p: Provider, address: string) {
    p.autoCreate && forall user :: !HasAddress(db, user, address)
  }

  // ---- Proofs --------------------------------------------------------------------------------------

  lemma VerifiedIsEmail(claims: Claims, address: string)
    ensures Verified(claims, address) <==> EmailOf(claims) == Some(address)
  {
    if claims.email.Some? {
      TrimIsCore(claims.email.value);
      if IsCore(claims.email.value, address) { CoreIsTrim(claims.email.value, address); }
    }
  }

  lemma {:induction false} LastAt(s: string) returns (i: nat)
    requires '@' in s
    ensures i < |s| && s[i] == '@' && AfterLast(s, '@') == s[i + 1..] && '@' !in s[i + 1..]
    decreases |s|
  {
    i := IndexOf(s, '@');
    var rest := s[i + 1..];
    if '@' in rest {
      var j := LastAt(rest);
      assert rest[j] == s[i + 1 + j] && rest[j + 1..] == s[i + 1 + j + 1..];
      i := i + 1 + j;
    }
  }

  lemma CharBehind(s: string, i: int, j: int)
    requires 0 <= i < j < |s|
    ensures s[j] in s[i + 1..]
  {
    assert s[i + 1..][j - i - 1] == s[j];
  }

  lemma DomainIs(address: string, domain: string)
    requires '@' in address
    ensures DomainOf(address, domain) <==> AfterLast(address, '@') == domain
  {
    var i := LastAt(address);
    if j: nat :| j < |address| && address[j] == '@' && domain == address[j + 1..] && '@' !in domain {
      if j < i { CharBehind(address, j, i); }
      if i < j { CharBehind(address, i, j); }
    }
  }

  lemma CoreHasAt(s: string, core: string)
    requires IsCore(s, core) && '@' in s
    ensures '@' in core
  {
    var i, j :| CoreAt(s, core, i, j);
    var k :| 0 <= k < |s| && s[k] == '@';
    assert core[k - i] == '@';
  }

  lemma EnterIsAllowed(p: Provider, address: string)
    requires '@' in address
    ensures MayEnter(p, address) <==> DomainAllowed(p, address)
  {
    var domain := AfterLast(address, '@');
    DomainIs(address, domain);
    LowerIsSmall(domain, Lower(domain));
    if p.allowedDomains != {} && MayEnter(p, address) {
      var d, allowed :| DomainOf(address, d) && InSmall(d, allowed) && allowed in p.allowedDomains;
      DomainIs(address, d);
      LowerIsSmall(d, allowed);
    }
  }

  lemma AddressIsEmail(db: Db, address: string)
    ensures forall user: nat :: HasAddress(db, user, address) <==> user in UsersWithEmail(db, address)
  {
    forall user: nat ensures HasAddress(db, user, address) <==> user in UsersWithEmail(db, address) {
      if user in db.users && db.users[user].email.Some? { LowerIsCaseAside(db.users[user].email.value, address); }
    }
  }

  lemma OnlyOwner(owners: set<nat>, user: nat)
    ensures owners == {user} <==> user in owners && |owners| == 1
  {
    if user in owners && |owners| == 1 { assert |owners - {user}| == 0; }
  }

  /** The outcome of a sign-in with this verified, admitted address. */
  ghost predicate Enters(db: Db, p: Provider, claims: Claims, address: string, r: Resolved) {
    && OidcRuns.LinkedTo(r.db, p.issuer, claims.subject, r.user) && r.linked
    && if r.created then MakesUser(db, p, address) && NewUser(db, r, address)
       else LinksTo(db, p, address, r.user) && r.db.users == db.users
  }

  ghost predicate NewUser(db: Db, r: Resolved, address: string) {
    && r.user !in db.users && r.user in r.db.users && r.db.users == db.users[r.user := r.db.users[r.user]]
    && var u := r.db.users[r.user];
    u.email == Some(address) && !u.admin && u.active && !u.hasPassword && u.provisioned
  }

  lemma Unlinked(db: Db, p: Provider, claims: Claims, random: string, address: string)
    requires OidcRuns.ProperMap(db) && EmailOf(claims) == Some(address) && DomainAllowed(p, address)
    requires forall i :: !Names(db, i, p.issuer, claims.subject)
    ensures match ResolveUnlinked(db, p, claims, random)
            case Ok(r) => Enters(db, p, claims, address, r)
            case Err(_) => !MakesUser(db, p, address) && forall user: nat :: !LinksTo(db, p, address, user)
  {
    var owners := UsersWithEmail(db, address);
    AddressIsEmail(db, address);
    forall user: nat | LinksTo(db, p, address, user) ensures owners == {user} && !HasIdentity(db, user, p.issuer) {
      assert forall other :: other in owners ==> HasAddress(db, other, address);
    }
    var r := ResolveUnlinked(db, p, claims, random);
    if r.Ok? {
      var n := db.nextIdentity;
      assert Names(r.value.db, n, p.issuer, claims.subject) && r.value.db.identities[n].user == r.value.user;
      if !r.value.created {
        OnlyOwner(owners, r.value.user);
        assert HasAddress(db, r.value.user, address);
        forall i | i in db.identities && db.identities[i].user == r.value.user
          ensures db.identities[i].issuer != p.issuer
        {
          assert !HasIdentity(db, r.value.user, p.issuer);
        }
      }
    }
  }

  // ---- Results -------------------------------------------------------------------------------------

  /** Main result. A provider account that nobody has linked signs in if and only if the provider claims and
      has verified an address of an admitted domain, and either that address links it to the one user who
      has it, or nobody has it and users are made; and it signs in that user. */
  lemma SignInIff(db: Db, p: Provider, claims: Claims, random: string)
    requires OidcRuns.ProperMap(db) && forall i :: !Names(db, i, p.issuer, claims.subject)
    ensures match ResolveSignIn(db, p, claims, random)
            case Ok(r) => exists a :: Verified(claims, a) && MayEnter(p, a) && Enters(db, p, claims, a, r)
            case Err(_) => forall a :: Verified(claims, a) && MayEnter(p, a) ==>
                             !MakesUser(db, p, a) && forall user: nat :: !LinksTo(db, p, a, user)
  {
    forall a ensures Verified(claims, a) <==> EmailOf(claims) == Some(a) { VerifiedIsEmail(claims, a); }
    if EmailOf(claims).Some? {
      var address := EmailOf(claims).value;
      CoreHasAt(claims.email.value, address);
      EnterIsAllowed(p, address);
      if DomainAllowed(p, address) { Unlinked(db, p, claims, random, address); }
    }
  }

  /** An account that is linked signs in its user whatever it claims, and a verified address is noted. */
  lemma LinkedSignIn(db: Db, p: Provider, claims: Claims, random: string, i: nat)
    requires OidcRuns.ProperMap(db) && Names(db, i, p.issuer, claims.subject)
    ensures var r := ResolveSignIn(db, p, claims, random);
            && r.Ok? && r.value.user == db.identities[i].user && !r.value.created && !r.value.linked
            && r.value.db.users == db.users && r.value.db.identities.Keys == db.identities.Keys
            && (forall a :: Verified(claims, a) ==> r.value.db.identities[i] == db.identities[i].(email := Some(a)))
            && ((forall a :: !Verified(claims, a)) ==> r.value.db == db)
  {
    OidcRuns.FindsLink(db, i, p.issuer, claims.subject);
    forall a ensures Verified(claims, a) <==> EmailOf(claims) == Some(a) { VerifiedIsEmail(claims, a); }
    if EmailOf(claims).Some? { CoreHasAt(claims.email.value, EmailOf(claims).value); }
  }

  /** A signed-in user attaches an account if and only if they are active and either have it already, or
      nobody has it and they have none of this provider. */
  lemma LinkIff(db: Db, p: Provider, target: Option<nat>, claims: Claims)
    requires OidcRuns.ProperMap(db)
    ensures ResolveLink(db, p, target, claims).Ok? <==>
            && target.Some? && target.value in db.users && db.users[target.value].active
            && (|| OidcRuns.LinkedTo(db, p.issuer, claims.subject, target.value)
                || ((forall i :: !Names(db, i, p.issuer, claims.subject))
                    && forall i :: i in db.identities && db.identities[i].user == target.value ==>
                         db.identities[i].issuer != p.issuer))
    ensures ResolveLink(db, p, target, claims).Ok? ==>
              var r := ResolveLink(db, p, target, claims).value;
              && target == Some(r.user) && r.db.users == db.users && !r.created
              && (r.linked <==> !OidcRuns.LinkedTo(db, p.issuer, claims.subject, r.user))
              && OidcRuns.LinkedTo(r.db, p.issuer, claims.subject, r.user)
  {
    if i :| Names(db, i, p.issuer, claims.subject) {
      OidcRuns.FindsLink(db, i, p.issuer, claims.subject);
      var t := Touch(db, i, EmailOf(claims));
      assert Names(t, i, p.issuer, claims.subject) && t.identities[i].user == db.identities[i].user;
    } else if target.Some? {
      var t := AddIdentity(db, target.value, p.issuer, claims.subject, EmailOf(claims));
      assert Names(t, db.nextIdentity, p.issuer, claims.subject);
      assert t.identities[db.nextIdentity].user == target.value;
    }
  }

  // ---- The name of a new user --------------------------------------------------------------------------

  /** A letter, a digit or one of the four other characters of a user name. */
  predicate Plain(c: char) {
    'A' <= c <= 'Z' || 'a' <= c <= 'z' || '0' <= c <= '9' || c == '.' || c == '_' || c == '@' || c == '-'
  }

  /** A text that can be a user name as it stands. */
  ghost predicate GoodName(s: string) {
    3 <= |s| <= 100 && forall i :: 0 <= i < |s| ==> Plain(s[i])
  }

  /** What stands before the first `@`. */
  ghost predicate LocalPart(address: string, local: string) {
    local + "@" <= address && '@' !in local
  }

  lemma {:induction false} CleanPlain(s: string)
    ensures forall c :: c in Clean(s) <==> c in s && Plain(c)
    ensures (forall i :: 0 <= i < |s| ==> Plain(s[i])) ==> Clean(s) == s
    ensures (forall i :: 0 <= i < |s| ==> !Plain(s[i])) ==> Clean(s) == ""
  {
    if s != "" {
      CleanPlain(s[1..]);
      assert s == [s[0]] + s[1..];
    }
  }

  /** Cleaning goes character by character. */
  lemma {:induction false} CleanJoin(s: string, t: string)
    ensures Clean(s + t) == Clean(s) + Clean(t)
  {
    if s == "" {
      assert s + t == t;
    } else {
      var first := if NameChar(s[0]) then [s[0]] else [];
      assert (s + t)[1..] == s[1..] + t && (s + t)[0] == s[0];
      CleanJoin(s[1..], t);
      Assoc(first, Clean(s[1..]), Clean(t));
    }
  }

  lemma LocalIs(address: string, local: string)
    requires LocalPart(address, local)
    ensures address[..IndexOf(address, '@')] == local
  {
    var i := IndexOf(address, '@');
    assert address[|local|] == (local + "@")[|local|] == '@';
    assert address[..|local|] == local;
    FirstAt(address, |local|);
  }

  lemma {:induction false} FirstAt(s: string, k: nat)
    requires k < |s| && s[k] == '@' && '@' !in s[..k]
    ensures IndexOf(s, '@') == k
  {
    if k > 0 {
      assert s[..k][0] == s[0];
      assert s[1..][..k - 1] == s[..k][1..];
      FirstAt(s[1..], k - 1);
    }
  }

  /** The name a new user gets, before a number is added where it is taken: the claimed name if it is a good
      one; the part of the address before the `@` if it is a good one and no name is claimed; and in every
      case a good one, if the random one is. */
  lemma NameChosen(claims: Claims, email: string, random: string)
    ensures claims.username.Some? && GoodName(claims.username.value)
            ==> BaseName(claims, email, random) == claims.username.value
    ensures forall local ::
              (claims.username.None? || |claims.username.value| < 3) && LocalPart(email, local) && GoodName(local)
              ==> BaseName(claims, email, random) == local
    ensures GoodName(random) ==> GoodName(BaseName(claims, email, random))
  {
    if claims.username.Some? {
      CleanPlain(claims.username.value);
      if |claims.username.value| < 3 { CleanShorter(claims.username.value); }
      TakenPlain(claims.username.value, 100);
    }
    forall local | LocalPart(email, local) ensures Clean(local) == local <== GoodName(local) {
      LocalIs(email, local);
      CleanPlain(local);
    }
    forall local | LocalPart(email, local) ensures email[..IndexOf(email, '@')] == local { LocalIs(email, local); }
    TakenPlain(email[..IndexOf(email, '@')], 100);
    TakenPlain("sso-" + Take(claims.subject, 8), 100);
  }

  lemma {:induction false} CleanShorter(s: string)
    ensures |Clean(s)| <= |s|
  {
    if s != "" { CleanShorter(s[1..]); }
  }

  lemma TakenPlain(s: string, n: nat)
    ensures |Take(Clean(s), n)| <= n && forall i :: 0 <= i < |Take(Clean(s), n)| ==> Plain(Take(Clean(s), n)[i])
  {
    CleanPlain(s);
    assert forall i :: 0 <= i < |Clean(s)| ==> Clean(s)[i] in Clean(s);
  }

  /** Nobody has this name, whatever the case. */
  ghost predicate FreeName(db: Db, name: string) {
    forall u :: u in db.users ==> !CaseAside(db.users[u].username, name)
  }

  function Numbered(base: string, n: nat): string {
    if n == 1 then base else base + "-" + Decimal(n)
  }

  /** The new user's name: the chosen one, or that with the first number that makes it a free one. */
  lemma CreatedName(db: Db, p: Provider, claims: Claims, email: string, random: string)
    ensures var r, base := Create(db, p, claims, email, random), BaseName(claims, email, random);
            exists n :: n >= 1 && r.db.users[r.user].username == Numbered(base, n) && FreeName(db, Numbered(base, n))
                        && forall m :: 1 <= m < n ==> !FreeName(db, Numbered(base, m))
  {
    var base := BaseName(claims, email, random);
    var n := FirstFree(TakenNames(db), base, 1);
    forall m: nat | m >= 1 ensures FreeName(db, Numbered(base, m)) <==> Lower(Candidate(base, m)) !in TakenNames(db) {
      NameTaken(db, Numbered(base, m));
    }
    assert FreeName(db, Numbered(base, n));
  }

  lemma NameTaken(db: Db, name: string)
    ensures FreeName(db, name) <==> Lower(name) !in TakenNames(db)
  {
    forall u | u in db.users
      ensures CaseAside(db.users[u].username, name) <==> Lower(db.users[u].username) == Lower(name)
    {
      LowerIsCaseAside(db.users[u].username, name);
    }
  }
}
