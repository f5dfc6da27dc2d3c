/** Who a provider account is: the identities linked to local users, and how a validated ID
    token finds, links or creates a user. */
module OidcIdentities {
  import opened Common
  import opened Text

  /** `provisioned` marks accounts that a provider sign-in created. */
  datatype User = User(
    username: string,
    email: Option<string>,
    hasPassword: bool,
    admin: bool,
    active: bool,
    provisioned: bool)

  datatype Identity = Identity(user: nat, issuer: string, subject: string, email: Option<string>)

  datatype Db = Db(users: map<nat, User>, identities: map<nat, Identity>, nextUser: nat, nextIdentity: nat)

  datatype Provider = Provider(issuer: string, autoCreate: bool, linkByEmail: bool, allowedDomains: set<string>)

  /** The claims of a validated token; `None` for a claim that is missing or no text. */
  datatype Claims = Claims(subject: string, email: Option<string>, emailVerified: bool, username: Option<string>)

  datatype Refusal =
    | LinkUserGone | IdentityTaken | UserHasIdentity | IdentityOrphaned | NotLinked
    | EmailUserHasIdentity | EmailInUse | InternalError

  datatype Resolved = Resolved(db: Db, user: nat, created: bool, linked: bool)

  // ---- Text -------------------------------------------------------------------------

  function LowerChar(c: char): char {
    if 'A' <= c <= 'Z' then ((c as int) - ('A' as int) + ('a' as int)) as char else c
  }

  function Lower(s: string): (r: string)
    ensures |r| == |s| && forall i :: 0 <= i < |s| ==> r[i] == LowerChar(s[i])
  {
    if s == [] then [] else [LowerChar(s[0])] + Lower(s[1..])
  }

  /** Where `c` first occurs, or the length of the text. */
  function IndexOf(s: string, c: char): (i: nat)
    ensures i <= |s| && (i < |s| ==> s[i] == c) && (i == |s| <==> c !in s)
  {
    if s == [] || s[0] == c then 0 else 1 + IndexOf(s[1..], c)
  }

  function AfterLast(s: string, c: char): string {
    if c !in s then s else AfterLast(s[IndexOf(s, c) + 1..], c)
  }

  /** The claimed address, when the provider says it is verified. */
  function EmailOf(claims: Claims): Option<string> {
    if !claims.emailVerified || claims.email.None? || '@' !in claims.email.value || |claims.email.value| > 255 then None
    else Some(Trim(claims.email.value))
  }

  predicate DomainAllowed(p: Provider, email: string) {
    p.allowedDomains == {} || Lower(AfterLast(email, '@')) in p.allowedDomains
  }

  // ---- Finding a free user name ----------------------------------------------------------

  predicate NameChar(c: char) {
    'A' <= c <= 'Z' || 'a' <= c <= 'z' || '0' <= c <= '9' || c in {'.', '_', '@', '-'}
  }

  function Clean(s: string): string {
    if s == [] then [] else (if NameChar(s[0]) then [s[0]] else []) + Clean(s[1..])
  }

  function Take(s: string, n: nat): string {
    if |s| <= n then s else s[..n]
  }

  /** The first usable candidate: the claim, the local part of the address, the subject. */
  function BaseName(claims: Claims, email: string, random: string): string {
    var claimed := if claims.username.None? then "" else Take(Clean(claims.username.value), 100);
    var local := Take(Clean(email[..IndexOf(email, '@')]), 100);
    var subject := Take(Clean("sso-" + Take(claims.subject, 8)), 100);
    if |claimed| >= 3 then claimed
    else if |local| >= 3 then local
    else if |subject| >= 3 then subject
    else random
  }

  /** `base`, `base-2`, `base-3`, ... */
  function Candidate(base: string, n: nat): string {
    if n <= 1 then base else base + "-" + Decimal(n)
  }

  lemma LowerConcat(s: string, t: string)
    ensures Lower(s + t) == Lower(s) + Lower(t)
  {
  }

  lemma DecimalLower(n: nat)
    ensures Lower(Decimal(n)) == Decimal(n)
  {
  }

  lemma CandidatesDiffer(base: string, m: nat, n: nat)
    requires 1 <= m < n
    ensures Lower(Candidate(base, m)) != Lower(Candidate(base, n))
  {
    var dash := base + "-";
    LowerConcat(dash, Decimal(n));
    DecimalLower(n);
    if m == 1 {
      assert |Candidate(base, n)| > |base|;
    } else {
      LowerConcat(dash, Decimal(m));
      DecimalLower(m);
      assert Lower(Candidate(base, m))[|dash|..] == Decimal(m);
      assert Lower(Candidate(base, n))[|dash|..] == Decimal(n);
      if Decimal(m) == Decimal(n) { DecimalInjective(m, n); }
    }
  }

  /** The taken names that candidates from the `n`th on can still run into. */
  ghost function Blocking(taken: set<string>, base: string, n: nat): set<string> {
    set t | t in taken && exists m {:trigger Candidate(base, m)} :: n <= m && Lower(Candidate(base, m)) == t
  }

  lemma BlockingShrinks(taken: set<string>, base: string, n: nat)
    requires n >= 1 && Lower(Candidate(base, n)) in taken
    ensures Blocking(taken, base, n + 1) < Blocking(taken, base, n)
  {
    var t := Lower(Candidate(base, n));
    assert t in Blocking(taken, base, n);
    if t in Blocking(taken, base, n + 1) {
      var m :| n + 1 <= m && Lower(Candidate(base, m)) == t;
      CandidatesDiffer(base, n, m);
    }
  }

  /** The number of the first candidate from the `n`th on whose lower-case form is not taken. */
  function FirstFree(taken: set<string>, base: string, n: nat): (r: nat)
    requires n >= 1
    ensures r >= n && Lower(Candidate(base, r)) !in taken
    ensures forall m :: n <= m < r ==> Lower(Candidate(base, m)) in taken
    decreases Blocking(taken, base, n)
  {
    if Lower(Candidate(base, n)) !in taken then n else
    BlockingShrinks(taken, base, n);
    FirstFree(taken, base, n + 1)
  }

  /** The search the service runs; it ends because only finitely many names are taken. */
  method FreeUsername(taken: set<string>, base: string) returns (name: string)
    ensures name == Candidate(base, FirstFree(taken, base, 1)) && Lower(name) !in taken
  {
    var n := 1;
    name := base;
    while Lower(name) in taken
      invariant n >= 1 && name == Candidate(base, n)
      invariant FirstFree(taken, base, n) == FirstFree(taken, base, 1)
      decreases Blocking(taken, base, n)
    {
      BlockingShrinks(taken, base, n);
      n := n + 1;
      name := base + "-" + Decimal(n);
    }
  }

  // ---- Resolving a token --------------------------------------------------------------------

  ghost function TakenNames(db: Db): set<string> {
    set u | u in db.users :: Lower(db.users[u].username)
  }

  ghost predicate Names(db: Db, i: nat, issuer: string, subject: string) {
    i in db.identities && db.identities[i].issuer == issuer && db.identities[i].subject == subject
  }

  ghost function IdentitiesOf(db: Db, user: nat): set<nat> {
    set i | i in db.identities && db.identities[i].user == user
  }

  ghost predicate HasIdentity(db: Db, user: nat, issuer: string) {
    exists i :: i in db.identities && db.identities[i].user == user && db.identities[i].issuer == issuer
  }

  /** The users whose address is this one, case aside. */
  ghost function UsersWithEmail(db: Db, email: string): set<nat> {
    set u | u in db.users && db.users[u].email.Some? && Lower(db.users[u].email.value) == Lower(email)
  }

  ghost function AddIdentity(db: Db, user: nat, issuer: string, subject: string, email: Option<string>): Db {
    db.(identities := db.identities[db.nextIdentity := Identity(user, issuer, subject, email)],
        nextIdentity := db.nextIdentity + 1)
  }

  /** A sign-in refreshes the address kept with the identity. */
  ghost function Touch(db: Db, i: nat, email: Option<string>): Db
    requires i in db.identities
  {
    if email.Some? && email.value != "" then db.(identities := db.identities[i := db.identities[i].(email := email)])
    else db
  }

  /** A signed-in user attaches an account. */
  ghost function ResolveLink(db: Db, p: Provider, target: Option<nat>, claims: Claims): Result<Resolved, Refusal> {
    if target.None? || target.value !in db.users || !db.users[target.value].active then Err(LinkUserGone)
    else if i :| Names(db, i, p.issuer, claims.subject) then
      if db.identities[i].user != target.value then Err(IdentityTaken)
      else Ok(Resolved(Touch(db, i, EmailOf(claims)), target.value, false, false))
    else if HasIdentity(db, target.value, p.issuer) then Err(UserHasIdentity)
    else
      var more := AddIdentity(db, target.value, p.issuer, claims.subject, EmailOf(claims));
      Ok(Resolved(more, target.value, false, true))
  }

  ghost function Create(db: Db, p: Provider, claims: Claims, email: string, random: string): Resolved {
    var base := BaseName(claims, email, random);
    var name := Candidate(base, FirstFree(TakenNames(db), base, 1));
    var db1 := db.(users := db.users[db.nextUser := User(name, Some(email), false, false, true, true)],
                   nextUser := db.nextUser + 1);
    Resolved(AddIdentity(db1, db.nextUser, p.issuer, claims.subject, Some(email)), db.nextUser, true, true)
  }

  /** A sign-in with an account that is linked to nobody yet. */
  ghost function ResolveUnlinked(db: Db, p: Provider, claims: Claims, random: string): Result<Resolved, Refusal> {
    var email := EmailOf(claims);
    if email.None? || !DomainAllowed(p, email.value) then Err(NotLinked)
    else
      var owners := UsersWithEmail(db, email.value);
      if p.linkByEmail && |owners| > 1 then Err(InternalError)
      else if p.linkByEmail && owners != {} then
        var u :| u in owners;
        if HasIdentity(db, u, p.issuer) then Err(EmailUserHasIdentity)
        else Ok(Resolved(AddIdentity(db, u, p.issuer, claims.subject, email), u, false, true))
      else if !p.autoCreate then Err(NotLinked)
      else if owners != {} then Err(EmailInUse)
      else Ok(Create(db, p, claims, email.value, random))
  }

  ghost function ResolveSignIn(db: Db, p: Provider, claims: Claims, random: string): Result<Resolved, Refusal> {
    if i :| Names(db, i, p.issuer, claims.subject) then
      if db.identities[i].user !in db.users then Err(IdentityOrphaned)
      else Ok(Resolved(Touch(db, i, EmailOf(claims)), db.identities[i].user, false, false))
    else ResolveUnlinked(db, p, claims, random)
  }
}
