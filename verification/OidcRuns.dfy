/** Runs of sign-ins, links and unlinks: the identity map stays a proper map, nobody is
    promoted, and nobody is locked out. */
module OidcRuns {
  import opened Common
  import opened Text
  import opened OidcIdentities

  datatype Event =
    | SignIn(provider: Provider, claims: Claims, random: string)
    | LinkTo(provider: Provider, target: Option<nat>, claims: Claims)
    | Unlink(user: nat, identity: nat)
    | SetPassword(user: nat)
    | SetActive(user: nat, active: bool)
    | NewIds(next: nat)

  /** One of the user's own identities goes, unless it is their last way to sign in. */
  ghost function Unlinked(db: Db, user: nat, i: nat): Option<Db> {
    if user !in db.users || i !in db.identities || db.identities[i].user != user then None
    else if !db.users[user].hasPassword && |IdentitiesOf(db, user)| <= 1 then None
    else Some(db.(identities := db.identities - {i}))
  }

  ghost function Step(db: Db, e: Event): Db {
    match e
    case SignIn(p, claims, random) =>
      (match ResolveSignIn(db, p, claims, random) case Ok(r) => r.db case Err(_) => db)
    case LinkTo(p, target, claims) =>
      (match ResolveLink(db, p, target, claims) case Ok(r) => r.db case Err(_) => db)
    case Unlink(user, i) =>
      (match Unlinked(db, user, i) case Some(after) => after case None => db)
    case SetPassword(user) =>
      if user in db.users then db.(users := db.users[user := db.users[user].(hasPassword := true)]) else db
    case SetActive(user, active) =>
      if user in db.users then db.(users := db.users[user := db.users[user].(active := active)]) else db
    case NewIds(next) =>
      // The database may hand out any ids above those in use, those of unlinked identities included.
      if forall i :: i in db.identities ==> i < next then db.(nextIdentity := next) else db
  }

  ghost function After(db: Db, run: seq<Event>): Db {
    if run == [] then db else Step(After(db, DropLast(run)), Last(run))
  }

  // ---- What every step keeps --------------------------------------------------------------

  predicate SameAccount(a: Identity, b: Identity) {
    a.issuer == b.issuer && a.subject == b.subject
  }

  predicate SameHolder(a: Identity, b: Identity) {
    a.issuer == b.issuer && a.user == b.user
  }

  /** (issuer, subject) names at most one user; a user has at most one identity per issuer. */
  ghost predicate ProperMap(db: Db) {
    && (forall i, j ::
          i in db.identities && j in db.identities && SameAccount(db.identities[i], db.identities[j]) ==> i == j)
    && (forall i, j ::
          i in db.identities && j in db.identities && SameHolder(db.identities[i], db.identities[j]) ==> i == j)
    && (forall i :: i in db.identities ==> db.identities[i].user in db.users && i < db.nextIdentity)
    && (forall u :: u in db.users ==> u < db.nextUser)
  }

  /** User names are unique, case aside. */
  ghost predicate UniqueNames(db: Db) {
    forall u, v ::
      u in db.users && v in db.users && Lower(db.users[u].username) == Lower(db.users[v].username) ==> u == v
  }

  ghost predicate Linked(db: Db, user: nat) {
    exists i :: i in db.identities && db.identities[i].user == user
  }

  /** An account made by a sign-in has a password or an identity. */
  ghost predicate NobodyStranded(db: Db) {
    forall u :: u in db.users && db.users[u].provisioned && !db.users[u].hasPassword ==> Linked(db, u)
  }

  ghost predicate Consistent(db: Db) {
    ProperMap(db) && UniqueNames(db) && NobodyStranded(db)
  }

  lemma TouchLinked(db: Db, i: nat, email: Option<string>, u: nat)
    requires i in db.identities && Linked(db, u)
    ensures Linked(Touch(db, i, email), u)
  {
    var j :| j in db.identities && db.identities[j].user == u;
    assert j in Touch(db, i, email).identities && Touch(db, i, email).identities[j].user == u;
  }

  lemma TouchProper(db: Db, i: nat, email: Option<string>)
    requires ProperMap(db) && i in db.identities
    ensures ProperMap(Touch(db, i, email))
  {
    var t := Touch(db, i, email);
    assert t.identities.Keys == db.identities.Keys;
    forall j, k | j in t.identities && k in t.identities
      ensures SameAccount(t.identities[j], t.identities[k]) ==> j == k
      ensures SameHolder(t.identities[j], t.identities[k]) ==> j == k
    {
      assert SameAccount(t.identities[j], t.identities[k]) ==> SameAccount(db.identities[j], db.identities[k]);
      assert SameHolder(t.identities[j], t.identities[k]) ==> SameHolder(db.identities[j], db.identities[k]);
    }
  }

  lemma TouchKeeps(db: Db, i: nat, email: Option<string>)
    requires Consistent(db) && i in db.identities
    ensures Consistent(Touch(db, i, email))
  {
    TouchProper(db, i, email);
    forall u | u in db.users && db.users[u].provisioned && !db.users[u].hasPassword
      ensures Linked(Touch(db, i, email), u)
    {
      TouchLinked(db, i, email, u);
    }
  }

  lemma AddKeeps(db: Db, user: nat, issuer: string, subject: string, email: Option<string>)
    requires ProperMap(db) && UniqueNames(db) && user in db.users && !HasIdentity(db, user, issuer)
    requires forall i :: !Names(db, i, issuer, subject)
    requires forall u ::
               u in db.users && u != user && db.users[u].provisioned && !db.users[u].hasPassword ==> Linked(db, u)
    ensures Consistent(AddIdentity(db, user, issuer, subject, email))
  {
    var t := AddIdentity(db, user, issuer, subject, email);
    var n := db.nextIdentity;
    assert t.identities[n].user == user;
    forall i | i in db.identities ensures t.identities[i] == db.identities[i] && !Names(db, i, issuer, subject) {}
    forall u | u in t.users && t.users[u].provisioned && !t.users[u].hasPassword
      ensures Linked(t, u)
    {
      if u != user {
        var i :| i in db.identities && db.identities[i].user == u;
        assert t.identities[i].user == u;
      }
    }
  }

  /** The tables with the new user, before the identity is added. */
  lemma NewUserKeeps(db: Db, user: User)
    requires Consistent(db) && Lower(user.username) !in TakenNames(db)
    ensures var t := db.(users := db.users[db.nextUser := user], nextUser := db.nextUser + 1);
            && db.nextUser !in db.users && ProperMap(t) && UniqueNames(t)
            && (forall u ::
                  u in t.users && u != db.nextUser && t.users[u].provisioned && !t.users[u].hasPassword
                  ==> Linked(t, u))
  {
    var t := db.(users := db.users[db.nextUser := user], nextUser := db.nextUser + 1);
    assert forall u :: u in db.users ==> Lower(db.users[u].username) in TakenNames(db);
    forall u | u in db.users && db.users[u].provisioned && !db.users[u].hasPassword ensures Linked(t, u) {
      assert Linked(db, u);
    }
  }

  lemma CreateKeeps(db: Db, p: Provider, claims: Claims, email: string, random: string)
    requires Consistent(db) && forall i :: !Names(db, i, p.issuer, claims.subject)
    ensures var r := Create(db, p, claims, email, random);
            && Consistent(r.db) && r.user !in db.users && r.user in r.db.users
            && Lower(r.db.users[r.user].username) !in TakenNames(db)
  {
    var base := BaseName(claims, email, random);
    var user := User(Candidate(base, FirstFree(TakenNames(db), base, 1)), Some(email), false, false, true, true);
    var db1 := db.(users := db.users[db.nextUser := user], nextUser := db.nextUser + 1);
    NewUserKeeps(db, user);
    NoIdentityYet(db, db1, db.nextUser, p.issuer);
    assert forall i :: Names(db1, i, p.issuer, claims.subject) ==> Names(db, i, p.issuer, claims.subject);
    AddKeeps(db1, db.nextUser, p.issuer, claims.subject, Some(email));
  }

  lemma NoIdentityYet(db: Db, db1: Db, user: nat, issuer: string)
    requires ProperMap(db) && user !in db.users && db1.identities == db.identities
    ensures !HasIdentity(db1, user, issuer)
  {
  }

  lemma UnlinkedSignInKeeps(db: Db, p: Provider, claims: Claims, random: string)
    requires Consistent(db) && forall i :: !Names(db, i, p.issuer, claims.subject)
    ensures ResolveUnlinked(db, p, claims, random).Ok? ==> Consistent(ResolveUnlinked(db, p, claims, random).value.db)
  {
    var email, r := EmailOf(claims), ResolveUnlinked(db, p, claims, random);
    if r.Ok? && r.value.created {
      CreateKeeps(db, p, claims, email.value, random);
    } else if r.Ok? {
      AddKeeps(db, r.value.user, p.issuer, claims.subject, email);
    }
  }

  lemma SignInKeeps(db: Db, p: Provider, claims: Claims, random: string)
    requires Consistent(db)
    ensures Consistent(Step(db, SignIn(p, claims, random)))
  {
    if i :| Names(db, i, p.issuer, claims.subject) {
      forall j | Names(db, j, p.issuer, claims.subject) ensures j == i {
        assert SameAccount(db.identities[i], db.identities[j]);
      }
      TouchKeeps(db, i, EmailOf(claims));
    } else {
      UnlinkedSignInKeeps(db, p, claims, random);
    }
  }

  lemma LinkKeeps(db: Db, p: Provider, target: Option<nat>, claims: Claims)
    requires Consistent(db)
    ensures Consistent(Step(db, LinkTo(p, target, claims)))
  {
    if i :| Names(db, i, p.issuer, claims.subject) {
      forall j | Names(db, j, p.issuer, claims.subject) ensures j == i {
        assert SameAccount(db.identities[i], db.identities[j]);
      }
      TouchKeeps(db, i, EmailOf(claims));
    } else if target.Some? && target.value in db.users && !HasIdentity(db, target.value, p.issuer) {
      AddKeeps(db, target.value, p.issuer, claims.subject, EmailOf(claims));
    }
  }

  lemma UnlinkKeeps(db: Db, user: nat, i: nat)
    requires Consistent(db) && Unlinked(db, user, i).Some?
    ensures Consistent(Unlinked(db, user, i).value)
  {
    var t := Unlinked(db, user, i).value;
    forall u | u in t.users && t.users[u].provisioned && !t.users[u].hasPassword
      ensures Linked(t, u)
    {
      var j :| j in db.identities && db.identities[j].user == u;
      if u == user {
        var own := IdentitiesOf(db, user);
        assert i in own && j in own;
        assert |own - {i}| == |own| - 1;
        var k :| k in own - {i};
        assert t.identities[k].user == u;
      } else {
        assert t.identities[j].user == u;
      }
    }
  }

  lemma AccountKeeps(db: Db, user: nat, account: User)
    requires Consistent(db) && user in db.users && account.username == db.users[user].username
    requires account.provisioned == db.users[user].provisioned && (db.users[user].hasPassword ==> account.hasPassword)
    ensures Consistent(db.(users := db.users[user := account]))
  {
    var t := db.(users := db.users[user := account]);
    forall u | u in t.users && t.users[u].provisioned && !t.users[u].hasPassword ensures Linked(t, u) {
      assert Linked(db, u);
    }
    assert forall u :: u in t.users ==> t.users[u].username == db.users[u].username;
  }

  lemma StepConsistent(db: Db, e: Event)
    requires Consistent(db)
    ensures Consistent(Step(db, e))
  {
    match e
    case SignIn(p, claims, random) => SignInKeeps(db, p, claims, random);
    case LinkTo(p, target, claims) => LinkKeeps(db, p, target, claims);
    case Unlink(user, i) => if Unlinked(db, user, i).Some? { UnlinkKeeps(db, user, i); }
    case SetPassword(user) =>
      if user in db.users { AccountKeeps(db, user, db.users[user].(hasPassword := true)); }
    case SetActive(user, active) =>
      if user in db.users { AccountKeeps(db, user, db.users[user].(active := active)); }
    case NewIds(next) => NewIdsKeep(db, next);
  }

  lemma NewIdsKeep(db: Db, next: nat)
    requires Consistent(db)
    ensures Consistent(Step(db, NewIds(next)))
  {
    var t := Step(db, NewIds(next));
    forall u | u in t.users && t.users[u].provisioned && !t.users[u].hasPassword ensures Linked(t, u) {
      assert Linked(db, u);
    }
  }

  /** Main result. In every run the identity map stays functional and injective per issuer, user
      names stay unique, and every account a sign-in made keeps a way in. */
  lemma {:induction false} RunConsistent(db: Db, run: seq<Event>)
    requires Consistent(db)
    ensures Consistent(After(db, run))
  {
    if run != [] {
      RunConsistent(db, DropLast(run));
      StepConsistent(After(db, DropLast(run)), Last(run));
    }
  }

  // ---- Nobody is promoted ----------------------------------------------------------------------

  /** The second table is a later state of the first: users keep their names and rights, and a new one
      is no administrator. */
  ghost predicate Grown(a: Db, b: Db) {
    && a.nextUser <= b.nextUser
    && (forall u :: u in a.users ==>
          u in b.users && b.users[u].admin == a.users[u].admin && b.users[u].username == a.users[u].username)
    && (forall u :: u in b.users && u !in a.users ==> !b.users[u].admin && u >= a.nextUser)
  }

  lemma AddGrows(db: Db, user: nat, issuer: string, subject: string, email: Option<string>)
    requires ProperMap(db)
    ensures Grown(db, AddIdentity(db, user, issuer, subject, email))
  {
  }

  lemma CreateGrows(db: Db, p: Provider, claims: Claims, email: string, random: string)
    requires ProperMap(db)
    ensures Grown(db, Create(db, p, claims, email, random).db)
  {
    var base := BaseName(claims, email, random);
    var name := Candidate(base, FirstFree(TakenNames(db), base, 1));
    var db1 := db.(users := db.users[db.nextUser := User(name, Some(email), false, false, true, true)],
                   nextUser := db.nextUser + 1);
    assert Grown(db, db1);
    var db2 := AddIdentity(db1, db.nextUser, p.issuer, claims.subject, Some(email));
    assert db2 == Create(db, p, claims, email, random).db;
    assert db2.users == db1.users;
  }

  lemma UnlinkedSignInGrows(db: Db, p: Provider, claims: Claims, random: string)
    requires ProperMap(db)
    ensures ResolveUnlinked(db, p, claims, random).Ok? ==> Grown(db, ResolveUnlinked(db, p, claims, random).value.db)
  {
    var email, r := EmailOf(claims), ResolveUnlinked(db, p, claims, random);
    if r.Ok? && r.value.created {
      CreateGrows(db, p, claims, email.value, random);
    } else if r.Ok? {
      AddGrows(db, r.value.user, p.issuer, claims.subject, email);
    }
  }

  lemma TouchGrows(db: Db, i: nat, email: Option<string>)
    requires i in db.identities
    ensures Grown(db, Touch(db, i, email))
  {
  }

  lemma SignInGrows(db: Db, p: Provider, claims: Claims, random: string)
    requires ProperMap(db)
    ensures Grown(db, Step(db, SignIn(p, claims, random)))
  {
    if i :| Names(db, i, p.issuer, claims.subject) {
      forall j | Names(db, j, p.issuer, claims.subject) ensures j == i {
        assert SameAccount(db.identities[i], db.identities[j]);
      }
      TouchGrows(db, i, EmailOf(claims));
    } else {
      UnlinkedSignInGrows(db, p, claims, random);
    }
  }

  lemma LinkGrows(db: Db, p: Provider, target: Option<nat>, claims: Claims)
    requires ProperMap(db)
    ensures Grown(db, Step(db, LinkTo(p, target, claims)))
  {
    if i :| Names(db, i, p.issuer, claims.subject) {
      forall j | Names(db, j, p.issuer, claims.subject) ensures j == i {
        assert SameAccount(db.identities[i], db.identities[j]);
      }
      TouchGrows(db, i, EmailOf(claims));
    } else if target.Some? {
      AddGrows(db, target.value, p.issuer, claims.subject, EmailOf(claims));
    }
  }

  lemma AccountGrows(db: Db, user: nat, account: User)
    requires user in db.users && account.admin == db.users[user].admin && account.username == db.users[user].username
    ensures Grown(db, db.(users := db.users[user := account]))
  {
  }

  lemma UnlinkGrows(db: Db, user: nat, i: nat)
    requires Unlinked(db, user, i).Some?
    ensures Grown(db, Unlinked(db, user, i).value)
  {
  }

  lemma StepGrows(db: Db, e: Event)
    requires ProperMap(db)
    ensures Grown(db, Step(db, e))
  {
    match e
    case SignIn(p, claims, random) => SignInGrows(db, p, claims, random);
    case LinkTo(p, target, claims) => LinkGrows(db, p, target, claims);
    case Unlink(user, i) => if Unlinked(db, user, i).Some? { UnlinkGrows(db, user, i); }
    case SetPassword(user) =>
      if user in db.users { AccountGrows(db, user, db.users[user].(hasPassword := true)); }
    case SetActive(user, active) =>
      if user in db.users { AccountGrows(db, user, db.users[user].(active := active)); }
    case NewIds(_) =>
  }

  /** In every run no administrator is made, by creation or by promotion. */
  lemma {:induction false} RunGrows(db: Db, run: seq<Event>)
    requires Consistent(db)
    ensures Grown(db, After(db, run))
  {
    if run != [] {
      RunGrows(db, DropLast(run));
      RunConsistent(db, DropLast(run));
      StepGrows(After(db, DropLast(run)), Last(run));
    }
  }

  // ---- No account changes hands -------------------------------------------------------------------

  /** The provider account is linked to this user. */
  ghost predicate LinkedTo(db: Db, issuer: string, subject: string, user: nat) {
    exists i :: Names(db, i, issuer, subject) && db.identities[i].user == user
  }

  /** The account's user takes the link off. */
  ghost predicate Cuts(db: Db, e: Event, issuer: string, subject: string) {
    e.Unlink? && Names(db, e.identity, issuer, subject) && Unlinked(db, e.user, e.identity).Some?
  }

  ghost predicate CutIn(db: Db, run: seq<Event>, issuer: string, subject: string) {
    exists k :: 0 <= k < |run| && Cuts(After(db, run[..k]), run[k], issuer, subject)
  }

  lemma CutInLast(db: Db, run: seq<Event>, issuer: string, subject: string)
    requires run != [] && !CutIn(db, run, issuer, subject)
    ensures !CutIn(db, DropLast(run), issuer, subject)
    ensures !Cuts(After(db, DropLast(run)), Last(run), issuer, subject)
  {
    var init, n := DropLast(run), |run| - 1;
    assert run[..n] == init && run[n] == Last(run);
    assert forall k :: 0 <= k < n ==> init[..k] == run[..k] && init[k] == run[k];
  }

  /** The link is there afterwards, for whoever looks it up. */
  lemma FindsLink(db: Db, i: nat, issuer: string, subject: string)
    requires ProperMap(db) && Names(db, i, issuer, subject)
    ensures forall j :: Names(db, j, issuer, subject) ==> j == i
    ensures forall user :: LinkedTo(db, issuer, subject, user) <==> user == db.identities[i].user
  {
    forall j | Names(db, j, issuer, subject) ensures j == i {
      assert SameAccount(db.identities[i], db.identities[j]);
    }
    assert LinkedTo(db, issuer, subject, db.identities[i].user);
  }

  /** Every identity of the earlier table is in the later one, for the same account and user. */
  ghost predicate LinksStay(a: Db, b: Db) {
    forall i :: i in a.identities ==>
      i in b.identities && SameAccount(a.identities[i], b.identities[i]) && SameHolder(a.identities[i], b.identities[i])
  }

  lemma AddedLinksStay(db: Db, user: nat, issuer: string, subject: string, email: Option<string>)
    requires ProperMap(db)
    ensures LinksStay(db, AddIdentity(db, user, issuer, subject, email))
  {
    assert db.nextIdentity !in db.identities;
  }

  lemma TouchedLinksStay(db: Db, i: nat, email: Option<string>)
    requires i in db.identities
    ensures LinksStay(db, Touch(db, i, email))
  {
  }

  lemma CreatedLinksStay(db: Db, p: Provider, claims: Claims, email: string, random: string)
    requires ProperMap(db)
    ensures LinksStay(db, Create(db, p, claims, email, random).db)
  {
    assert db.nextIdentity !in db.identities;
  }

  lemma SignInLinksStay(db: Db, p: Provider, claims: Claims, random: string)
    requires ProperMap(db)
    ensures ResolveSignIn(db, p, claims, random).Ok? ==> LinksStay(db, ResolveSignIn(db, p, claims, random).value.db)
  {
    if i :| Names(db, i, p.issuer, claims.subject) {
      FindsLink(db, i, p.issuer, claims.subject);
      TouchedLinksStay(db, i, EmailOf(claims));
    } else {
      var r := ResolveUnlinked(db, p, claims, random);
      if r.Ok? && r.value.created {
        CreatedLinksStay(db, p, claims, EmailOf(claims).value, random);
      } else if r.Ok? {
        AddedLinksStay(db, r.value.user, p.issuer, claims.subject, EmailOf(claims));
      }
    }
  }

  lemma LinkLinksStay(db: Db, p: Provider, target: Option<nat>, claims: Claims)
    requires ProperMap(db)
    ensures ResolveLink(db, p, target, claims).Ok? ==> LinksStay(db, ResolveLink(db, p, target, claims).value.db)
  {
    if i :| Names(db, i, p.issuer, claims.subject) {
      FindsLink(db, i, p.issuer, claims.subject);
      TouchedLinksStay(db, i, EmailOf(claims));
    } else if target.Some? {
      AddedLinksStay(db, target.value, p.issuer, claims.subject, EmailOf(claims));
    }
  }

  /** One step takes an account off its user if and only if that user unlinks it. */
  lemma StepAccount(db: Db, e: Event, issuer: string, subject: string, user: nat)
    requires ProperMap(db) && LinkedTo(db, issuer, subject, user)
    ensures LinkedTo(Step(db, e), issuer, subject, user) <==> !Cuts(db, e, issuer, subject)
  {
    var i :| Names(db, i, issuer, subject) && db.identities[i].user == user;
    FindsLink(db, i, issuer, subject);
    if e.Unlink? {
      if Unlinked(db, e.user, e.identity).Some? {
        var t := Step(db, e);
        assert forall j :: Names(t, j, issuer, subject) ==> Names(db, j, issuer, subject);
        if e.identity != i { assert Names(t, i, issuer, subject); }
      }
    } else {
      LinksStayed(db, e);
      assert Names(Step(db, e), i, issuer, subject);
    }
  }

  lemma LinksStayed(db: Db, e: Event)
    requires ProperMap(db) && !e.Unlink?
    ensures LinksStay(db, Step(db, e))
  {
    match e
    case SignIn(p, claims, random) => SignInLinksStay(db, p, claims, random);
    case LinkTo(p, target, claims) => LinkLinksStay(db, p, target, claims);
    case _ =>
  }

  /** Main result. In every run, whatever ids identities get, an account stays with its user until that
      user unlinks it. */
  lemma {:induction false} AccountStays(db: Db, run: seq<Event>, issuer: string, subject: string, user: nat)
    requires Consistent(db) && LinkedTo(db, issuer, subject, user) && !CutIn(db, run, issuer, subject)
    ensures LinkedTo(After(db, run), issuer, subject, user)
  {
    if run != [] {
      CutInLast(db, run, issuer, subject);
      AccountStays(db, DropLast(run), issuer, subject, user);
      RunConsistent(db, DropLast(run));
      StepAccount(After(db, DropLast(run)), Last(run), issuer, subject, user);
    }
  }

  /** So signing in again with a linked account reaches the same user for as long as the link is not
      taken off. */
  lemma SameAccountSameUser(db: Db, run: seq<Event>, user: nat, p: Provider, claims: Claims, random: string)
    requires Consistent(db) && LinkedTo(db, p.issuer, claims.subject, user)
    requires !CutIn(db, run, p.issuer, claims.subject)
    ensures var r := ResolveSignIn(After(db, run), p, claims, random);
            r.Ok? && r.value.user == user && !r.value.created && !r.value.linked
  {
    var later := After(db, run);
    AccountStays(db, run, p.issuer, claims.subject, user);
    RunConsistent(db, run);
    var i :| Names(later, i, p.issuer, claims.subject) && later.identities[i].user == user;
    FindsLink(later, i, p.issuer, claims.subject);
  }
}
