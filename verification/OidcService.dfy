/** The sign-in service over its tables, which every request changes in place. */
module OidcService {
  import opened Common
  import opened Text
  import opened OidcIdentities
  import opened OidcRequests
  import OidcRuns
  import opened OidcRequestRuns

  datatype UnlinkAnswer = Removed | NotFound | LastLoginMethod

  datatype Found = Found(user: nat, created: bool, linked: bool)

  class SignIns {
    const hash: string -> string
    var users: map<nat, User>
    var identities: map<nat, Identity>
    var nextUser: nat
    var nextIdentity: nat
    var rows: map<nat, Request>
    var nextRow: nat
    ghost var flights: map<nat, nat>
    ghost var nextFlight: nat
    ghost var begun: map<nat, Request>
    ghost var exchanges: seq<Exchange>
    ghost var handed: seq<Hand>

    ghost function Accounts(): Db
      reads this
    {
      Db(users, identities, nextUser, nextIdentity)
    }

    ghost function State(): Server
      reads this
    {
      Server(rows, nextRow, Accounts(), flights, nextFlight, begun, exchanges, handed)
    }

    constructor (hash: string -> string)
      ensures this.hash == hash && State().rows == map[] && Sound(State())
    {
      this.hash := hash;
      users, identities, nextUser, nextIdentity := map[], map[], 0, 0;
      rows, nextRow := map[], 0;
      flights, nextFlight, begun, exchanges, handed := map[], 0, map[], [], [];
    }

    // ---- Identities -----------------------------------------------------------------

    method AddIdentity(user: nat, issuer: string, subject: string, email: Option<string>)
      modifies this`identities, this`nextIdentity
      ensures Accounts() == OidcIdentities.AddIdentity(old(Accounts()), user, issuer, subject, email)
    {
      identities := identities[nextIdentity := Identity(user, issuer, subject, email)];
      nextIdentity := nextIdentity + 1;
    }

    method TouchIdentity(i: nat, email: Option<string>)
      requires i in identities
      modifies this`identities
      ensures Accounts() == Touch(old(Accounts()), i, email)
    {
      if email.Some? && email.value != "" {
        identities := identities[i := identities[i].(email := email)];
      }
    }

    /** A request that links an account to a signed-in user. */
    method ResolveLinking(p: Provider, target: Option<nat>, claims: Claims) returns (r: Result<Found, Refusal>)
      requires OidcRuns.Consistent(Accounts())
      modifies this`identities, this`nextIdentity
      ensures match ResolveLink(old(Accounts()), p, target, claims)
              case Ok(d) => r == Ok(Found(d.user, d.created, d.linked)) && Accounts() == d.db
              case Err(e) => r == Err(e) && Accounts() == old(Accounts())
    {
      if target.None? || target.value !in users || !users[target.value].active { return Err(LinkUserGone); }
      var linked := FindIdentity(p.issuer, claims.subject);
      assert Accounts() == old(Accounts());
      if linked.Some? {
        assert Names(Accounts(), linked.value, p.issuer, claims.subject);
        if identities[linked.value].user != target.value { return Err(IdentityTaken); }
        TouchIdentity(linked.value, EmailOf(claims));
        return Ok(Found(target.value, false, false));
      }
      if exists i :: i in identities && identities[i].user == target.value && identities[i].issuer == p.issuer {
        return Err(UserHasIdentity);
      }
      AddIdentity(target.value, p.issuer, claims.subject, EmailOf(claims));
      return Ok(Found(target.value, false, true));
    }

    /** A sign-in: by the linked identity, else by verified address, else a new account. */
    method ResolveUser(p: Provider, claims: Claims, random: string) returns (r: Result<Found, Refusal>)
      requires OidcRuns.Consistent(Accounts())
      modifies this`users, this`nextUser, this`identities, this`nextIdentity
      ensures match ResolveSignIn(old(Accounts()), p, claims, random)
              case Ok(d) => r == Ok(Found(d.user, d.created, d.linked)) && Accounts() == d.db
              case Err(e) => r == Err(e) && Accounts() == old(Accounts())
    {
      var linked := FindIdentity(p.issuer, claims.subject);
      if linked.Some? {
        var i := linked.value;
        if identities[i].user !in users { return Err(IdentityOrphaned); }
        r := Ok(Found(identities[i].user, false, false));
        TouchIdentity(i, EmailOf(claims));
      } else {
        r := ResolveNew(p, claims, random);
      }
    }

    /** The identity of a provider account, of which there is at most one. */
    method FindIdentity(issuer: string, subject: string) returns (found: Option<nat>)
      requires OidcRuns.ProperMap(Accounts())
      ensures found.Some? ==>
                && Names(Accounts(), found.value, issuer, subject)
                && forall j :: Names(Accounts(), j, issuer, subject) ==> j == found.value
      ensures found.None? ==> forall j :: !Names(Accounts(), j, issuer, subject)
    {
      OneIdentity(Accounts(), issuer, subject);
      found := None;
      if i :| i in identities && identities[i].issuer == issuer && identities[i].subject == subject {
        assert Names(Accounts(), i, issuer, subject);
        found := Some(i);
      } else {
        assert forall j :: !Names(Accounts(), j, issuer, subject);
      }
    }

    method ResolveNew(p: Provider, claims: Claims, random: string) returns (r: Result<Found, Refusal>)
      modifies this`users, this`nextUser, this`identities, this`nextIdentity
      ensures match ResolveUnlinked(old(Accounts()), p, claims, random)
              case Ok(d) => r == Ok(Found(d.user, d.created, d.linked)) && Accounts() == d.db
              case Err(e) => r == Err(e) && Accounts() == old(Accounts())
    {
      var email := EmailOf(claims);
      if email.None? || !DomainAllowed(p, email.value) { return Err(NotLinked); }
      var owners := set u | u in users && users[u].email.Some? && Lower(users[u].email.value) == Lower(email.value);
      assert owners == UsersWithEmail(Accounts(), email.value);
      if p.linkByEmail {
        if |owners| > 1 { return Err(InternalError); }
        if u :| u in owners {
          Lone(owners, u);
          if exists i :: i in identities && identities[i].user == u && identities[i].issuer == p.issuer {
            return Err(EmailUserHasIdentity);
          }
          AddIdentity(u, p.issuer, claims.subject, email);
          return Ok(Found(u, false, true));
        }
      }
      if !p.autoCreate { return Err(NotLinked); }
      if owners != {} { return Err(EmailInUse); }
      var id := CreateUser(p, claims, email.value, random);
      return Ok(Found(id, true, true));
    }

    /** A new account under the first free user name; never an administrator. */
    method CreateUser(p: Provider, claims: Claims, email: string, random: string) returns (id: nat)
      modifies this`users, this`nextUser, this`identities, this`nextIdentity
      ensures Resolved(Accounts(), id, true, true) == Create(old(Accounts()), p, claims, email, random)
    {
      var taken := set u | u in users :: Lower(users[u].username);
      assert taken == TakenNames(Accounts());
      var name := FreeUsername(taken, BaseName(claims, email, random));
      id := nextUser;
      users := users[id := User(name, Some(email), false, false, true, true)];
      nextUser := nextUser + 1;
      AddIdentity(id, p.issuer, claims.subject, Some(email));
    }

    /** Removes one of the user's own identities; another user's finds nothing, and the last way to
        sign in stays. */
    method Unlink(user: nat, i: nat) returns (answer: UnlinkAnswer)
      requires user in users
      modifies this`identities
      ensures answer == Removed <==> OidcRuns.Unlinked(old(Accounts()), user, i).Some?
      ensures answer == NotFound <==> i !in old(identities) || old(identities)[i].user != user
      ensures Accounts() == OidcRuns.Step(old(Accounts()), OidcRuns.Unlink(user, i))
    {
      if i !in identities || identities[i].user != user { return NotFound; }
      var own := set j | j in identities && identities[j].user == user;
      assert own == IdentitiesOf(Accounts(), user);
      if !users[user].hasPassword && |own| <= 1 { return LastLoginMethod; }
      identities := identities - {i};
      return Removed;
    }

    // ---- Requests in progress ---------------------------------------------------------

    /** Stores a new request, unless a unique constraint refuses it. */
    method BeginRequest(e: Event) returns (stored: bool)
      requires e.Begin?
      modifies this`rows, this`nextRow, this`begun
      ensures State() == Step(hash, old(State()), e)
      ensures stored <==> rows != old(rows)
      ensures stored ==> old(nextRow) in rows && rows[old(nextRow)] == Started(hash, e)
      requires nextRow !in rows
    {
      var r := Started(hash, e);
      if exists i :: i in rows && Clash(rows[i], r) { return false; }
      rows, begun := rows[nextRow := r], begun[nextRow := r];
      assert nextRow in rows;
      nextRow := nextRow + 1;
      stored := true;
    }

    /** The first half of a callback: claims the row before the provider is contacted. */
    method ClaimRequest(state: string, binding: Option<string>, now: int) returns (claimed: Option<nat>)
      requires UniqueRows(rows)
      modifies this`rows, this`flights, this`nextFlight
      ensures State() == CalledBack(hash, old(State()), state, binding, now)
      ensures claimed.Some?
         <==> exists i :: i in old(rows) && Presented(hash, old(rows)[i], Callback(state, binding, now))
      ensures claimed.Some? ==> old(nextFlight) in flights && flights[old(nextFlight)] == claimed.value
    {
      claimed := None;
      if state == "" { return; }
      if i :| i in rows && rows[i].state == hash(state) {
        OneStateRow(rows, i, hash(state));
        if !Claimable(rows[i], now) || !RightBrowser(hash, rows[i], binding) { return; }
        rows := rows[i := rows[i].(status := Exchanging)];
        flights, nextFlight := flights[nextFlight := i], nextFlight + 1;
        claimed := Some(i);
      } else {
        assert forall i :: !HasState(rows, i, hash(state));
      }
    }

    /** What the answer makes of the accounts and of the claimed row. */
    method Settle(row: Request, answer: Answer, p: Provider) returns (r: Request)
      requires OidcRuns.Consistent(Accounts())
      modifies this`users, this`nextUser, this`identities, this`nextIdentity
      ensures (Accounts(), r) == Settled(old(Accounts()), row, answer, p)
    {
      if !answer.Token? { return row.(status := Failed); }
      var found;
      if row.purpose == Linking {
        found := ResolveLinking(p, row.user, answer.claims);
      } else {
        found := ResolveUser(p, answer.claims, answer.random);
      }
      if found.Err? || found.value.user !in users || !users[found.value.user].active {
        return row.(status := Failed);
      }
      r := row.(status := Done);
      if r.purpose != Linking { r := r.(user := Some(found.value.user)); }
    }

    /** The second half: settles the claimed row by the provider's answer. A row that was purged while
        the provider was asked makes the transaction fail, and nothing is stored. */
    method FinishRequest(i: nat, ghost f: nat, answer: Answer, p: Provider) returns (stored: bool)
      requires OidcRuns.Consistent(Accounts()) && f in flights && flights[f] == i
      modifies this
      ensures State() == Finished(old(State()), f, answer, p)
      ensures stored <==> i in old(rows)
    {
      stored := i in rows;
      if stored {
        var r := Settle(rows[i], answer, p);
        rows := rows[i := r];
        Land(f, answer, SignedIn(r));
      } else {
        Land(f, answer, None);
      }
    }

    /** The callback is over; the exchange is noted if there was one. */
    ghost method Land(f: nat, answer: Answer, user: Option<nat>)
      requires f in flights
      modifies this`flights, this`exchanges
      ensures flights == old(flights) - {f}
      ensures exchanges
           == if Presents(answer) then old(exchanges) + [Exchange(old(flights)[f], user)] else old(exchanges)
    {
      if Presents(answer) { exchanges := exchanges + [Exchange(flights[f], user)]; }
      flights := flights - {f};
    }

    /** The client's poll; a result is deleted with the answer that hands it over. */
    method Collect(handle: string, id: string, uuid: string, now: int) returns (r: Answered)
      requires UniqueRows(rows)
      modifies this`rows, this`handed
      ensures State() == Polled(hash, old(State()), handle, id, uuid, now)
      ensures r == PollAnswer(hash, old(State()), handle, id, uuid, now)
    {
      if i :| i in rows && rows[i].handle == Some(hash(handle)) && rows[i].purpose == Client {
        OneHandleRow(rows, i, hash(handle));
        var row := rows[i];
        if row.expires < now || !SameInstall(row, id, uuid) { return Unknown; }
        if row.status in {Pending, Exchanging} { return StillPending; }
        var user := if row.status == Done && row.user.Some? && row.user.value in users then row.user else None;
        rows := rows - {i};
        handed := handed + [Hand(i, user, id, uuid)];
        return Collected(user);
      }
      assert forall i :: !HasHandle(rows, i, hash(handle));
      return Unknown;
    }

    method PurgeExpired(now: int) returns (count: nat)
      modifies this`rows
      ensures State() == Purged(old(State()), now)
      ensures count == |old(rows)| - |rows|
    {
      var expired := set i | i in rows && rows[i].expires < now - DAY;
      FewerRows(rows, expired);
      rows := rows - expired;
      count := |expired|;
    }
  }

  lemma FewerRows(rows: map<nat, Request>, gone: set<nat>)
    requires gone <= rows.Keys
    ensures |rows - gone| == |rows| - |gone|
  {
    assert (rows - gone).Keys == rows.Keys - gone;
    assert |rows.Keys - gone| == |rows.Keys| - |gone|;
  }

  lemma OneIdentity(db: Db, issuer: string, subject: string)
    requires OidcRuns.ProperMap(db)
    ensures forall i, j :: Names(db, i, issuer, subject) && Names(db, j, issuer, subject) ==> i == j
  {
    forall i, j | Names(db, i, issuer, subject) && Names(db, j, issuer, subject) ensures i == j {
      assert OidcRuns.SameAccount(db.identities[i], db.identities[j]);
    }
  }

  lemma OneStateRow(rows: map<nat, Request>, i: nat, h: string)
    requires UniqueRows(rows) && i in rows && rows[i].state == h
    ensures HasState(rows, i, h) && forall j :: HasState(rows, j, h) ==> j == i
  {
    assert HasState(rows, i, h);
    forall j | HasState(rows, j, h) ensures j == i { TheStateRow(rows, i, j, h); }
  }

  lemma OneHandleRow(rows: map<nat, Request>, i: nat, h: string)
    requires UniqueRows(rows) && i in rows && rows[i].handle == Some(h) && rows[i].purpose == Client
    ensures HasHandle(rows, i, h) && forall j :: HasHandle(rows, j, h) ==> j == i
  {
    assert HasHandle(rows, i, h);
    forall j | HasHandle(rows, j, h) ensures j == i { TheHandleRow(rows, i, j, h); }
  }

  lemma Lone(s: set<nat>, u: nat)
    requires u in s && |s| <= 1
    ensures s == {u}
  {
    assert |s - {u}| == |s| - 1;
    assert s - {u} == {};
  }
}
