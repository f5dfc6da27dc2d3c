/** What holds over whole runs of the sign-in requests, in whatever order the halves of
    callbacks, polls, purges and account changes come. */
module OidcRequestRuns {
  import opened Common
  import opened OidcIdentities
  import opened OidcRequests
  import OidcRuns

  ghost predicate Fresh(s: Server) {
    && s.rows == map[] && s.begun == map[] && s.flights == map[] && s.exchanges == [] && s.handed == []
    && OidcRuns.Consistent(s.accounts)
  }

  lemma FreshSound(s: Server)
    requires Fresh(s)
    ensures Sound(s)
  {
  }

  // ---- The order of the statuses ----------------------------------------------------------

  /** One row over one step: it is the same request, and it stays or moves to the next status. */
  ghost predicate RowSteps(a: Server, b: Server, i: nat) {
    i in b.rows ==>
      && i in a.rows && SameRequest(a.rows[i], b.rows[i])
      && StaysOrMoves(a.rows[i].status, b.rows[i].status)
  }

  lemma StepFollows(hash: string -> string, s: Server, e: Event, i: nat)
    requires Sound(s) && i in s.begun
    ensures i in Step(hash, s, e).begun && Step(hash, s, e).begun[i] == s.begun[i]
    ensures RowSteps(s, Step(hash, s, e), i)
  {
    if e.Finish? && e.flight in s.flights {
      FinishFollows(s, e.flight, e.answer, e.provider, i);
    } else if e.Callback? {
      CallbackFollows(hash, s, e.state, e.binding, e.at, i);
    }
  }

  lemma FinishFollows(s: Server, f: nat, answer: Answer, p: Provider, i: nat)
    requires Sound(s) && f in s.flights
    ensures RowSteps(s, Finished(s, f, answer, p), i)
  {
    if s.flights[f] in s.rows { SettledKeeps(s.accounts, s.rows[s.flights[f]], answer, p); }
  }

  lemma CallbackFollows(hash: string -> string, s: Server, state: string, binding: Option<string>, now: int, i: nat)
    ensures RowSteps(s, CalledBack(hash, s, state, binding, now), i)
  {
  }

  /** From one status to another in any number of moves; two are enough. */
  ghost predicate Reaches(a: Status, b: Status) {
    exists c :: StaysOrMoves(a, c) && StaysOrMoves(c, b)
  }

  lemma ReachesSelf(a: Status)
    ensures Reaches(a, a)
  {
    assert StaysOrMoves(a, a);
  }

  lemma ReachesMore(a: Status, b: Status, c: Status)
    requires Reaches(a, b) && StaysOrMoves(b, c)
    ensures Reaches(a, c)
  {
    var d :| StaysOrMoves(a, d) && StaysOrMoves(d, b);
    var middle := if a == d || d == b then b else d;
    assert StaysOrMoves(a, middle) && StaysOrMoves(middle, c);
  }

  ghost predicate RowFollows(a: Server, b: Server, i: nat) {
    i in b.rows ==> i in a.rows && SameRequest(a.rows[i], b.rows[i]) && Reaches(a.rows[i].status, b.rows[i].status)
  }

  /** Main result. A request moves only from pending to exchanging and from exchanging to done or
      failed, one status a step; nothing but its user changes on the way, and once it is gone it
      stays gone. */
  lemma {:induction false} RunFollows(hash: string -> string, s: Server, run: seq<Event>, i: nat)
    requires Sound(s) && i in s.begun
    ensures i in After(hash, s, run).begun && After(hash, s, run).begun[i] == s.begun[i]
    ensures RowFollows(s, After(hash, s, run), i)
    ensures run != [] ==> RowSteps(After(hash, s, DropLast(run)), After(hash, s, run), i)
  {
    if run == [] {
      if i in s.rows { ReachesSelf(s.rows[i].status); }
    } else {
      var before, after := After(hash, s, DropLast(run)), After(hash, s, run);
      RunFollows(hash, s, DropLast(run), i);
      RunSound(hash, s, DropLast(run));
      StepFollows(hash, before, Last(run), i);
      if i in after.rows { ReachesMore(s.rows[i].status, before.rows[i].status, after.rows[i].status); }
    }
  }

  /** So no request ends without having been exchanged: between pending and done or failed there is
      a moment at which it is exchanging. */
  lemma {:induction false} EndsOverExchanging(
      hash: string -> string, s: Server, run: seq<Event>, i: nat) returns (k: nat)
    requires Sound(s) && i in s.begun && i in s.rows && s.rows[i].status == Pending
    requires i in After(hash, s, run).rows && After(hash, s, run).rows[i].status in {Done, Failed}
    ensures k < |run| && i in After(hash, s, run[..k]).rows && After(hash, s, run[..k]).rows[i].status == Exchanging
  {
    var init := DropLast(run);
    RunFollows(hash, s, run, i);
    EndedBefore(After(hash, s, init), After(hash, s, run), i);
    if After(hash, s, init).rows[i].status == Exchanging {
      k := |run| - 1;
    } else {
      k := EndsOverExchanging(hash, s, init, i);
      assert init[..k] == run[..k];
    }
  }

  lemma EndedBefore(a: Server, b: Server, i: nat)
    requires RowSteps(a, b, i) && i in b.rows && b.rows[i].status in {Done, Failed}
    ensures i in a.rows && a.rows[i].status in {Exchanging, Done, Failed}
  {
  }

  ghost predicate Presented(hash: string -> string, r: Request, e: Event) {
    e.Callback? && e.state != "" && hash(e.state) == r.state && Claimable(r, e.at) && RightBrowser(hash, r, e.binding)
  }

  /** A pending row moves exactly when its own callback is presented. */
  lemma WhoClaims(hash: string -> string, s: Server, e: Event, i: nat)
    requires Sound(s) && i in s.rows && i in Step(hash, s, e).rows && s.rows[i].status == Pending
    ensures Step(hash, s, e).rows[i].status != Pending <==> Presented(hash, s.rows[i], e)
  {
    if e.Finish? && e.flight in s.flights {
      assert s.flights[e.flight] != i;
    } else if e.Callback? {
      ClaimedIff(hash, s, e, i);
    }
  }

  lemma ClaimedIff(hash: string -> string, s: Server, e: Event, i: nat)
    requires UniqueRows(s.rows) && e.Callback? && i in s.rows && s.rows[i].status == Pending
    ensures CalledBack(hash, s, e.state, e.binding, e.at).rows[i].status != Pending <==> Presented(hash, s.rows[i], e)
  {
    assert HasState(s.rows, i, hash(e.state)) <==> hash(e.state) == s.rows[i].state;
    forall j, k | HasState(s.rows, j, hash(e.state)) && HasState(s.rows, k, hash(e.state)) ensures j == k {
      TheStateRow(s.rows, j, k, hash(e.state));
    }
  }

  /** An exchanging row moves exactly when the callback that claimed it comes to its second half. */
  lemma WhoEnds(hash: string -> string, s: Server, e: Event, i: nat)
    requires Sound(s) && i in s.rows && i in Step(hash, s, e).rows && s.rows[i].status == Exchanging
    ensures Step(hash, s, e).rows[i].status != Exchanging
            <==> e.Finish? && e.flight in s.flights && s.flights[e.flight] == i
  {
    if e.Finish? && e.flight in s.flights && s.flights[e.flight] in s.rows {
      SettledKeeps(s.accounts, s.rows[s.flights[e.flight]], e.answer, e.provider);
    }
  }

  /** The only step out of `pending` is the callback of the browser that began the request, and it
      leads to `exchanging`; the only step out of `exchanging` is the second half of that callback,
      and it leads to done or failed. */
  lemma WhoMoves(hash: string -> string, s: Server, e: Event, i: nat)
    requires Sound(s) && i in s.rows && i in Step(hash, s, e).rows
    ensures var a, b := s.rows[i].status, Step(hash, s, e).rows[i].status;
            && StaysOrMoves(a, b)
            && (a == Pending ==> (b != Pending <==> Presented(hash, s.rows[i], e)))
            && (a == Exchanging ==>
                  (b != Exchanging <==> e.Finish? && e.flight in s.flights && s.flights[e.flight] == i))
  {
    StepFollows(hash, s, e, i);
    if s.rows[i].status == Pending { WhoClaims(hash, s, e, i); }
    if s.rows[i].status == Exchanging { WhoEnds(hash, s, e, i); }
  }

  // ---- Exchange and hand-over at most once --------------------------------------------------

  /** Main result. From an empty table, in every run: no request's code is presented to the
      provider twice, no result is handed over twice, each one goes to the installation the
      request began with, and a user is handed over only when the exchange of that very request
      signed that user in. */
  lemma OnceEach(hash: string -> string, s: Server, run: seq<Event>)
    requires Fresh(s)
    ensures var t := After(hash, s, run);
            && (forall k, l :: 0 <= k < l < |t.exchanges| ==> t.exchanges[k].row != t.exchanges[l].row)
            && (forall k, l :: 0 <= k < l < |t.handed| ==> t.handed[k].row != t.handed[l].row)
            && (forall k :: 0 <= k < |t.handed| ==>
                  var h := t.handed[k];
                  && h.row in t.begun && t.begun[h.row].purpose == Client && SameInstall(t.begun[h.row], h.id, h.uuid)
                  && (h.user.Some? ==> Exchange(h.row, h.user) in t.exchanges))
  {
    FreshSound(s);
    RunSound(hash, s, run);
    var t := After(hash, s, run);
    forall k | 0 <= k < |t.handed| ensures HandOk(t.rows, t.begun, t.exchanges, t.handed[k]) {}
  }

  /** A poll with the handle but another id or uuid changes nothing and is answered as if there were
      no such request. */
  lemma OtherInstallLearnsNothing(
      hash: string -> string, s: Server, i: nat, handle: string, id: string, uuid: string, now: int)
    requires Sound(s) && HasHandle(s.rows, i, hash(handle)) && !SameInstall(s.rows[i], id, uuid)
    ensures Step(hash, s, Poll(handle, id, uuid, now)) == s
    ensures PollAnswer(hash, s, handle, id, uuid, now) == Unknown
  {
    forall j | HasHandle(s.rows, j, hash(handle)) ensures j == i { TheHandleRow(s.rows, i, j, hash(handle)); }
  }

  /** A finished client request that has not expired is collected by the first poll of its own
      installation, and the next poll finds nothing. */
  lemma CollectedByItsInstall(
      hash: string -> string, s: Server, i: nat, handle: string, id: string, uuid: string, now: int)
    requires Sound(s) && HasHandle(s.rows, i, hash(handle)) && Collectable(s.rows[i], id, uuid, now)
    ensures var t := Step(hash, s, Poll(handle, id, uuid, now));
            && t.handed == s.handed + [Hand(i, Outcome(s.accounts, s.rows[i]), id, uuid)]
            && PollAnswer(hash, s, handle, id, uuid, now) == Collected(Outcome(s.accounts, s.rows[i]))
            && i !in t.rows && PollAnswer(hash, t, handle, id, uuid, now) == Unknown
  {
    forall j | HasHandle(s.rows, j, hash(handle)) ensures j == i { TheHandleRow(s.rows, i, j, hash(handle)); }
    var t := Step(hash, s, Poll(handle, id, uuid, now));
    assert forall j :: HasHandle(t.rows, j, hash(handle)) ==> HasHandle(s.rows, j, hash(handle));
  }

  // ---- Another browser --------------------------------------------------------------------

  /** A callback that names a pending request but comes from another browser. */
  ghost predicate Foreign(hash: string -> string, s: Server, e: Event) {
    e.Callback? && exists i :: HasState(s.rows, i, hash(e.state)) && !RightBrowser(hash, s.rows[i], e.binding)
  }

  ghost function WithoutForeign(hash: string -> string, s: Server, run: seq<Event>): seq<Event> {
    if run == [] then []
    else if Foreign(hash, After(hash, s, DropLast(run)), Last(run)) then WithoutForeign(hash, s, DropLast(run))
    else WithoutForeign(hash, s, DropLast(run)) + [Last(run)]
  }

  lemma ForeignChangesNothing(hash: string -> string, s: Server, e: Event)
    requires Sound(s) && Foreign(hash, s, e)
    ensures Step(hash, s, e) == s
  {
    var i :| HasState(s.rows, i, hash(e.state)) && !RightBrowser(hash, s.rows[i], e.binding);
    forall j | HasState(s.rows, j, hash(e.state)) ensures j == i { TheStateRow(s.rows, i, j, hash(e.state)); }
  }

  /** Main result. Striking every callback from another browser out of a run changes nothing. */
  lemma {:induction false} ForeignCallbacksDoNotCount(hash: string -> string, s: Server, run: seq<Event>)
    requires Sound(s)
    ensures After(hash, s, WithoutForeign(hash, s, run)) == After(hash, s, run)
  {
    if run != [] {
      ForeignCallbacksDoNotCount(hash, s, DropLast(run));
      RunSound(hash, s, DropLast(run));
      var before := After(hash, s, DropLast(run));
      if Foreign(hash, before, Last(run)) {
        ForeignChangesNothing(hash, before, Last(run));
      } else {
        var kept := WithoutForeign(hash, s, DropLast(run));
        assert DropLast(kept + [Last(run)]) == kept;
      }
    }
  }

  ghost predicate Untouched(hash: string -> string, r: Request, run: seq<Event>) {
    forall k :: 0 <= k < |run| ==> !Presented(hash, r, run[k]) && !(run[k].Purge? && run[k].at - DAY > r.expires)
  }

  lemma StepWaits(hash: string -> string, s: Server, e: Event, i: nat)
    requires Sound(s) && i in s.rows && s.rows[i].status == Pending
    requires !Presented(hash, s.rows[i], e) && !(e.Purge? && e.at - DAY > s.rows[i].expires)
    ensures i in Step(hash, s, e).rows && Step(hash, s, e).rows[i] == s.rows[i]
  {
  }

  lemma {:induction false} StillWaiting(hash: string -> string, s: Server, run: seq<Event>, i: nat)
    requires Sound(s) && i in s.rows && s.rows[i].status == Pending && Untouched(hash, s.rows[i], run)
    ensures i in After(hash, s, run).rows && After(hash, s, run).rows[i] == s.rows[i]
  {
    if run != [] {
      StillWaiting(hash, s, DropLast(run), i);
      RunSound(hash, s, DropLast(run));
      StepWaits(hash, After(hash, s, DropLast(run)), Last(run), i);
    }
  }

  /** Main result. However many callbacks without its cookie, polls and other people's sign-ins
      come in between, a pending request can still be finished by the browser that began it:
      its callback claims the row, and an answer that names an active user makes it done. */
  lemma StillCompletable(
      hash: string -> string, s: Server, run: seq<Event>, i: nat, e: Event, answer: Answer, p: Provider)
    requires Sound(s) && i in s.rows && s.rows[i].status == Pending && Untouched(hash, s.rows[i], run)
    requires Presented(hash, s.rows[i], e)
    ensures var before := After(hash, s, run);
            var claimed := Step(hash, before, e);
            && i in claimed.rows && claimed.rows[i] == s.rows[i].(status := Exchanging)
            && before.nextFlight in claimed.flights && claimed.flights[before.nextFlight] == i
            && claimed.accounts == before.accounts
            && var done := Step(hash, claimed, Finish(before.nextFlight, answer, p));
            && i in done.rows && done.rows[i] == Settled(before.accounts, claimed.rows[i], answer, p).1
            && done.accounts == Settled(before.accounts, claimed.rows[i], answer, p).0
  {
    StillWaiting(hash, s, run, i);
    RunSound(hash, s, run);
    var before := After(hash, s, run);
    forall j | HasState(before.rows, j, hash(e.state)) ensures j == i { TheStateRow(before.rows, i, j, hash(e.state)); }
    assert HasState(before.rows, i, hash(e.state));
  }

  /** This provider account is linked to this user, who is active. */
  ghost predicate LinkedActive(accounts: Db, p: Provider, claims: Claims, user: nat) {
    && user in accounts.users && accounts.users[user].active
    && OidcRuns.LinkedTo(accounts, p.issuer, claims.subject, user)
  }

  /** Main result, for all three purposes and told from the tables afterwards: a request is done if and
      only if the provider's token was valid and its account is now linked to an active user, for a
      linking request to the user who asked; and that user is the one the done request carries. */
  lemma DoneIff(accounts: Db, r: Request, answer: Answer, p: Provider)
    requires OidcRuns.Consistent(accounts)
    ensures var (after, t) := Settled(accounts, r, answer, p);
            && (t.status == Done <==>
                  && answer.Token?
                  && exists user: nat :: LinkedActive(after, p, answer.claims, user)
                                    && (r.purpose == Linking ==> r.user == Some(user)))
            && (t.status == Done ==> t.user.Some? && LinkedActive(after, p, answer.claims, t.user.value))
  {
    if answer.Token? && r.purpose == Linking {
      LinkFinds(accounts, p, r.user, answer.claims);
    } else if answer.Token? {
      SignInFinds(accounts, p, answer.claims, answer.random);
    }
  }

  /** `user` is the account's one user. */
  ghost predicate NowLinked(accounts: Db, p: Provider, claims: Claims, user: nat) {
    && user in accounts.users && OidcRuns.LinkedTo(accounts, p.issuer, claims.subject, user)
    && forall other :: LinkedActive(accounts, p, claims, other) ==> other == user
  }

  lemma AddedIsLinked(accounts: Db, p: Provider, claims: Claims, user: nat, email: Option<string>)
    requires user in accounts.users && forall i :: !Names(accounts, i, p.issuer, claims.subject)
    ensures NowLinked(AddIdentity(accounts, user, p.issuer, claims.subject, email), p, claims, user)
  {
    var more := AddIdentity(accounts, user, p.issuer, claims.subject, email);
    assert Names(more, accounts.nextIdentity, p.issuer, claims.subject);
    assert forall i :: Names(more, i, p.issuer, claims.subject) && i != accounts.nextIdentity ==>
        Names(accounts, i, p.issuer, claims.subject);
  }

  lemma TouchedIsLinked(accounts: Db, p: Provider, claims: Claims, i: nat, email: Option<string>)
    requires OidcRuns.ProperMap(accounts) && Names(accounts, i, p.issuer, claims.subject)
    ensures NowLinked(Touch(accounts, i, email), p, claims, accounts.identities[i].user)
  {
    OidcRuns.TouchProper(accounts, i, email);
    assert Names(Touch(accounts, i, email), i, p.issuer, claims.subject);
    OidcRuns.FindsLink(Touch(accounts, i, email), i, p.issuer, claims.subject);
  }

  lemma LinkFinds(accounts: Db, p: Provider, target: Option<nat>, claims: Claims)
    requires OidcRuns.ProperMap(accounts)
    ensures match ResolveLink(accounts, p, target, claims)
            case Ok(found) => target == Some(found.user) && NowLinked(found.db, p, claims, found.user)
            case Err(_) => target.Some? ==> !LinkedActive(accounts, p, claims, target.value)
  {
    if i :| Names(accounts, i, p.issuer, claims.subject) {
      OidcRuns.FindsLink(accounts, i, p.issuer, claims.subject);
      TouchedIsLinked(accounts, p, claims, i, EmailOf(claims));
    } else if target.Some? && target.value in accounts.users {
      AddedIsLinked(accounts, p, claims, target.value, EmailOf(claims));
    }
  }

  lemma SignInFinds(accounts: Db, p: Provider, claims: Claims, random: string)
    requires OidcRuns.ProperMap(accounts)
    ensures match ResolveSignIn(accounts, p, claims, random)
            case Ok(found) => NowLinked(found.db, p, claims, found.user)
            case Err(_) => forall user :: !LinkedActive(accounts, p, claims, user)
  {
    if i :| Names(accounts, i, p.issuer, claims.subject) {
      OidcRuns.FindsLink(accounts, i, p.issuer, claims.subject);
      TouchedIsLinked(accounts, p, claims, i, EmailOf(claims));
    } else {
      UnlinkedFinds(accounts, p, claims, random);
    }
  }

  lemma UnlinkedFinds(accounts: Db, p: Provider, claims: Claims, random: string)
    requires forall i :: !Names(accounts, i, p.issuer, claims.subject)
    ensures var r := ResolveUnlinked(accounts, p, claims, random);
            r.Ok? ==> NowLinked(r.value.db, p, claims, r.value.user)
  {
    var email, r := EmailOf(claims), ResolveUnlinked(accounts, p, claims, random);
    if r.Ok? && r.value.created {
      CreatedIsLinked(accounts, p, claims, email.value, random);
    } else if r.Ok? {
      AddedIsLinked(accounts, p, claims, r.value.user, email);
    }
  }

  lemma CreatedIsLinked(accounts: Db, p: Provider, claims: Claims, email: string, random: string)
    requires forall i :: !Names(accounts, i, p.issuer, claims.subject)
    ensures var r := Create(accounts, p, claims, email, random); NowLinked(r.db, p, claims, r.user)
  {
    var name := Candidate(BaseName(claims, email, random),
                          FirstFree(TakenNames(accounts), BaseName(claims, email, random), 1));
    var user := User(name, Some(email), false, false, true, true);
    var more := accounts.(users := accounts.users[accounts.nextUser := user], nextUser := accounts.nextUser + 1);
    assert forall i :: Names(more, i, p.issuer, claims.subject) ==> Names(accounts, i, p.issuer, claims.subject);
    AddedIsLinked(more, p, claims, accounts.nextUser, Some(email));
  }

  /** The active user a validated token signs in, if any. */
  ghost function UserSignedIn(accounts: Db, answer: Answer, p: Provider): Option<nat> {
    if !answer.Token? then None
    else
      var found := ResolveSignIn(accounts, p, answer.claims, answer.random);
      if found.Ok? && found.value.user in found.value.db.users && found.value.db.users[found.value.user].active
      then Some(found.value.user) else None
  }

  /** Main result. Once the provider has answered a client's request, the next poll of the installation
      that began it, before it expires, hands over the user whom the token signs in if that is an
      active one, and a failure in every other case. */
  lemma AnswerReachesClient(hash: string -> string, s: Server, f: nat, answer: Answer, p: Provider,
                            handle: string, id: string, uuid: string, now: int)
    requires Sound(s) && f in s.flights && HasHandle(s.rows, s.flights[f], hash(handle))
    requires SameInstall(s.rows[s.flights[f]], id, uuid) && s.rows[s.flights[f]].expires >= now
    ensures PollAnswer(hash, Step(hash, s, Finish(f, answer, p)), handle, id, uuid, now)
         == Collected(UserSignedIn(s.accounts, answer, p))
  {
    var i := s.flights[f];
    var t := Finished(s, f, answer, p);
    SettledKeeps(s.accounts, s.rows[i], answer, p);
    SettledOutcome(s.accounts, s.rows[i], answer, p);
    RowsStayUnique(s.rows, i, t.rows[i]);
    ThePoll(hash, t, i, handle, id, uuid, now);
  }

  lemma SettledOutcome(accounts: Db, r: Request, answer: Answer, p: Provider)
    requires OidcRuns.Consistent(accounts) && r.purpose == Client
    ensures var (after, t) := Settled(accounts, r, answer, p); Outcome(after, t) == UserSignedIn(accounts, answer, p)
  {
  }

  lemma ThePoll(hash: string -> string, s: Server, i: nat, handle: string, id: string, uuid: string, now: int)
    requires UniqueRows(s.rows) && HasHandle(s.rows, i, hash(handle)) && Collectable(s.rows[i], id, uuid, now)
    ensures PollAnswer(hash, s, handle, id, uuid, now) == Collected(Outcome(s.accounts, s.rows[i]))
  {
    forall j | HasHandle(s.rows, j, hash(handle)) ensures j == i { TheHandleRow(s.rows, i, j, hash(handle)); }
  }
}
