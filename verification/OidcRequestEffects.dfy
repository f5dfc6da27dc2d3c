/** What one request to the sign-in service does, told from the row it is about. */
module OidcRequestEffects {
  import opened Common
  import opened OidcIdentities
  import opened OidcRequests

  /** A stored id is the one sent, cut to the width of its column; none if none or an empty one is sent. */
  ghost predicate HeldId(sent: Option<string>, width: nat, held: Option<string>) {
    match sent
    case None => held.None?
    case Some(text) =>
      if text == "" then held.None? else held == Some(if |text| <= width then text else text[..width])
  }

  /** The row has this state or, if the sign-in is a client's, this poll handle. */
  ghost predicate InUse(hash: string -> string, s: Server, e: Event, i: nat)
    requires e.Begin?
  {
    && i in s.rows
    && (s.rows[i].state == hash(e.state) || (e.purpose == Client && s.rows[i].handle == Some(hash(e.token))))
  }

  /** A sign-in begins unless its state or its poll handle is in use. Its row holds for ten minutes; the one
      token generated is the poll handle of a client and the browser cookie of the others. */
  lemma BeginStores(hash: string -> string, s: Server, e: Event)
    requires Sound(s) && e.Begin?
    ensures if exists i :: InUse(hash, s, e, i) then Step(hash, s, e) == s
            else
              var t := Step(hash, s, e);
              && s.nextRow !in s.rows && s.nextRow in t.rows && t.rows == s.rows[s.nextRow := t.rows[s.nextRow]]
              && var r := t.rows[s.nextRow];
              && r.state == hash(e.state) && r.purpose == e.purpose && r.user == e.user && r.status == Pending
              && r.expires == e.at + 600
              && r.handle == (if e.purpose == Client then Some(hash(e.token)) else None)
              && r.binding == (if e.purpose == Client then None else Some(hash(e.token)))
              && HeldId(e.id, 64, r.deviceId) && HeldId(e.uuid, 128, r.deviceUuid)
  {
    var r := Started(hash, e);
    forall i | i in s.rows ensures Clash(s.rows[i], r) <==> InUse(hash, s, e, i) {}
  }

  /** The callback of a request claims it exactly if it is pending, has not expired, and the callback comes
      from the browser that began it, where it was begun in one. */
  lemma CallbackClaims(hash: string -> string, s: Server, i: nat, state: string, binding: Option<string>, now: int)
    requires Sound(s) && i in s.rows && s.rows[i].state == hash(state) && state != ""
    ensures var r, t := s.rows[i], Step(hash, s, Callback(state, binding, now));
            if r.status == Pending && now <= r.expires
               && (r.purpose == Client
                   || (binding.Some? && binding.value != "" && r.binding == Some(hash(binding.value))))
            then
              && t.rows == s.rows[i := r.(status := Exchanging)]
              && s.nextFlight in t.flights && t.flights[s.nextFlight] == i
            else t == s
  {
    forall j | HasState(s.rows, j, hash(state)) ensures j == i { TheStateRow(s.rows, i, j, hash(state)); }
    assert HasState(s.rows, i, hash(state));
  }

  /** Nothing else is a callback: without a state, or with one that no request has, nothing happens. */
  lemma OtherCallbacks(hash: string -> string, s: Server, state: string, binding: Option<string>, now: int)
    requires state == "" || forall i :: i in s.rows ==> s.rows[i].state != hash(state)
    ensures Step(hash, s, Callback(state, binding, now)) == s
  {
  }

  /** The ids a poll repeats are those stored with the request; a missing one counts as empty. */
  predicate Repeats(held: Option<string>, sent: string) {
    match held
    case None => sent == ""
    case Some(text) => sent == text
  }

  /** What a poll is told, and what it does. A request that has expired or was begun with other ids is
      unknown; one not settled is pending; a settled one is handed over, with its user if it is done and the
      user is still there, and is gone. */
  lemma PollIs(hash: string -> string, s: Server, i: nat, handle: string, id: string, uuid: string, now: int)
    requires Sound(s) && i in s.rows && s.rows[i].purpose == Client && s.rows[i].handle == Some(hash(handle))
    ensures var r, answer := s.rows[i], PollAnswer(hash, s, handle, id, uuid, now);
            var t := Step(hash, s, Poll(handle, id, uuid, now));
            if now > r.expires || !Repeats(r.deviceId, id) || !Repeats(r.deviceUuid, uuid) then
              answer == Unknown && t == s
            else if r.status == Pending || r.status == Exchanging then answer == StillPending && t == s
            else
              && t.rows == s.rows - {i} && t.accounts == s.accounts
              && answer == Collected(if r.status == Done && r.user.Some? && r.user.value in s.accounts.users
                                     then r.user else None)
  {
    forall j | HasHandle(s.rows, j, hash(handle)) ensures j == i { TheHandleRow(s.rows, i, j, hash(handle)); }
    assert HasHandle(s.rows, i, hash(handle));
  }

  /** A handle that no client's request has is unknown. */
  lemma OtherPolls(hash: string -> string, s: Server, handle: string, id: string, uuid: string, now: int)
    requires forall i :: i in s.rows && s.rows[i].purpose == Client ==> s.rows[i].handle != Some(hash(handle))
    ensures PollAnswer(hash, s, handle, id, uuid, now) == Unknown && Step(hash, s, Poll(handle, id, uuid, now)) == s
  {
  }

  /** A purge takes exactly what expired more than a day ago. */
  lemma PurgeTakes(hash: string -> string, s: Server, now: int, i: nat)
    ensures i in Step(hash, s, Purge(now)).rows <==> i in s.rows && now - s.rows[i].expires <= 86400
    ensures i in Step(hash, s, Purge(now)).rows ==> Step(hash, s, Purge(now)).rows[i] == s.rows[i]
  {
  }

  /** What the answer of the provider settles, when it is no valid token: the request has failed, and no
      account is touched. */
  lemma NoTokenFails(accounts: Db, r: Request, answer: Answer, p: Provider)
    requires !answer.Token?
    ensures Settled(accounts, r, answer, p) == (accounts, r.(status := Failed))
  {
  }

  /** The second half of a callback settles the row that was claimed, if it is still there; and a code was
      presented exactly if the provider sent one. */
  lemma FinishSettles(hash: string -> string, s: Server, f: nat, answer: Answer, p: Provider)
    requires f in s.flights
    ensures var t, i := Step(hash, s, Finish(f, answer, p)), s.flights[f];
            && t.flights == s.flights - {f}
            && (if i in s.rows then
                  var settled := Settled(s.accounts, s.rows[i], answer, p);
                  t.rows == s.rows[i := settled.1] && t.accounts == settled.0
                else t.rows == s.rows && t.accounts == s.accounts)
            && |t.exchanges| == |s.exchanges| + (if answer.ProviderError? || answer.NoCode? then 0 else 1)
  {
  }
}
