/** One sign-in in progress, from the redirect to the provider until its result is collected:
    what each request to the service does to the table. A callback is two steps, because the
    claim is committed before the provider is contacted. */
module OidcRequests {
  import opened Common
  import opened OidcIdentities
  import OidcRuns

  datatype Purpose = Client | WebUi | Linking

  datatype Status = Pending | Exchanging | Done | Failed

  datatype Request = Request(
    state: string,
    handle: Option<string>,
    purpose: Purpose,
    binding: Option<string>,
    deviceId: Option<string>,
    deviceUuid: Option<string>,
    user: Option<nat>,
    expires: int,
    status: Status)

  /** What the provider sends back, and what exchanging the code comes to. */
  datatype Answer =
    | ProviderError
    | NoCode
    | ExchangeFailed
    | Token(claims: Claims, random: string)

  /** A code presented to the provider for a request, and the user it signed in, if any. */
  datatype Exchange = Exchange(row: nat, user: Option<nat>)

  /** A result given to a polling client; no user means the sign-in failed. */
  datatype Hand = Hand(row: nat, user: Option<nat>, id: string, uuid: string)

  /** The tables, the callbacks between their two halves (`flights`: which row each one claimed),
      and three logs: the requests as they began, the exchanges, the results handed over. */
  datatype Server = Server(
    rows: map<nat, Request>,
    nextRow: nat,
    accounts: Db,
    flights: map<nat, nat>,
    nextFlight: nat,
    begun: map<nat, Request>,
    exchanges: seq<Exchange>,
    handed: seq<Hand>)

  /** What a poll is answered with. */
  datatype Answered = Unknown | StillPending | Collected(user: Option<nat>)

  datatype Event =
    | Begin(purpose: Purpose, state: string, token: string, id: Option<string>, uuid: Option<string>,
            user: Option<nat>, at: int)
    | Callback(state: string, binding: Option<string>, at: int)
    | Finish(flight: nat, answer: Answer, provider: Provider)
    | Crash(flight: nat)
    | Poll(handle: string, pollId: string, pollUuid: string, at: int)
    | Purge(at: int)
    | Account(change: OidcRuns.Event)

  const LIFETIME: int := 600
  const DAY: int := 86400

  // ---- Fields -----------------------------------------------------------------------

  /** An empty text is stored as nothing, a long one is cut. */
  function Stored(text: Option<string>, limit: nat): Option<string> {
    if text.None? || text.value == "" then None else Some(Take(text.value, limit))
  }

  function OrEmpty(text: Option<string>): string {
    if text.Some? then text.value else ""
  }

  /** `hash` is the token hash, any function at all. The one generated `token` is the poll handle
      of a client request and the browser cookie of the others. */
  function Started(hash: string -> string, e: Event): Request
    requires e.Begin?
  {
    Request(hash(e.state),
            if e.purpose == Client then Some(hash(e.token)) else None,
            e.purpose,
            if e.purpose == Client then None else Some(hash(e.token)),
            Stored(e.id, 64), Stored(e.uuid, 128), e.user, e.at + LIFETIME, Pending)
  }

  predicate Clash(a: Request, b: Request) {
    a.state == b.state || (a.handle.Some? && a.handle == b.handle)
  }

  predicate RightBrowser(hash: string -> string, r: Request, binding: Option<string>) {
    r.purpose == Client
    || (binding.Some? && binding.value != "" && r.binding.Some? && hash(binding.value) == r.binding.value)
  }

  predicate Claimable(r: Request, now: int) {
    r.status == Pending && r.expires >= now
  }

  predicate SameInstall(r: Request, id: string, uuid: string) {
    OrEmpty(r.deviceId) == id && OrEmpty(r.deviceUuid) == uuid
  }

  predicate Collectable(r: Request, id: string, uuid: string, now: int) {
    r.expires >= now && SameInstall(r, id, uuid) && r.status in {Done, Failed}
  }

  /** The user a finished request gives out; a request whose user is gone gives out a failure. */
  function Outcome(accounts: Db, r: Request): Option<nat> {
    if r.status == Done && r.user.Some? && r.user.value in accounts.users then r.user else None
  }

  // ---- Steps ------------------------------------------------------------------------

  ghost predicate HasState(rows: map<nat, Request>, i: nat, h: string) {
    i in rows && rows[i].state == h
  }

  ghost predicate HasHandle(rows: map<nat, Request>, i: nat, h: string) {
    i in rows && rows[i].handle == Some(h) && rows[i].purpose == Client
  }

  /** The unique constraints make a clashing insert fail; then nothing is stored. */
  ghost function Begun(hash: string -> string, s: Server, e: Event): Server
    requires e.Begin?
  {
    var r := Started(hash, e);
    if exists i :: i in s.rows && Clash(s.rows[i], r) then s
    else s.(rows := s.rows[s.nextRow := r], begun := s.begun[s.nextRow := r], nextRow := s.nextRow + 1)
  }

  ghost function Claim(s: Server, i: nat): Server
    requires i in s.rows
  {
    s.(rows := s.rows[i := s.rows[i].(status := Exchanging)],
       flights := s.flights[s.nextFlight := i],
       nextFlight := s.nextFlight + 1)
  }

  ghost function CalledBack(
      hash: string -> string, s: Server, state: string, binding: Option<string>, now: int): Server {
    if state == "" then s
    else if i :| HasState(s.rows, i, hash(state)) then
      if !Claimable(s.rows[i], now) || !RightBrowser(hash, s.rows[i], binding) then s
      else Claim(s, i)
    else s
  }

  /** What an answer does to a request and to the accounts. */
  ghost function Settled(accounts: Db, r: Request, answer: Answer, p: Provider): (Db, Request) {
    match answer
    case Token(claims, random) =>
      var resolved := if r.purpose == Linking then ResolveLink(accounts, p, r.user, claims)
                      else ResolveSignIn(accounts, p, claims, random);
      (match resolved
       case Err(_) => (accounts, r.(status := Failed))
       case Ok(found) =>
         if found.user !in found.db.users || !found.db.users[found.user].active then (found.db, r.(status := Failed))
         else if r.purpose == Linking then (found.db, r.(status := Done))
         else (found.db, r.(status := Done, user := Some(found.user))))
    case _ => (accounts, r.(status := Failed))
  }

  predicate Presents(answer: Answer) {
    answer.ExchangeFailed? || answer.Token?
  }

  ghost function SignedIn(r: Request): Option<nat> {
    if r.status == Done then r.user else None
  }

  /** The second half of a callback writes the row it claimed, without looking at its status
      again. If the row is gone by then, the whole transaction fails. */
  ghost function Finished(s: Server, f: nat, answer: Answer, p: Provider): Server
    requires f in s.flights
  {
    var i := s.flights[f];
    var landed := s.(flights := s.flights - {f});
    if i !in s.rows then
      landed.(exchanges := if Presents(answer) then s.exchanges + [Exchange(i, None)] else s.exchanges)
    else
      var (accounts, r) := Settled(s.accounts, s.rows[i], answer, p);
      landed.(rows := s.rows[i := r],
              accounts := accounts,
              exchanges := if Presents(answer) then s.exchanges + [Exchange(i, SignedIn(r))] else s.exchanges)
  }

  ghost function Polled(
      hash: string -> string, s: Server, handle: string, id: string, uuid: string, now: int): Server {
    if i :| HasHandle(s.rows, i, hash(handle)) then
      if !Collectable(s.rows[i], id, uuid, now) then s
      else s.(rows := s.rows - {i},
              handed := s.handed + [Hand(i, Outcome(s.accounts, s.rows[i]), id, uuid)])
    else s
  }

  ghost function PollAnswer(
      hash: string -> string, s: Server, handle: string, id: string, uuid: string, now: int): Answered {
    if i :| HasHandle(s.rows, i, hash(handle)) then
      if s.rows[i].expires < now || !SameInstall(s.rows[i], id, uuid) then Unknown
      else if s.rows[i].status in {Pending, Exchanging} then StillPending
      else Collected(Outcome(s.accounts, s.rows[i]))
    else Unknown
  }

  ghost function Purged(s: Server, now: int): Server {
    s.(rows := map i | i in s.rows && s.rows[i].expires >= now - DAY :: s.rows[i])
  }

  ghost function Step(hash: string -> string, s: Server, e: Event): Server {
    match e
    case Begin(_, _, _, _, _, _, _) => Begun(hash, s, e)
    case Callback(state, binding, now) => CalledBack(hash, s, state, binding, now)
    case Finish(f, answer, p) => if f in s.flights then Finished(s, f, answer, p) else s
    case Crash(f) => s.(flights := s.flights - {f})
    case Poll(handle, id, uuid, now) => Polled(hash, s, handle, id, uuid, now)
    case Purge(now) => Purged(s, now)
    case Account(change) => s.(accounts := OidcRuns.Step(s.accounts, change))
  }

  ghost function After(hash: string -> string, s: Server, run: seq<Event>): Server {
    if run == [] then s else Step(hash, After(hash, s, DropLast(run)), Last(run))
  }

  // ---- What every run keeps -----------------------------------------------------------

  /** Everything about a request except how far it has come and, until it is done, its user. */
  predicate SameRequest(a: Request, b: Request) {
    b == a.(status := b.status, user := b.user)
  }

  /** One step of a request, if it moves at all. */
  predicate Moves(a: Status, b: Status) {
    (a == Pending && b == Exchanging) || (a == Exchanging && b in {Done, Failed})
  }

  predicate StaysOrMoves(a: Status, b: Status) {
    a == b || Moves(a, b)
  }

  ghost predicate UniqueRows(rows: map<nat, Request>) {
    forall i, j :: i in rows && j in rows && Clash(rows[i], rows[j]) ==> i == j
  }

  ghost predicate RowsMatchLog(rows: map<nat, Request>, begun: map<nat, Request>, nextRow: nat) {
    && (forall i :: i in rows ==> i in begun && SameRequest(begun[i], rows[i]))
    && (forall i :: i in begun ==> i < nextRow)
  }

  /** A claimed row stays `exchanging` until its one callback writes it. */
  ghost predicate FlightsHoldRows(
      rows: map<nat, Request>, begun: map<nat, Request>, flights: map<nat, nat>, nextFlight: nat) {
    && (forall f :: f in flights ==> f < nextFlight && flights[f] in begun)
    && (forall f :: f in flights && flights[f] in rows ==> rows[flights[f]].status == Exchanging)
    && (forall f, g :: f in flights && g in flights && flights[f] == flights[g] ==> f == g)
  }

  predicate IsOver(rows: map<nat, Request>, i: nat) {
    i in rows ==> rows[i].status in {Done, Failed}
  }

  ghost predicate ExchangesOver(
      rows: map<nat, Request>, begun: map<nat, Request>, flights: map<nat, nat>, log: seq<Exchange>) {
    && (forall k :: 0 <= k < |log| ==> log[k].row in begun && IsOver(rows, log[k].row) && log[k].row !in flights.Values)
    && (forall k, l :: 0 <= k < l < |log| ==> log[k].row != log[l].row)
  }

  /** Only an exchange makes a request done, and it decides the user. */
  ghost predicate DoneByExchange(rows: map<nat, Request>, log: seq<Exchange>) {
    forall i :: i in rows && rows[i].status == Done ==> Exchange(i, rows[i].user) in log
  }

  ghost predicate HandOk(rows: map<nat, Request>, begun: map<nat, Request>, log: seq<Exchange>, h: Hand) {
    && h.row !in rows && h.row in begun
    && SameInstall(begun[h.row], h.id, h.uuid) && begun[h.row].purpose == Client
    && (h.user.Some? ==> Exchange(h.row, h.user) in log)
  }

  ghost predicate HandsOk(rows: map<nat, Request>, begun: map<nat, Request>, log: seq<Exchange>, handed: seq<Hand>) {
    && (forall k :: 0 <= k < |handed| ==> HandOk(rows, begun, log, handed[k]))
    && (forall k, l :: 0 <= k < l < |handed| ==> handed[k].row != handed[l].row)
  }

  ghost predicate Sound(s: Server) {
    && UniqueRows(s.rows)
    && RowsMatchLog(s.rows, s.begun, s.nextRow)
    && FlightsHoldRows(s.rows, s.begun, s.flights, s.nextFlight)
    && ExchangesOver(s.rows, s.begun, s.flights, s.exchanges)
    && DoneByExchange(s.rows, s.exchanges)
    && HandsOk(s.rows, s.begun, s.exchanges, s.handed)
    && OidcRuns.Consistent(s.accounts)
  }

  lemma TheStateRow(rows: map<nat, Request>, i: nat, j: nat, h: string)
    requires UniqueRows(rows) && HasState(rows, i, h) && HasState(rows, j, h)
    ensures i == j
  {
    assert Clash(rows[i], rows[j]);
  }

  lemma TheHandleRow(rows: map<nat, Request>, i: nat, j: nat, h: string)
    requires UniqueRows(rows) && HasHandle(rows, i, h) && HasHandle(rows, j, h)
    ensures i == j
  {
    assert Clash(rows[i], rows[j]);
  }

  lemma BegunKeeps(hash: string -> string, s: Server, e: Event)
    requires Sound(s) && e.Begin?
    ensures Sound(Begun(hash, s, e))
  {
    var r, t := Started(hash, e), Begun(hash, s, e);
    if t != s {
      assert forall i :: i in s.rows ==> !Clash(s.rows[i], r) && !Clash(r, s.rows[i]);
    }
  }

  lemma ClaimFlights(rows: map<nat, Request>, begun: map<nat, Request>, flights: map<nat, nat>, next: nat, i: nat)
    requires FlightsHoldRows(rows, begun, flights, next)
    requires i in rows && i in begun && rows[i].status == Pending
    ensures FlightsHoldRows(rows[i := rows[i].(status := Exchanging)], begun, flights[next := i], next + 1)
    ensures i !in flights.Values
  {
  }

  lemma RowsStayUnique(rows: map<nat, Request>, i: nat, r: Request)
    requires UniqueRows(rows) && i in rows && SameRequest(rows[i], r)
    ensures UniqueRows(rows[i := r])
  {
    forall j, k | j in rows && k in rows && Clash(rows[i := r][j], rows[i := r][k]) ensures j == k {
      assert Clash(rows[j], rows[k]);
    }
  }

  /** Claiming a pending row touches no log: the row is in none of them. */
  lemma ClaimLogs(s: Server, i: nat, r: Request)
    requires Sound(s) && i in s.rows && s.rows[i].status == Pending && r == s.rows[i].(status := Exchanging)
    ensures ExchangesOver(s.rows[i := r], s.begun, s.flights[s.nextFlight := i], s.exchanges)
    ensures DoneByExchange(s.rows[i := r], s.exchanges)
    ensures HandsOk(s.rows[i := r], s.begun, s.exchanges, s.handed)
  {
    assert forall k :: k in s.flights[s.nextFlight := i].Values ==> k in s.flights.Values || k == i;
  }

  lemma ClaimKeeps(s: Server, i: nat)
    requires Sound(s) && i in s.rows && s.rows[i].status == Pending
    ensures Sound(Claim(s, i))
  {
    var r := s.rows[i].(status := Exchanging);
    ClaimFlights(s.rows, s.begun, s.flights, s.nextFlight, i);
    RowsStayUnique(s.rows, i, r);
    ClaimLogs(s, i, r);
  }

  lemma CallbackKeeps(hash: string -> string, s: Server, state: string, binding: Option<string>, now: int)
    requires Sound(s)
    ensures Sound(CalledBack(hash, s, state, binding, now))
  {
    if i :| HasState(s.rows, i, hash(state)) {
      forall j | HasState(s.rows, j, hash(state)) ensures j == i { TheStateRow(s.rows, i, j, hash(state)); }
      if Claimable(s.rows[i], now) { ClaimKeeps(s, i); }
    }
  }

  lemma SettledKeeps(accounts: Db, r: Request, answer: Answer, p: Provider)
    requires OidcRuns.Consistent(accounts)
    ensures var (after, t) := Settled(accounts, r, answer, p);
            && OidcRuns.Consistent(after) && SameRequest(r, t)
            && t.status in {Done, Failed} && (t.status == Done ==> answer.Token?)
  {
    if answer.Token? {
      OidcRuns.LinkKeeps(accounts, p, r.user, answer.claims);
      OidcRuns.SignInKeeps(accounts, p, answer.claims, answer.random);
    }
  }

  /** Writing the claimed row, on the parts of the state one by one. */
  lemma WriteKeepsLogs(s: Server, f: nat, r: Request, log: seq<Exchange>)
    requires Sound(s) && f in s.flights && s.flights[f] in s.rows
    requires SameRequest(s.rows[s.flights[f]], r) && r.status in {Done, Failed}
    requires log == s.exchanges + [Exchange(s.flights[f], SignedIn(r))] || (log == s.exchanges && r.status == Failed)
    ensures var rows := s.rows[s.flights[f] := r];
            && UniqueRows(rows) && RowsMatchLog(rows, s.begun, s.nextRow)
            && FlightsHoldRows(rows, s.begun, s.flights - {f}, s.nextFlight)
            && DoneByExchange(rows, log)
            && HandsOk(rows, s.begun, log, s.handed)
  {
    var i := s.flights[f];
    var rows := s.rows[i := r];
    assert forall x :: x in s.exchanges ==> x in log;
    forall k | k in rows && rows[k].status == Done ensures Exchange(k, rows[k].user) in log {
      if k == i { assert log[|log| - 1] == Exchange(i, r.user); }
    }
    forall k, l | k in rows && l in rows && Clash(rows[k], rows[l]) ensures k == l {
      assert Clash(s.rows[k], s.rows[l]);
    }
  }

  lemma WriteKeepsExchanges(s: Server, f: nat, rows: map<nat, Request>, user: Option<nat>)
    requires Sound(s) && f in s.flights
    requires IsOver(rows, s.flights[f])
    requires forall k :: k in rows && k != s.flights[f] ==> k in s.rows && rows[k] == s.rows[k]
    ensures ExchangesOver(rows, s.begun, s.flights - {f}, s.exchanges)
    ensures ExchangesOver(rows, s.begun, s.flights - {f}, s.exchanges + [Exchange(s.flights[f], user)])
  {
    var i, rest := s.flights[f], s.flights - {f};
    assert forall k :: k in rest.Values ==> k in s.flights.Values;
    assert i in s.flights.Values;
    assert i !in rest.Values by {
      assert forall g :: g in rest ==> g != f && rest[g] == s.flights[g] && s.flights[g] != i;
    }
  }

  lemma FinishRowKeeps(s: Server, f: nat, answer: Answer, p: Provider)
    requires Sound(s) && f in s.flights && s.flights[f] in s.rows
    ensures Sound(Finished(s, f, answer, p))
  {
    var i, t := s.flights[f], Finished(s, f, answer, p);
    SettledKeeps(s.accounts, s.rows[i], answer, p);
    var r := Settled(s.accounts, s.rows[i], answer, p).1;
    WriteKeepsLogs(s, f, r, t.exchanges);
    WriteKeepsExchanges(s, f, t.rows, SignedIn(r));
  }

  lemma FinishLostKeeps(s: Server, f: nat, answer: Answer, p: Provider)
    requires Sound(s) && f in s.flights && s.flights[f] !in s.rows
    ensures Sound(Finished(s, f, answer, p))
  {
    var t := Finished(s, f, answer, p);
    WriteKeepsExchanges(s, f, s.rows, None);
    assert forall x :: x in s.exchanges ==> x in t.exchanges;
  }

  lemma FinishKeeps(s: Server, f: nat, answer: Answer, p: Provider)
    requires Sound(s) && f in s.flights
    ensures Sound(Finished(s, f, answer, p))
  {
    if s.flights[f] in s.rows { FinishRowKeeps(s, f, answer, p); } else { FinishLostKeeps(s, f, answer, p); }
  }

  lemma PollKeeps(hash: string -> string, s: Server, handle: string, id: string, uuid: string, now: int)
    requires Sound(s)
    ensures Sound(Polled(hash, s, handle, id, uuid, now))
  {
    if i :| HasHandle(s.rows, i, hash(handle)) {
      forall j | HasHandle(s.rows, j, hash(handle)) ensures j == i { TheHandleRow(s.rows, i, j, hash(handle)); }
    }
  }

  lemma StepKeeps(hash: string -> string, s: Server, e: Event)
    requires Sound(s)
    ensures Sound(Step(hash, s, e))
  {
    match e
    case Begin(_, _, _, _, _, _, _) => BegunKeeps(hash, s, e);
    case Callback(state, binding, now) => CallbackKeeps(hash, s, state, binding, now);
    case Finish(f, answer, p) => if f in s.flights { FinishKeeps(s, f, answer, p); }
    case Crash(f) => assert forall k :: k in (s.flights - {f}).Values ==> k in s.flights.Values;
    case Poll(handle, id, uuid, now) => PollKeeps(hash, s, handle, id, uuid, now);
    case Purge(now) =>
    case Account(change) => OidcRuns.StepConsistent(s.accounts, change);
  }

  lemma {:induction false} RunSound(hash: string -> string, s: Server, run: seq<Event>)
    requires Sound(s)
    ensures Sound(After(hash, s, run))
  {
    if run != [] {
      RunSound(hash, s, DropLast(run));
      StepKeeps(hash, After(hash, s, DropLast(run)), Last(run));
    }
  }
}
