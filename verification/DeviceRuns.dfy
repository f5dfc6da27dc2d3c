/** Whole runs of requests against the device table: what strangers cannot change, and what the
    approval machine keeps. */
module DeviceRuns {
  import opened Common
  import opened Devices
  import Connections

  datatype Event =
    | Sysinfo(id: string, facts: Facts, session: Option<User>, now: int)
    | Login(id: string, facts: Facts, user: User, now: int)
    | HeartbeatIn(beat: Beat, now: int)
    | ApproveDevice(id: string)
    | RejectDevice(id: string)
    | AcceptUuid(id: string)
    | RejectUuid(id: string)
    | Disconnect(id: string, ids: Option<seq<nat>>)
    | SetOwner(id: string, owner: Option<nat>)
    | SetWatch(id: string, watch: bool)
    | SetArchived(id: string, archived: bool, now: int)
    | Delete(id: string)

  /** What the caller is told. Uploads are acknowledged alike whatever happens. A request about one
      device finds it or not; a decision then says whether it changed anything. */
  datatype Answer =
    | Acknowledged
    | Heard(response: Response)
    | NotFound
    | Changed(yes: bool)
    | Picked(ids: Option<seq<nat>>)

  ghost function Target(ev: Event): string {
    match ev
    case HeartbeatIn(beat, _) => beat.id
    case _ => ev.id
  }

  ghost predicate IsUpload(ev: Event) {
    ev.Sysinfo? || ev.Login?
  }

  ghost function UploadOf(s: Settings, known: Option<Device>, ev: Event): Upload
    requires IsUpload(ev)
  {
    match ev
    case Sysinfo(id, facts, session, _) => SysinfoUpload(known, s, id, facts, session)
    case Login(id, facts, user, _) => LoginUpload(known, s, id, facts, user)
  }

  /** A request about one device that is on record. */
  ghost function Managed(d: Device, ev: Event): Device {
    match ev
    case ApproveDevice(_) => SetApproval(d, true)
    case RejectDevice(_) => if d.approval == Rejected then d else SetApproval(d, false)
    case AcceptUuid(_) => if d.parked.Some? then Adopt(d) else d
    case RejectUuid(_) => d.(parked := None)
    case Disconnect(_, ids) =>
      (match Connections.Queued(d.columns, ids)
       case None => d
       case Some((c, _)) => d.(columns := c))
    case SetOwner(_, owner) => d.(owner := owner)
    case SetWatch(_, watch) => d.(watchOffline := watch)
    case SetArchived(_, archived, now) =>
      if archived && d.archivedAt.None? then d.(archivedAt := Some(now), watchOffline := false)
      else if !archived then d.(archivedAt := None)
      else d
    case _ => d
  }

  /** What an event makes of the device it is about, `waiting` devices being pending. */
  ghost function Next(s: Settings, known: Option<Device>, ev: Event, waiting: nat): Option<Device> {
    if IsUpload(ev) then
      match Register(known, s, UploadOf(s, known, ev), ev.now, waiting)
      case Ok(d) => Some(d)
      case Err(_) => known
    else if ev.HeartbeatIn? then Heartbeat(known, ev.beat, ev.now).0
    else if ev.Delete? || known.None? then None
    else Some(Managed(known.value, ev))
  }

  ghost function Reply(known: Option<Device>, ev: Event): Answer {
    if IsUpload(ev) then Acknowledged
    else if ev.HeartbeatIn? then Heard(Heartbeat(known, ev.beat, ev.now).1)
    else if known.None? then NotFound
    else
      match ev
      case ApproveDevice(_) => Changed(known.value.approval != Approved)
      case RejectDevice(_) => Changed(known.value.approval != Rejected)
      case AcceptUuid(_) => Changed(known.value.parked.Some?)
      case RejectUuid(_) => Changed(known.value.parked.Some?)
      case Disconnect(_, ids) =>
        (match Connections.Queued(known.value.columns, ids)
         case None => Picked(None)
         case Some((_, chosen)) => Picked(Some(chosen)))
      case _ => Acknowledged
  }

  ghost function Step(s: Settings, db: Table, ev: Event): Table {
    With(db, Target(ev), Next(s, Lookup(db, Target(ev)), ev, |PendingIds(db)|))
  }

  ghost function Final(s: Settings, db: Table, run: seq<Event>): Table
    decreases |run|
  {
    if run == [] then db else Final(s, Step(s, db, run[0]), run[1..])
  }

  ghost function Answers(s: Settings, db: Table, run: seq<Event>): seq<Answer>
    decreases |run|
  {
    if run == [] then [] else
    [Reply(Lookup(db, Target(run[0])), run[0])] + Answers(s, Step(s, db, run[0]), run[1..])
  }

  lemma StepLookup(s: Settings, db: Table, ev: Event, id: string)
    ensures Lookup(Step(s, db, ev), id) ==
            if id == Target(ev) then Next(s, Lookup(db, id), ev, |PendingIds(db)|) else Lookup(db, id)
  {
  }

  // ---- Another install cannot interfere ------------------------------------------------

  /** The upload comes with the login of the device's owner or of an administrator: a session counts while
      its user is active, a sign-in is one itself. */
  ghost predicate Speaks(d: Device, ev: Event) {
    match ev
    case Sysinfo(_, _, session, _) =>
      session.Some? && session.value.active && (session.value.admin || d.owner == Some(session.value.id))
    case Login(_, _, user, _) => user.admin || d.owner == Some(user.id)
    case _ => false
  }

  /** An upload that carries a uuid other than the recorded one without speaking for the device, or a
      heartbeat that does not carry the recorded one. */
  ghost predicate Foreign(known: Option<Device>, ev: Event) {
    && known.Some? && Uuid in known.value.facts
    && if ev.HeartbeatIn? then ev.beat.uuid != Some(known.value.facts[Uuid])
       else
         && IsUpload(ev) && !Speaks(known.value, ev)
         && Uuid in ev.facts && ev.facts[Uuid] != known.value.facts[Uuid]
  }

  /** The run without its foreign requests. */
  ghost function Strike(s: Settings, db: Table, run: seq<Event>): seq<Event>
    decreases |run|
  {
    if run == [] then [] else
    var rest := Strike(s, Step(s, db, run[0]), run[1..]);
    if Foreign(Lookup(db, Target(run[0])), run[0]) then rest else [run[0]] + rest
  }

  /** The answers to the requests that are not foreign. */
  ghost function HomeAnswers(s: Settings, db: Table, run: seq<Event>): seq<Answer>
    decreases |run|
  {
    if run == [] then [] else
    var known, rest := Lookup(db, Target(run[0])), HomeAnswers(s, Step(s, db, run[0]), run[1..]);
    if Foreign(known, run[0]) then rest else [Reply(known, run[0])] + rest
  }

  /** A device apart from the uuid parked on it. */
  ghost function Core(d: Option<Device>): Option<Device> {
    if d.None? then None else Some(d.value.(parked := None))
  }

  ghost predicate Same(a: Table, b: Table) {
    forall id :: Core(Lookup(a, id)) == Core(Lookup(b, id))
  }

  lemma SamePending(a: Table, b: Table)
    requires Same(a, b)
    ensures PendingIds(a) == PendingIds(b)
  {
    forall id ensures id in PendingIds(a) <==> id in PendingIds(b) {
      assert Core(Lookup(a, id)) == Core(Lookup(b, id));
    }
  }

  lemma ForeignChangesNothing(s: Settings, known: Option<Device>, ev: Event, waiting: nat)
    requires s.uuidPolicy != Allow && Foreign(known, ev)
    ensures Core(Next(s, known, ev, waiting)) == Core(known)
  {
  }

  lemma ReportedCore(d: Device, parked: Option<Parked>, u: Upload, now: int)
    ensures Reported(d, u, now).(parked := None) == Reported(d.(parked := parked), u, now).(parked := None)
  {
  }

  /** Whatever uuid is parked on a device makes no difference to an upload. */
  lemma RegisterCore(d: Device, parked: Option<Parked>, s: Settings, u: Upload, now: int, waiting: nat)
    ensures var r, t := Register(Some(d), s, u, now, waiting), Register(Some(d.(parked := parked)), s, u, now, waiting);
            r.Ok? && t.Ok? && r.value.(parked := None) == t.value.(parked := None)
  {
    ReportedCore(d, parked, u, now);
  }

  lemma SameUpload(s: Settings, a: Option<Device>, b: Option<Device>, ev: Event, waiting: nat)
    requires Core(a) == Core(b) && IsUpload(ev)
    ensures UploadOf(s, a, ev) == UploadOf(s, b, ev)
    ensures Core(Next(s, a, ev, waiting)) == Core(Next(s, b, ev, waiting))
  {
    if a.Some? {
      assert a.value.owner == b.value.owner;
      assert b.value == a.value.(parked := b.value.parked);
      RegisterCore(a.value, b.value.parked, s, UploadOf(s, a, ev), ev.now, waiting);
    }
  }

  lemma SameNext(s: Settings, a: Option<Device>, b: Option<Device>, ev: Event, waiting: nat)
    requires Core(a) == Core(b) && !ev.AcceptUuid?
    ensures Core(Next(s, a, ev, waiting)) == Core(Next(s, b, ev, waiting))
    ensures ev.RejectUuid? || Reply(a, ev) == Reply(b, ev)
    ensures Foreign(a, ev) <==> Foreign(b, ev)
  {
    if a.Some? {
      assert a.value.(parked := None) == b.value.(parked := None);
    }
    if IsUpload(ev) {
      SameUpload(s, a, b, ev, waiting);
    }
  }

  lemma SameStep(s: Settings, a: Table, b: Table, ev: Event)
    requires Same(a, b) && !ev.AcceptUuid?
    ensures Same(Step(s, a, ev), Step(s, b, ev))
  {
    SamePending(a, b);
    forall id ensures Core(Lookup(Step(s, a, ev), id)) == Core(Lookup(Step(s, b, ev), id)) {
      StepLookup(s, a, ev, id);
      StepLookup(s, b, ev, id);
      assert Core(Lookup(a, id)) == Core(Lookup(b, id));
      if id == Target(ev) { SameNext(s, Lookup(a, id), Lookup(b, id), ev, |PendingIds(a)|); }
    }
  }

  lemma ForeignStep(s: Settings, a: Table, b: Table, ev: Event)
    requires s.uuidPolicy != Allow && Same(a, b) && Foreign(Lookup(a, Target(ev)), ev)
    ensures Same(Step(s, a, ev), b)
  {
    forall id ensures Core(Lookup(Step(s, a, ev), id)) == Core(Lookup(b, id)) {
      StepLookup(s, a, ev, id);
      assert Core(Lookup(a, id)) == Core(Lookup(b, id));
      if id == Target(ev) { ForeignChangesNothing(s, Lookup(a, id), ev, |PendingIds(a)|); }
    }
  }

  /** The two lists answer each of these requests alike, but for the decisions to reject a uuid. */
  ghost predicate AlikeButDecisions(run: seq<Event>, a: seq<Answer>, b: seq<Answer>) {
    |a| == |b| == |run| && forall i :: 0 <= i < |run| && !run[i].RejectUuid? ==> a[i] == b[i]
  }

  lemma AlikeFirst(ev: Event, x: Answer, y: Answer, run: seq<Event>, a: seq<Answer>, b: seq<Answer>)
    requires AlikeButDecisions(run, a, b) && (ev.RejectUuid? || x == y)
    ensures AlikeButDecisions([ev] + run, [x] + a, [y] + b)
  {
  }

  lemma StruckFirst(s: Settings, db: Table, ev: Event, run: seq<Event>)
    ensures Final(s, db, [ev] + run) == Final(s, Step(s, db, ev), run)
    ensures Answers(s, db, [ev] + run) == [Reply(Lookup(db, Target(ev)), ev)] + Answers(s, Step(s, db, ev), run)
  {
    assert ([ev] + run)[0] == ev && ([ev] + run)[1..] == run;
  }

  lemma {:induction false} StruckRunFollows(s: Settings, a: Table, b: Table, run: seq<Event>)
    requires s.uuidPolicy != Allow && Same(a, b)
    requires forall i :: 0 <= i < |run| ==> !run[i].AcceptUuid?
    ensures Same(Final(s, a, run), Final(s, b, Strike(s, a, run)))
    ensures AlikeButDecisions(Strike(s, a, run), HomeAnswers(s, a, run), Answers(s, b, Strike(s, a, run)))
    decreases |run|
  {
    if run != [] {
      var ev, rest := run[0], run[1..];
      var known := Lookup(a, Target(ev));
      if Foreign(known, ev) {
        ForeignStep(s, a, b, ev);
        StruckRunFollows(s, Step(s, a, ev), b, rest);
      } else {
        var other, a', b' := Lookup(b, Target(ev)), Step(s, a, ev), Step(s, b, ev);
        assert Core(known) == Core(other);
        SameNext(s, known, other, ev, 0);
        SameStep(s, a, b, ev);
        StruckRunFollows(s, a', b', rest);
        var struck := Strike(s, a', rest);
        StruckFirst(s, b, ev, struck);
        AlikeFirst(ev, Reply(known, ev), Reply(other, ev), struck, HomeAnswers(s, a', rest), Answers(s, b', struck));
      }
    }
  }

  /** Main result. Unless uuids may be rebound freely, striking every foreign request out of a
      run leaves every device as it was but for its parked uuid, and leaves the answer to
      every other request as it was, decisions to reject a parked uuid excepted. */
  lemma NonInterference(s: Settings, db: Table, run: seq<Event>)
    requires s.uuidPolicy != Allow
    requires forall i :: 0 <= i < |run| ==> !run[i].AcceptUuid?
    ensures Same(Final(s, db, run), Final(s, db, Strike(s, db, run)))
    ensures AlikeButDecisions(Strike(s, db, run), HomeAnswers(s, db, run), Answers(s, db, Strike(s, db, run)))
  {
    StruckRunFollows(s, db, db, run);
  }

  // ---- ... and when the decisions are answered alike as well ---------------------------------

  lemma ForeignDenied(s: Settings, known: Option<Device>, ev: Event, waiting: nat)
    requires s.uuidPolicy == Deny && Foreign(known, ev)
    ensures Next(s, known, ev, waiting) == known
  {
  }

  /** Under the policy "deny" striking the foreign requests changes nothing at all: no device, no
      parked uuid and no answer, whatever is decided in the run. */
  lemma {:induction false} DenyStrikesAll(s: Settings, db: Table, run: seq<Event>)
    requires s.uuidPolicy == Deny
    ensures Final(s, db, run) == Final(s, db, Strike(s, db, run))
    ensures HomeAnswers(s, db, run) == Answers(s, db, Strike(s, db, run))
    decreases |run|
  {
    if run != [] {
      var ev, rest := run[0], run[1..];
      var known := Lookup(db, Target(ev));
      DenyStrikesAll(s, Step(s, db, ev), rest);
      if Foreign(known, ev) {
        ForeignDenied(s, known, ev, |PendingIds(db)|);
        assert Step(s, db, ev) == db;
      } else {
        StruckFirst(s, db, ev, Strike(s, Step(s, db, ev), rest));
      }
    }
  }

  ghost predicate NothingParked(db: Table) {
    forall id :: id in db ==> db[id].parked.None?
  }

  /** Somewhere in the run a parked uuid is rejected. */
  ghost predicate RejectsParked(s: Settings, db: Table, run: seq<Event>)
    decreases |run|
  {
    run != [] &&
    ((run[0].RejectUuid? && Reply(Lookup(db, Target(run[0])), run[0]) == Changed(true))
     || RejectsParked(s, Step(s, db, run[0]), run[1..]))
  }

  /** Only a foreign request parks a uuid. */
  lemma HomeParksNothing(s: Settings, known: Option<Device>, ev: Event, waiting: nat)
    requires !Foreign(known, ev) && (known.Some? ==> known.value.parked.None?)
    ensures var d := Next(s, known, ev, waiting); d.Some? ==> d.value.parked.None?
  {
  }

  lemma HomeStepParksNothing(s: Settings, a: Table, b: Table, ev: Event)
    requires Same(a, b) && NothingParked(b) && !ev.AcceptUuid? && !Foreign(Lookup(a, Target(ev)), ev)
    ensures NothingParked(Step(s, b, ev))
  {
    var known, other := Lookup(a, Target(ev)), Lookup(b, Target(ev));
    assert Core(known) == Core(other);
    SameNext(s, known, other, ev, 0);
    HomeParksNothing(s, other, ev, |PendingIds(b)|);
  }

  lemma {:induction false} DecisionsFollow(s: Settings, a: Table, b: Table, run: seq<Event>)
    requires s.uuidPolicy != Allow && Same(a, b) && NothingParked(b)
    requires forall i :: 0 <= i < |run| ==> !run[i].AcceptUuid?
    ensures HomeAnswers(s, a, run) == Answers(s, b, Strike(s, a, run)) <==> !RejectsParked(s, a, run)
    decreases |run|
  {
    if run != [] {
      var ev, rest := run[0], run[1..];
      var known := Lookup(a, Target(ev));
      if Foreign(known, ev) {
        ForeignStep(s, a, b, ev);
        DecisionsFollow(s, Step(s, a, ev), b, rest);
      } else {
        var other, a', b' := Lookup(b, Target(ev)), Step(s, a, ev), Step(s, b, ev);
        assert Core(known) == Core(other);
        SameNext(s, known, other, ev, 0);
        SameStep(s, a, b, ev);
        HomeStepParksNothing(s, a, b, ev);
        DecisionsFollow(s, a', b', rest);
        var struck := Strike(s, a', rest);
        StruckFirst(s, b, ev, struck);
        SameHeads(Reply(known, ev), Reply(other, ev), HomeAnswers(s, a', rest), Answers(s, b', struck));
      }
    }
  }

  lemma SameHeads(x: Answer, y: Answer, a: seq<Answer>, b: seq<Answer>)
    ensures [x] + a == [y] + b <==> x == y && a == b
  {
    if [x] + a == [y] + b {
      assert ([x] + a)[0] == ([y] + b)[0] && ([x] + a)[1..] == ([y] + b)[1..];
    }
  }

  /** From tables with nothing parked: striking the foreign requests leaves every answer as it was if
      and only if no parked uuid is rejected in the run. */
  lemma AnswersAlikeIff(s: Settings, db: Table, run: seq<Event>)
    requires s.uuidPolicy != Allow && NothingParked(db)
    requires forall i :: 0 <= i < |run| ==> !run[i].AcceptUuid?
    ensures HomeAnswers(s, db, run) == Answers(s, db, Strike(s, db, run)) <==> !RejectsParked(s, db, run)
  {
    DecisionsFollow(s, db, db, run);
  }

  /** A run in which one is: a foreign upload is parked, and the owner rejects it. */
  lemma RejectTellsApart(s: Settings, db: Table, id: string, theirs: string, now: int)
    requires s.uuidPolicy == Approve && id in db && db[id].parked.None?
    requires db[id].approval != Rejected && Uuid in db[id].facts && db[id].facts[Uuid] != theirs
    ensures var run := [Sysinfo(id, map[Uuid := theirs], None, now), RejectUuid(id)];
            && Strike(s, db, run) == [RejectUuid(id)]
            && HomeAnswers(s, db, run) == [Changed(true)]
            && Answers(s, db, Strike(s, db, run)) == [Changed(false)]
  {
    var up, no := Sysinfo(id, map[Uuid := theirs], None, now), RejectUuid(id);
    var db1 := Step(s, db, up);
    assert [up, no][1..] == [no] && [no][1..] == [];
    assert Foreign(Lookup(db, id), up);
    assert db1[id].parked.Some?;
    assert Strike(s, Step(s, db1, no), []) == [] && HomeAnswers(s, Step(s, db1, no), []) == [];
    assert Strike(s, db1, [no]) == [no] && HomeAnswers(s, db1, [no]) == [Changed(true)];
    assert Answers(s, Step(s, db, no), []) == [];
  }

  /** Under the policy "allow" one foreign upload takes a device over. */
  lemma AllowInterferes(s: Settings, db: Table, id: string, theirs: string)
    requires s.uuidPolicy == Allow
    requires id in db && db[id].approval == Approved && Uuid in db[id].facts && db[id].facts[Uuid] != theirs
    ensures var run := [Sysinfo(id, map[Uuid := theirs], None, 0)];
            Strike(s, db, run) == [] && !Same(Final(s, db, run), Final(s, db, Strike(s, db, run)))
  {
    var ev := Sysinfo(id, map[Uuid := theirs], None, 0);
    var run, db' := [ev], Step(s, db, ev);
    assert run[0] == ev && run[1..] == [];
    assert Final(s, db', run[1..]) == db' && Strike(s, db', run[1..]) == [];
    assert Strike(s, db, run) == [];
    assert db'[id].facts[Uuid] == theirs;
    assert Core(Lookup(db', id)).value.facts != Core(Lookup(db, id)).value.facts;
  }

  // ---- The approval machine ----------------------------------------------------------------

  /** An unapproved device holds neither live connections nor queued disconnects. */
  ghost predicate Quiet(d: Option<Device>) {
    d.Some? && d.value.approval != Approved ==> d.value.columns == Connections.EMPTY
  }

  ghost predicate Sound(s: Settings, db: Table) {
    && (s.pendingLimit.Some? ==> |PendingIds(db)| <= s.pendingLimit.value)
    && forall id :: Quiet(Lookup(db, id))
  }

  lemma SubsetSize(a: set<string>, b: set<string>)
    requires a <= b
    ensures |a| <= |b|
  {
    if a != b {
      assert b == a + (b - a);
    }
  }

  lemma NextQuiet(s: Settings, known: Option<Device>, ev: Event, waiting: nat)
    requires Quiet(known)
    ensures Quiet(Next(s, known, ev, waiting))
  {
    if ev.Disconnect? {
    }
  }

  lemma StepSound(s: Settings, db: Table, ev: Event)
    requires Sound(s, db)
    ensures Sound(s, Step(s, db, ev))
  {
    var before, after, t := PendingIds(db), PendingIds(Step(s, db, ev)), Target(ev);
    forall id ensures Quiet(Lookup(Step(s, db, ev), id)) {
      StepLookup(s, db, ev, id);
      assert Quiet(Lookup(db, id));
      if id == t { NextQuiet(s, Lookup(db, id), ev, |before|); }
    }
    forall id | id in after ensures id in before || id == t {
      StepLookup(s, db, ev, id);
    }
    if t in after && t !in before {
      StepLookup(s, db, ev, t);
      SubsetSize(after, before + {t});
    } else {
      SubsetSize(after, before);
    }
  }

  /** Main result. In every run the number of waiting devices stays within the limit, and an
      unapproved device holds neither live connections nor queued disconnects. */
  lemma {:induction false} RunSound(s: Settings, db: Table, run: seq<Event>)
    requires Sound(s, db)
    ensures Sound(s, Final(s, db, run))
    decreases |run|
  {
    if run != [] {
      StepSound(s, db, run[0]);
      RunSound(s, Step(s, db, run[0]), run[1..]);
    }
  }

  /** A device that stays on record never goes back to waiting. */
  lemma {:induction false} NeverPendingAgain(s: Settings, db: Table, run: seq<Event>, id: string)
    requires id in db && db[id].approval != Pending
    requires forall i :: 0 <= i < |run| ==> run[i] != Delete(id)
    ensures id in Final(s, db, run) && Final(s, db, run)[id].approval != Pending
    decreases |run|
  {
    if run != [] {
      StepLookup(s, db, run[0], id);
      NeverPendingAgain(s, Step(s, db, run[0]), run[1..], id);
    }
  }

  /** Nothing a rejected device sends changes anything about it. */
  lemma {:induction false} RejectedStays(s: Settings, db: Table, run: seq<Event>, id: string)
    requires id in db && db[id].approval == Rejected
    requires forall i :: 0 <= i < |run| && Target(run[i]) == id ==>
               IsUpload(run[i]) || run[i].HeartbeatIn? || run[i].RejectDevice?
    ensures id in Final(s, db, run) && Final(s, db, run)[id] == db[id]
    decreases |run|
  {
    if run != [] {
      StepLookup(s, db, run[0], id);
      RejectedStays(s, Step(s, db, run[0]), run[1..], id);
    }
  }

  /** A set owner is only ever replaced by an explicit reassignment. */
  lemma {:induction false} OwnerStays(s: Settings, db: Table, run: seq<Event>, id: string)
    requires id in db && db[id].owner.Some?
    requires forall i :: 0 <= i < |run| && Target(run[i]) == id ==> !run[i].Delete? && !run[i].SetOwner?
    ensures id in Final(s, db, run) && Final(s, db, run)[id].owner == db[id].owner
    decreases |run|
  {
    if run != [] {
      StepLookup(s, db, run[0], id);
      OwnerStays(s, Step(s, db, run[0]), run[1..], id);
    }
  }

  // ---- A device's columns follow the connection protocol ------------------------------------

  /** What an event about a device means for its connection columns. */
  ghost function ColumnEvents(d: Device, ev: Event): seq<Connections.Event> {
    match ev
    case HeartbeatIn(beat, _) =>
      if SameInstall(d, beat.uuid) && d.approval == Approved then [Connections.Report(beat.conns)] else []
    case Disconnect(_, ids) => [Connections.Request(ids)]
    case RejectDevice(_) => if d.approval == Rejected then [] else [Connections.Reset]
    case _ => []
  }

  /** The protocol events of the device under `id`: those before the run, then the run's own. */
  ghost function Trace(
      s: Settings, db: Table, run: seq<Event>, id: string, past: seq<Connections.Event>): seq<Connections.Event>
    decreases |run|
  {
    if run == [] then past else Trace(s, Step(s, db, run[0]), run[1..], id, past + EventsAt(db, run[0], id))
  }

  lemma NextColumns(s: Settings, d: Device, ev: Event, waiting: nat)
    requires !ev.Delete?
    ensures var es, n := ColumnEvents(d, ev), Next(s, Some(d), ev, waiting);
            && |es| <= 1 && n.Some?
            && n.value.columns == if es == [] then d.columns else Connections.Step(d.columns, es[0])
  {
  }

  lemma AfterMore(past: seq<Connections.Event>, es: seq<Connections.Event>)
    requires |es| <= 1
    ensures Connections.After(past + es)
         == if es == [] then Connections.After(past) else Connections.Step(Connections.After(past), es[0])
  {
    if es == [] {
      assert past + es == past;
    } else {
      assert DropLast(past + es) == past && Last(past + es) == es[0];
    }
  }

  /** What an event means for the columns of the device under `id`. */
  ghost function EventsAt(db: Table, ev: Event, id: string): seq<Connections.Event> {
    if id in db && Target(ev) == id then ColumnEvents(db[id], ev) else []
  }

  lemma ColumnsStep(s: Settings, db: Table, ev: Event, id: string, past: seq<Connections.Event>)
    requires id in db && db[id].columns == Connections.After(past) && ev != Delete(id)
    ensures id in Step(s, db, ev)
    ensures Step(s, db, ev)[id].columns == Connections.After(past + EventsAt(db, ev, id))
  {
    StepLookup(s, db, ev, id);
    if Target(ev) == id { NextColumns(s, db[id], ev, |PendingIds(db)|); }
    AfterMore(past, EventsAt(db, ev, id));
  }

  /** The columns of a device are what the connection protocol makes of its recorded heartbeats,
      disconnect requests and rejections, so the protocol's delivery theorems are about it. */
  lemma {:induction false} ColumnsFollow(
      s: Settings, db: Table, run: seq<Event>, id: string, past: seq<Connections.Event>)
    requires id in db && db[id].columns == Connections.After(past)
    requires forall i :: 0 <= i < |run| ==> run[i] != Delete(id)
    ensures id in Final(s, db, run)
    ensures Final(s, db, run)[id].columns == Connections.After(Trace(s, db, run, id, past))
    decreases |run|
  {
    if run != [] {
      ColumnsStep(s, db, run[0], id, past);
      ColumnsFollow(s, Step(s, db, run[0]), run[1..], id, past + EventsAt(db, run[0], id));
    }
  }

  lemma HeartbeatAnswers(d: Device, beat: Beat, now: int, past: seq<Connections.Event>)
    requires d.columns == Connections.After(past)
    ensures Heartbeat(Some(d), beat, now).1.disconnect ==
            if ColumnEvents(d, HeartbeatIn(beat, now)) == [] then []
            else Connections.Answer(past + [Connections.Report(beat.conns)])
  {
    assert DropLast(past + [Connections.Report(beat.conns)]) == past;
  }

  /** Main result. After any run, a heartbeat of the device's own installation, once it is approved,
      is told to close exactly the connections that were asked for since its previous recorded
      heartbeat and that it still reports; any other heartbeat is told to close nothing. */
  lemma HeartbeatDelivers(
      s: Settings, db: Table, run: seq<Event>, id: string, past: seq<Connections.Event>, beat: Beat, now: int)
    requires id in db && db[id].columns == Connections.After(past)
    requires forall i :: 0 <= i < |run| ==> run[i] != Delete(id)
    ensures id in Final(s, db, run)
    ensures var d := Final(s, db, run)[id];
            Elements(Heartbeat(Some(d), beat, now).1.disconnect) ==
            if SameInstall(d, beat.uuid) && d.approval == Approved
            then Connections.Outstanding(Trace(s, db, run, id, past)) * Elements(Connections.Reported(beat.conns))
            else {}
  {
    ColumnsFollow(s, db, run, id, past);
    var d, trace := Final(s, db, run)[id], Trace(s, db, run, id, past);
    var told := trace + [Connections.Report(beat.conns)];
    HeartbeatAnswers(d, beat, now, trace);
    assert DropLast(told) == trace;
    Connections.Delivery(told);
  }
}
