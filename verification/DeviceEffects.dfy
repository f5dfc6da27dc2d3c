/** What one request makes of a device, told from the request and the device before it. */
module DeviceEffects {
  import opened Common
  import opened Devices
  import opened DeviceRuns
  import Connections

  // ---- Uploads ---------------------------------------------------------------------------------

  /** An active administrator's login comes with the upload. */
  ghost predicate AdminBehind(ev: Event) {
    match ev
    case Sysinfo(_, _, session, _) => session.Some? && session.value.active && session.value.admin
    case Login(_, _, user, _) => user.active && user.admin
    case _ => false
  }

  /** The user whose login comes with the upload. */
  ghost function Uploader(ev: Event): Option<nat> {
    match ev
    case Sysinfo(_, _, session, _) => if session.Some? then Some(session.value.id) else None
    case Login(_, _, user, _) => Some(user.id)
    case _ => None
  }

  ghost predicate OtherUuid(d: Device, ev: Event)
    requires IsUpload(ev)
  {
    Uuid in d.facts && Uuid in ev.facts && ev.facts[Uuid] != d.facts[Uuid]
  }

  /** Every column holds what is reported for it, or else what it held. */
  ghost predicate FactsFollow(was: Facts, reported: Facts, now: Facts) {
    forall f :: FactOf(now, f) == if f in reported then Some(reported[f]) else FactOf(was, f)
  }

  /** The device reports in. */
  ghost predicate ReportsIn(d: Device, ev: Event, n: Device)
    requires IsUpload(ev)
  {
    && FactsFollow(d.facts, ev.facts, n.facts)
    && n.owner == (if d.owner.Some? then d.owner else Uploader(ev))
    && n.approval == (if d.approval == Pending && AdminBehind(ev) then Approved else d.approval)
    && n.parked == (if d.parked.Some? && Uuid in ev.facts && ev.facts[Uuid] == d.parked.value.uuid then None
                    else d.parked)
    && n.lastSeen == Some(ev.now) && n.archivedAt == None
    && n.apiScheme == d.apiScheme && n.watchOffline == d.watchOffline && n.columns == d.columns
  }

  /** An upload for a device on record: nothing changes about a rejected one, nor about one with another
      uuid unless its owner or an administrator is behind the upload or uuids may be rebound freely, but
      that the uuid is parked where it waits for a decision. Otherwise the device reports in. */
  lemma KnownUpload(s: Settings, d: Device, ev: Event, waiting: nat)
    requires IsUpload(ev)
    ensures Next(s, Some(d), ev, waiting).Some?
    ensures var n := Next(s, Some(d), ev, waiting).value;
            if d.approval == Rejected then n == d
            else if OtherUuid(d, ev) && !Speaks(d, ev) && s.uuidPolicy == Approve then
              n == d.(parked := Some(Parked(ev.facts[Uuid], ev.now, FactOf(ev.facts, IpAddress))))
            else if OtherUuid(d, ev) && !Speaks(d, ev) && s.uuidPolicy == Deny then n == d
            else ReportsIn(d, ev, n)
  {
  }

  /** Main result. Unless uuids may be rebound freely, an upload with another uuid changes the recorded one
      of a device that is not rejected if and only if the login of its owner or of an administrator comes
      with it. */
  lemma RebindsIff(s: Settings, d: Device, ev: Event, waiting: nat)
    requires IsUpload(ev) && s.uuidPolicy != Allow && d.approval != Rejected
    requires Uuid in d.facts && Uuid in ev.facts && ev.facts[Uuid] != d.facts[Uuid]
    ensures Next(s, Some(d), ev, waiting).Some? && Uuid in Next(s, Some(d), ev, waiting).value.facts
    ensures Next(s, Some(d), ev, waiting).value.facts[Uuid] != d.facts[Uuid] <==>
            match ev
            case Sysinfo(_, _, session, _) =>
              session.Some? && session.value.active && (session.value.admin || d.owner == Some(session.value.id))
            case Login(_, _, user, _) => user.admin || d.owner == Some(user.id)
  {
    KnownUpload(s, d, ev, waiting);
    var n := Next(s, Some(d), ev, waiting).value;
    if ReportsIn(d, ev, n) { assert FactOf(n.facts, Uuid) == Some(ev.facts[Uuid]); }
  }

  /** An upload for a device that is not on record: it is recorded with what it reports and under its
      uploader, waiting for approval where new devices do and no administrator is behind the upload; and
      then only while fewer than the limit wait. */
  lemma NewUpload(s: Settings, ev: Event, waiting: nat)
    requires IsUpload(ev)
    ensures var waits := s.approveNew && !AdminBehind(ev);
            if waits && s.pendingLimit.Some? && waiting >= s.pendingLimit.value
            then Next(s, None, ev, waiting) == None
            else Next(s, None, ev, waiting) == Some(
                   Device(ev.facts, Uploader(ev), if waits then Pending else Approved, None, Some(ev.now), None, None,
                          false, Connections.Columns(None, None)))
  {
    assert map[] + ev.facts == ev.facts;
  }

  /** How many wait, for the limit: the devices that are neither approved nor rejected. */
  lemma WaitingAre(db: Table, id: string)
    ensures id in PendingIds(db) <==> id in db && db[id].approval !in {Approved, Rejected}
  {
  }

  // ---- Heartbeats --------------------------------------------------------------------------------

  /** None of host name, platform and version is known yet. */
  ghost predicate Bare(facts: Facts) {
    forall f :: f in {Hostname, Platform, ClientVersion} && f in facts ==> facts[f] == ""
  }

  ghost predicate HeardFrom(d: Device, beat: Beat, now: int, n: Device) {
    var addressed := beat.ip.Some? && beat.ip.value != "";
    var schemed := d.approval == Approved && beat.scheme.Some? && beat.scheme.value != "";
    && FactsFollow(d.facts, if addressed then map[IpAddress := beat.ip.value] else map[], n.facts)
    && n.lastSeen == Some(now) && n.archivedAt == None
    && n.apiScheme == (if schemed then beat.scheme else d.apiScheme)
    && n.owner == d.owner && n.approval == d.approval && n.parked == d.parked && n.watchOffline == d.watchOffline
    && n.columns == (if d.approval == Approved then Connections.Step(d.columns, Connections.Report(beat.conns))
                     else d.columns)
  }

  /** A heartbeat: nothing comes of it for a device that is not on record, that has another uuid than the
      heartbeat carries, or that is rejected; the first is asked for its details. Otherwise the device was
      heard from, and is asked for its details as long as none are known. */
  lemma HeartbeatLeaves(known: Option<Device>, beat: Beat, now: int)
    ensures var (n, response) := Heartbeat(known, beat, now);
            match known
            case None => n == None && response == Response(true, [])
            case Some(d) =>
              if d.approval == Rejected || (Uuid in d.facts && beat.uuid != Some(d.facts[Uuid])) then
                n == known && response == Response(false, [])
              else
                && n.Some? && HeardFrom(d, beat, now, n.value)
                && (response.sysinfo <==> Bare(n.value.facts))
                && (d.approval == Pending ==> response.disconnect == [])
  {
  }

  // ---- Decisions about one device -------------------------------------------------------------------

  /** What a decision makes of the device it is about; whatever is not named stays as it was. */
  ghost predicate Decided(d: Device, ev: Event, n: Device) {
    match ev
    case ApproveDevice(_) => n.approval == Approved && n == d.(approval := n.approval)
    case RejectDevice(_) =>
      && n.approval == Rejected
      && if d.approval == Rejected then n == d
         else !n.watchOffline && n.columns == Connections.Columns(None, None)
              && n == d.(approval := Rejected, watchOffline := n.watchOffline, columns := n.columns)
    case AcceptUuid(_) =>
      if d.parked.None? then n == d
      else
        && n.parked == None && FactsFollow(d.facts, map[Uuid := d.parked.value.uuid], n.facts)
        && n == d.(parked := None, facts := n.facts)
    case RejectUuid(_) => n.parked == None && n == d.(parked := n.parked)
    case SetOwner(_, owner) => n.owner == owner && n == d.(owner := n.owner)
    case SetWatch(_, watch) => n.watchOffline == watch && n == d.(watchOffline := n.watchOffline)
    case SetArchived(_, archived, now) =>
      if archived then
        if d.archivedAt.Some? then n == d
        else n.archivedAt == Some(now) && !n.watchOffline
             && n == d.(archivedAt := n.archivedAt, watchOffline := n.watchOffline)
      else n.archivedAt == None && n == d.(archivedAt := n.archivedAt)
    case Disconnect(_, ids) => n.columns == Connections.Step(d.columns, Connections.Request(ids))
      && n == d.(columns := n.columns)
    case _ => false
  }

  lemma DecisionLeaves(s: Settings, d: Device, ev: Event, waiting: nat)
    requires !IsUpload(ev) && !ev.HeartbeatIn?
    ensures if ev.Delete? then Next(s, Some(d), ev, waiting) == None
            else Next(s, Some(d), ev, waiting).Some? && Decided(d, ev, Next(s, Some(d), ev, waiting).value)
    ensures Next(s, None, ev, waiting) == None
  {
  }

  /** What the caller of a decision is told: whether there is such a device, and whether it changed. */
  lemma DecisionAnswers(s: Settings, d: Device, ev: Event, waiting: nat)
    requires ev.ApproveDevice? || ev.RejectDevice? || ev.AcceptUuid? || ev.RejectUuid?
    ensures Reply(None, ev) == NotFound
    ensures Reply(Some(d), ev) == Changed(Next(s, Some(d), ev, waiting) != Some(d))
  {
  }

  /** Who asks for connections to be ended is told which will be: all live ones, or those named, unless one of
      them is not live. */
  lemma DisconnectAnswers(d: Device, id: string, ids: Option<seq<nat>>)
    ensures Reply(None, Disconnect(id, ids)) == NotFound
    ensures var live, answer := Elements(Connections.Load(d.columns.live)), Reply(Some(d), Disconnect(id, ids));
            && answer.Picked?
            && (answer.ids.None? <==> ids.Some? && !(Elements(ids.value) <= live))
            && (answer.ids.Some? ==> Elements(answer.ids.value) == if ids.None? then live else Elements(ids.value))
  {
    Connections.ChosenIsAsked(Connections.Load(d.columns.live), ids);
  }
}
