/** Device identity, approval and heartbeats: what each request does to the device table. */
module Devices {
  import opened Common
  import opened Text
  import Connections

  /** What a client reports about itself; each column is set or NULL. */
  datatype Fact = Uuid | Hostname | Username | Platform | OsVersion | ClientVersion | IpAddress | Cpu | Memory

  const FACTS: seq<Fact> := [Uuid, Hostname, Username, Platform, OsVersion, ClientVersion, IpAddress, Cpu, Memory]

  type Facts = map<Fact, string>

  datatype Approval = Approved | Pending | Rejected

  /** A different uuid that arrived untrusted and waits for the owner's decision. */
  datatype Parked = Parked(uuid: string, at: int, ip: Option<string>)

  datatype Device = Device(
    facts: Facts,
    owner: Option<nat>,
    approval: Approval,
    parked: Option<Parked>,
    lastSeen: Option<int>,
    archivedAt: Option<int>,
    apiScheme: Option<string>,
    watchOffline: bool,
    columns: Connections.Columns)

  type Table = map<string, Device>

  datatype UuidPolicy = Allow | Approve | Deny

  datatype Settings = Settings(uuidPolicy: UuidPolicy, approveNew: bool, pendingLimit: Option<nat>)

  datatype User = User(id: nat, admin: bool, active: bool)

  /** The arguments of `register_or_update`; `facts` are the values that are not None. */
  datatype Upload = Upload(
    id: string,
    facts: Facts,
    owner: Option<nat>,
    trusted: bool,
    requireApproval: bool,
    vouched: bool)

  datatype Failure = PendingDevicesFull

  ghost function PendingIds(db: Table): set<string> {
    set id | id in db && db[id].approval == Pending
  }

  function FactOf(facts: Facts, f: Fact): Option<string> {
    if f in facts then Some(facts[f]) else None
  }

  /** Both uuids are known and they differ. */
  predicate OtherInstall(known: Facts, reported: Facts) {
    Uuid in known && Uuid in reported && known[Uuid] != reported[Uuid]
  }

  function NewDevice(u: Upload): Device {
    var approval := if u.requireApproval then Pending else Approved;
    Device(map[], u.owner, approval, None, None, None, None, false, Connections.EMPTY)
  }

  function Park(d: Device, u: Upload, now: int): Device
    requires Uuid in u.facts
  {
    d.(parked := Some(Parked(u.facts[Uuid], now, FactOf(u.facts, IpAddress))))
  }

  /** The parked uuid is this device's from now on. */
  function Adopt(d: Device): Device
    requires d.parked.Some?
  {
    d.(facts := d.facts[Uuid := d.parked.value.uuid], parked := None)
  }

  /** A parked uuid that now reports in by itself needs no decision any more. */
  function Unpark(d: Device, facts: Facts): Device {
    if Uuid in facts && d.parked.Some? && d.parked.value.uuid == facts[Uuid] then d.(parked := None) else d
  }

  /** The part of an upload both a new and a known device go through. */
  function Absorb(d: Device, u: Upload, now: int): Device {
    Unpark(d, u.facts).(facts := d.facts + u.facts, lastSeen := Some(now))
  }

  /** A known device reports in: it takes an owner if it has none, is no longer archived, and
      an administrator's request approves it. */
  function Reported(d: Device, u: Upload, now: int): Device {
    Absorb(d, u, now).(
      owner := if d.owner.None? then u.owner else d.owner,
      archivedAt := None,
      approval := if u.vouched && d.approval == Pending then Approved else d.approval)
  }

  /** What an upload makes of the device on record under its id, or of none. */
  function Register(known: Option<Device>, s: Settings, u: Upload, now: int, waiting: nat): Result<Device, Failure> {
    match known
    case None =>
      if u.requireApproval && s.pendingLimit.Some? && waiting >= s.pendingLimit.value then Err(PendingDevicesFull)
      else Ok(Absorb(NewDevice(u), u, now))
    case Some(d) =>
      if d.approval == Rejected then Ok(d)
      else if OtherInstall(d.facts, u.facts) && !u.trusted && s.uuidPolicy != Allow then
        Ok(if s.uuidPolicy == Approve then Park(d, u, now) else d)
      else Ok(Reported(d, u, now))
  }

  function Lookup(db: Table, id: string): Option<Device> {
    if id in db then Some(db[id]) else None
  }

  /** The caller may speak for the device: it is new, theirs, or they are an administrator. */
  predicate MayClaim(known: Option<Device>, user: User) {
    known.None? || user.admin || known.value.owner == Some(user.id)
  }

  /** A system-info upload with whatever login came with it. */
  function SysinfoUpload(
      known: Option<Device>, s: Settings, id: string, facts: Facts, session: Option<User>): Upload {
    var vouched := session.Some? && session.value.active && session.value.admin;
    Upload(id, facts,
           if session.Some? then Some(session.value.id) else None,
           session.Some? && session.value.active && MayClaim(known, session.value),
           s.approveNew && !vouched, vouched)
  }

  /** A client login that names its own device. */
  function LoginUpload(known: Option<Device>, s: Settings, id: string, facts: Facts, user: User): Upload {
    var vouched := user.active && user.admin;
    Upload(id, facts, Some(user.id), MayClaim(known, user), s.approveNew && !vouched, vouched)
  }

  function SetApproval(d: Device, approve: bool): Device {
    if approve then d.(approval := Approved)
    else d.(approval := Rejected, watchOffline := false, columns := Connections.EMPTY)
  }

  // ---- Heartbeats -----------------------------------------------------------------------

  datatype Beat = Beat(
    id: string,
    uuid: Option<string>,
    conns: Option<seq<Connections.Item>>,
    ip: Option<string>,
    scheme: Option<string>)

  /** `sysinfo` asks the client to upload its details; `disconnect` names connections to end. */
  datatype Response = Response(sysinfo: bool, disconnect: seq<nat>)

  predicate SameInstall(d: Device, uuid: Option<string>) {
    Uuid !in d.facts || uuid == Some(d.facts[Uuid])
  }

  predicate HasReported(facts: Facts) {
    exists f :: f in {Hostname, Platform, ClientVersion} && f in facts && facts[f] != ""
  }

  function Present(v: Option<string>): bool {
    v.Some? && v.value != ""
  }

  /** The device was heard from. */
  function Touch(d: Device, ip: Option<string>, scheme: Option<string>, now: int): Device {
    d.(lastSeen := Some(now),
       archivedAt := None,
       facts := if Present(ip) then d.facts[IpAddress := ip.value] else d.facts,
       apiScheme := if Present(scheme) then scheme else d.apiScheme)
  }

  /** A heartbeat: what it makes of the device on record, and its response. */
  function Heartbeat(known: Option<Device>, beat: Beat, now: int): (Option<Device>, Response) {
    if known.None? then (known, Response(true, []))
    else
      var d := known.value;
      if !SameInstall(d, beat.uuid) then (known, Response(false, []))
      else
        match d.approval
        case Rejected => (known, Response(false, []))
        case Pending =>
          var t := Touch(d, beat.ip, None, now);
          (Some(t), Response(!HasReported(t.facts), []))
        case Approved =>
          var t := Touch(d, beat.ip, beat.scheme, now);
          var (columns, close) := Connections.Recorded(t.columns, beat.conns);
          (Some(t.(columns := columns)), Response(!HasReported(t.facts), close))
  }

  /** The table with this device under this id, or with none. */
  function With(db: Table, id: string, d: Option<Device>): Table {
    if d.Some? then db[id := d.value] else db - {id}
  }

  // ---- The table in place ------------------------------------------------------------------

  lemma FactsListed(f: Fact)
    ensures f in FACTS
  {
    match f
    case Uuid => assert FACTS[0] == f;
    case Hostname => assert FACTS[1] == f;
    case Username => assert FACTS[2] == f;
    case Platform => assert FACTS[3] == f;
    case OsVersion => assert FACTS[4] == f;
    case ClientVersion => assert FACTS[5] == f;
    case IpAddress => assert FACTS[6] == f;
    case Cpu => assert FACTS[7] == f;
    case Memory => assert FACTS[8] == f;
  }

  function Among(reported: Facts, fs: seq<Fact>): Facts {
    map f | f in reported && f in fs :: reported[f]
  }

  lemma OneMoreFact(facts: Facts, reported: Facts, i: nat)
    requires i < |FACTS|
    ensures var before, f := facts + Among(reported, FACTS[..i]), FACTS[i];
            facts + Among(reported, FACTS[..i + 1]) == if f in reported then before[f := reported[f]] else before
  {
    assert FACTS[..i + 1] == FACTS[..i] + [FACTS[i]];
  }

  /** Writes the reported values one column at a time, and only those that differ. */
  method MergeFacts(facts: Facts, reported: Facts) returns (r: Facts)
    ensures r == facts + reported
  {
    r := facts;
    var i := 0;
    while i < |FACTS|
      invariant 0 <= i <= |FACTS|
      invariant r == facts + Among(reported, FACTS[..i])
    {
      var f := FACTS[i];
      OneMoreFact(facts, reported, i);
      if f in reported && FactOf(r, f) != Some(reported[f]) {
        r := r[f := reported[f]];
      }
      i := i + 1;
    }
    forall f ensures f in FACTS { FactsListed(f); }
    assert FACTS[..i] == FACTS;
    assert Among(reported, FACTS) == reported;
  }

  /** How many devices wait for approval. */
  method CountPending(db: Table) returns (n: nat)
    ensures n == |PendingIds(db)|
  {
    var waiting := set id | id in db && db[id].approval == Pending;
    n := |waiting|;
  }

  /** The columns that an upload sets on a new and on a known device alike. */
  method AbsorbUpload(device: Device, u: Upload, now: int) returns (d: Device)
    ensures d == Absorb(device, u, now)
  {
    d := device;
    if Uuid in u.facts && d.parked.Some? && d.parked.value.uuid == u.facts[Uuid] {
      d := d.(parked := None);
    }
    var facts := MergeFacts(d.facts, u.facts);
    d := d.(facts := facts, lastSeen := Some(now));
  }

  class Registry {
    var devices: Table

    constructor ()
      ensures devices == map[]
    {
      devices := map[];
    }

    method ParkUuid(u: Upload, now: int)
      requires u.id in devices && Uuid in u.facts
      modifies this
      ensures devices == old(devices)[u.id := Park(old(devices)[u.id], u, now)]
    {
      var d := devices[u.id];
      devices := devices[u.id := d.(parked := Some(Parked(u.facts[Uuid], now, FactOf(u.facts, IpAddress))))];
    }

    method RegisterOrUpdate(s: Settings, u: Upload, now: int) returns (r: Result<(), Failure>)
      modifies this
      ensures match Register(Lookup(old(devices), u.id), s, u, now, |PendingIds(old(devices))|)
              case Ok(d) => r == Ok(()) && devices == old(devices)[u.id := d]
              case Err(e) => r == Err(e) && devices == old(devices)
    {
      var d;
      if u.id !in devices {
        if u.requireApproval && s.pendingLimit.Some? {
          var waiting := CountPending(devices);
          if waiting >= s.pendingLimit.value { return Err(PendingDevicesFull); }
        }
        d := NewDevice(u);
      } else {
        d := devices[u.id];
        if d.approval == Rejected { return Ok(()); }
        if OtherInstall(d.facts, u.facts) && !u.trusted && s.uuidPolicy != Allow {
          if s.uuidPolicy == Approve { ParkUuid(u, now); }
          return Ok(());
        }
        if d.owner.None? { d := d.(owner := u.owner); }
        d := d.(archivedAt := None);
      }
      d := AbsorbUpload(d, u, now);
      if u.vouched && u.id in devices && d.approval == Pending {
        d := d.(approval := Approved);
      }
      devices := devices[u.id := d];
      r := Ok(());
    }

    method ApproveDevice(id: string) returns (changed: bool)
      requires id in devices
      modifies this
      ensures changed <==> old(devices)[id].approval != Approved
      ensures devices == if changed then old(devices)[id := SetApproval(old(devices)[id], true)] else old(devices)
    {
      var d := devices[id];
      if d.approval == Approved { return false; }
      devices := devices[id := d.(approval := Approved)];
      changed := true;
    }

    method RejectDevice(id: string) returns (changed: bool)
      requires id in devices
      modifies this
      ensures changed <==> old(devices)[id].approval != Rejected
      ensures devices == if changed then old(devices)[id := SetApproval(old(devices)[id], false)] else old(devices)
    {
      var d := devices[id];
      if d.approval == Rejected { return false; }
      d := d.(approval := Rejected);
      d := d.(watchOffline := false);
      d := d.(columns := Connections.EMPTY);
      devices := devices[id := d];
      changed := true;
    }

    method AcceptPendingUuid(id: string) returns (changed: bool)
      requires id in devices
      modifies this
      ensures changed <==> old(devices)[id].parked.Some?
      ensures devices == if changed then old(devices)[id := Adopt(old(devices)[id])] else old(devices)
    {
      var d := devices[id];
      if d.parked.None? { return false; }
      devices := devices[id := d.(facts := d.facts[Uuid := d.parked.value.uuid], parked := None)];
      changed := true;
    }

    method RejectPendingUuid(id: string) returns (changed: bool)
      requires id in devices
      modifies this
      ensures changed <==> old(devices)[id].parked.Some?
      ensures devices == if changed then old(devices)[id := old(devices)[id].(parked := None)] else old(devices)
    {
      var d := devices[id];
      if d.parked.None? { return false; }
      devices := devices[id := d.(parked := None)];
      changed := true;
    }

    method TouchHeartbeat(id: string, ip: Option<string>, scheme: Option<string>, now: int)
      requires id in devices
      modifies this
      ensures devices == old(devices)[id := Touch(old(devices)[id], ip, scheme, now)]
    {
      var d := devices[id].(archivedAt := None, lastSeen := Some(now));
      if Present(ip) && FactOf(d.facts, IpAddress) != ip {
        d := d.(facts := d.facts[IpAddress := ip.value]);
      }
      if Present(scheme) && d.apiScheme != scheme {
        d := d.(apiScheme := scheme);
      }
      assert d == Touch(devices[id], ip, scheme, now);
      devices := devices[id := d];
    }

    /** `POST /api/heartbeat`. */
    method HandleHeartbeat(beat: Beat, now: int) returns (response: Response)
      modifies this
      ensures var (d, answer) := Heartbeat(Lookup(old(devices), beat.id), beat, now);
              devices == With(old(devices), beat.id, d) && response == answer
    {
      if beat.id !in devices { return Response(true, []); }
      response := Response(false, []);
      if !SameInstall(devices[beat.id], beat.uuid) { return; }
      if devices[beat.id].approval != Approved {
        if devices[beat.id].approval == Pending {
          TouchHeartbeat(beat.id, beat.ip, None, now);
          if !HasReported(devices[beat.id].facts) { response := response.(sysinfo := true); }
        }
        return;
      }
      TouchHeartbeat(beat.id, beat.ip, beat.scheme, now);
      var row := new Connections.Row();
      row.liveConnections, row.pendingDisconnect := devices[beat.id].columns.live, devices[beat.id].columns.pending;
      var close := row.RecordHeartbeat(beat.conns);
      var columns := Connections.Columns(row.liveConnections, row.pendingDisconnect);
      devices := devices[beat.id := devices[beat.id].(columns := columns)];
      assert devices == old(devices)[beat.id := devices[beat.id]];
      if close != [] { response := response.(disconnect := close); }
      if !HasReported(devices[beat.id].facts) { response := response.(sysinfo := true); }
    }

    /** `POST /api/sysinfo`; answered alike whether or not the device was recorded. */
    method HandleSysinfo(s: Settings, id: string, facts: Facts, session: Option<User>, now: int)
      modifies this
      ensures var known := Lookup(old(devices), id);
              match Register(known, s, SysinfoUpload(known, s, id, facts, session), now, |PendingIds(old(devices))|)
              case Ok(d) => devices == old(devices)[id := d]
              case Err(_) => devices == old(devices)
    {
      var vouched := session.Some? && session.value.active && session.value.admin;
      var trusted := session.Some? && session.value.active &&
                     (id !in devices || session.value.admin || devices[id].owner == Some(session.value.id));
      var owner := if session.Some? then Some(session.value.id) else None;
      var _ := RegisterOrUpdate(s, Upload(id, facts, owner, trusted, s.approveNew && !vouched, vouched), now);
    }
  }
}
