/** What holds in every run of requests and workers. */
module BuildRuns {
  import opened Common
  import opened BuildJobs

  predicate Finished(j: Job) {
    j.state == Done || j.state == Failed
  }

  // ---- The table --------------------------------------------------------------------

  ghost predicate InOrder(jobs: seq<Job>) {
    forall i, j :: 0 <= i < j < |jobs| ==> jobs[i].id < jobs[j].id && jobs[i].created <= jobs[j].created
  }

  ghost predicate TableOk(jobs: seq<Job>, nextId: nat, clock: int) {
    InOrder(jobs) && forall k :: 0 <= k < |jobs| ==> jobs[k].id < nextId && jobs[k].created <= clock
  }

  lemma TheJob(jobs: seq<Job>, k: nat)
    requires InOrder(jobs) && k < |jobs|
    ensures Has(jobs, jobs[k].id) && Get(jobs, jobs[k].id) == jobs[k]
  {
  }

  lemma IndexSame(a: seq<Job>, b: seq<Job>, id: nat)
    requires |a| == |b| && forall k :: 0 <= k < |a| ==> a[k].id == b[k].id
    ensures PlaceOf(a, id) == PlaceOf(b, id)
  {
    if a != [] { IndexSame(a[1..], b[1..], id); }
  }

  lemma GetSet(jobs: seq<Job>, j: Job, id: nat)
    ensures Has(SetJob(jobs, j), id) <==> Has(jobs, id)
    ensures Has(jobs, id) ==> Get(SetJob(jobs, j), id) == if id == j.id then j else Get(jobs, id)
  {
    IndexSame(jobs, SetJob(jobs, j), id);
  }

  lemma SetKeepsTable(jobs: seq<Job>, j: Job, nextId: nat, clock: int)
    requires TableOk(jobs, nextId, clock) && Has(jobs, j.id) && Get(jobs, j.id).created == j.created
    ensures TableOk(SetJob(jobs, j), nextId, clock)
  {
    var r := SetJob(jobs, j);
    forall k | 0 <= k < |jobs| ensures r[k].id == jobs[k].id && r[k].created == jobs[k].created {
      TheJob(jobs, k);
    }
  }

  // ---- Forgetting ---------------------------------------------------------------------

  lemma {:induction false} InsertLast(j: Job, sorted: seq<Job>)
    requires forall k :: 0 <= k < |sorted| ==> sorted[k].created <= j.created
    ensures InsertByAge(j, sorted) == sorted + [j]
  {
    if sorted != [] {
      InsertLast(j, sorted[1..]);
      assert [sorted[0]] + (sorted[1..] + [j]) == sorted + [j];
    }
  }

  /** A table filled in the order of time is already sorted. */
  lemma {:induction false} AlreadyByAge(jobs: seq<Job>)
    requires InOrder(jobs)
    ensures ByAge(jobs) == jobs
  {
    if jobs != [] {
      var init := jobs[..|jobs| - 1];
      AlreadyByAge(init);
      InsertLast(Last(jobs), init);
      assert init + [Last(jobs)] == jobs;
    }
  }

  /** How many jobs at the front are past their time. */
  function Old(jobs: seq<Job>, now: int): (n: nat)
    ensures n <= |jobs|
    ensures forall k :: 0 <= k < n ==> TooOld(jobs[k], now)
    ensures n < |jobs| ==> !TooOld(jobs[n], now)
  {
    if jobs == [] || !TooOld(jobs[0], now) then 0
    else
      var r := Old(jobs[1..], now);
      assert forall k :: 1 <= k < |jobs| ==> jobs[k] == jobs[1..][k - 1];
      1 + r
  }

  lemma {:induction false} SelectAll(jobs: seq<Job>, now: int, aged: bool)
    requires forall k :: 0 <= k < |jobs| ==> TooOld(jobs[k], now) == aged
    ensures Select(jobs, now, aged) == jobs && Select(jobs, now, !aged) == []
  {
    if jobs != [] {
      SelectAll(jobs[1..], now, aged);
      assert [jobs[0]] + jobs[1..] == jobs;
    }
  }

  lemma {:induction false} SelectSplit(a: seq<Job>, b: seq<Job>, now: int, aged: bool)
    ensures Select(a + b, now, aged) == Select(a, now, aged) + Select(b, now, aged)
  {
    if a == [] {
      assert a + b == b;
      assert Select(a, now, aged) + Select(b, now, aged) == Select(b, now, aged);
    } else {
      var first := if TooOld(a[0], now) == aged then [a[0]] else [];
      assert (a + b)[1..] == a[1..] + b && (a + b)[0] == a[0];
      SelectSplit(a[1..], b, now, aged);
      Assoc(first, Select(a[1..], now, aged), Select(b, now, aged));
    }
  }

  lemma YoungRest(jobs: seq<Job>, now: int)
    requires InOrder(jobs)
    ensures forall k :: Old(jobs, now) <= k < |jobs| ==> !TooOld(jobs[k], now)
  {
  }

  lemma SelectParts(a: seq<Job>, b: seq<Job>, now: int)
    requires forall k :: 0 <= k < |a| ==> TooOld(a[k], now)
    requires forall k :: 0 <= k < |b| ==> !TooOld(b[k], now)
    ensures Select(a + b, now, true) == a && Select(a + b, now, false) == b
  {
    SelectAll(a, now, true);
    SelectAll(b, now, false);
    SelectSplit(a, b, now, true);
    SelectSplit(a, b, now, false);
  }

  lemma SelectAt(jobs: seq<Job>, now: int, n: nat)
    requires n <= |jobs|
    requires forall k :: 0 <= k < n ==> TooOld(jobs[k], now)
    requires forall k :: n <= k < |jobs| ==> !TooOld(jobs[k], now)
    ensures Select(jobs, now, true) == jobs[..n] && Select(jobs, now, false) == jobs[n..]
  {
    SelectParts(jobs[..n], jobs[n..], now);
    assert jobs == jobs[..n] + jobs[n..];
  }

  /** The first `n` jobs are those past their time. */
  ghost predicate AgedFront(jobs: seq<Job>, now: int, n: nat) {
    n <= |jobs| && Select(jobs, now, true) == jobs[..n] && Select(jobs, now, false) == jobs[n..]
  }

  /** The jobs past their time come first in the table. */
  lemma SelectOld(jobs: seq<Job>, now: int)
    requires InOrder(jobs)
    ensures AgedFront(jobs, now, Old(jobs, now))
  {
    YoungRest(jobs, now);
    SelectAt(jobs, now, Old(jobs, now));
  }

  lemma {:induction false} WithoutAll(jobs: seq<Job>, gone: seq<Job>)
    requires forall k :: 0 <= k < |jobs| ==> jobs[k] in gone
    ensures Without(jobs, gone) == []
  {
    if jobs != [] { WithoutAll(jobs[1..], gone); }
  }

  lemma {:induction false} WithoutNone(jobs: seq<Job>, gone: seq<Job>)
    requires forall k :: 0 <= k < |jobs| ==> jobs[k] !in gone
    ensures Without(jobs, gone) == jobs
  {
    if jobs != [] {
      WithoutNone(jobs[1..], gone);
      assert [jobs[0]] + jobs[1..] == jobs;
    }
  }

  lemma {:induction false} WithoutSplit(a: seq<Job>, b: seq<Job>, gone: seq<Job>)
    ensures Without(a + b, gone) == Without(a, gone) + Without(b, gone)
  {
    if a == [] {
      assert a + b == b;
    } else {
      assert (a + b)[1..] == a[1..] + b;
      WithoutSplit(a[1..], b, gone);
    }
  }

  /** How many jobs go. */
  function Dropped(jobs: seq<Job>, now: int): (m: nat)
    ensures m <= |jobs|
  {
    var n := Old(jobs, now);
    n + Min(|jobs| - n, Excess(|jobs| - n))
  }

  ghost predicate Apart(a: seq<Job>, b: seq<Job>) {
    forall k :: 0 <= k < |b| ==> b[k] !in a
  }

  lemma WithoutFirst(a: seq<Job>, b: seq<Job>)
    requires Apart(a, b)
    ensures Without(a + b, a) == b
  {
    WithoutSplit(a, b, a);
    WithoutAll(a, a);
    WithoutNone(b, a);
  }

  lemma WithoutFront(jobs: seq<Job>, m: nat)
    requires InOrder(jobs) && m <= |jobs|
    ensures Without(jobs, jobs[..m]) == jobs[m..]
  {
    WithoutFirst(jobs[..m], jobs[m..]);
    assert jobs == jobs[..m] + jobs[m..];
  }

  /** The jobs past their time and the first of the others are the front of the table. */
  lemma TwoCuts(jobs: seq<Job>, n: nat, k: nat)
    requires n + k <= |jobs|
    ensures jobs[..n] + jobs[n..][..k] == jobs[..n + k]
  {
  }

  lemma SortedForgets(jobs: seq<Job>, now: int)
    requires ByAge(jobs) == jobs
    ensures var expired, others := Select(jobs, now, true), Select(jobs, now, false);
            ToForget(jobs, now) == expired + others[..Min(|others|, Excess(|others|))]
  {
  }

  lemma ForgetsCut(jobs: seq<Job>, now: int, n: nat, k: nat)
    requires InOrder(jobs) && AgedFront(jobs, now, n) && k == Min(|jobs| - n, Excess(|jobs| - n))
    ensures ToForget(jobs, now) == jobs[..n + k]
  {
    AlreadyByAge(jobs);
    SortedForgets(jobs, now);
    TwoCuts(jobs, n, k);
  }

  lemma ForgetsFront(jobs: seq<Job>, now: int)
    requires InOrder(jobs)
    ensures ToForget(jobs, now) == jobs[..Dropped(jobs, now)]
  {
    SelectOld(jobs, now);
    ForgetsCut(jobs, now, Old(jobs, now), Dropped(jobs, now) - Old(jobs, now));
  }

  /** Main result about forgetting: the oldest jobs go, namely all past their time and as many more
      as it takes to leave room for one new job, and no others. */
  lemma ForgetsOldest(jobs: seq<Job>, now: int)
    requires InOrder(jobs)
    ensures var m := Dropped(jobs, now);
            && ToForget(jobs, now) == jobs[..m] && Without(jobs, ToForget(jobs, now)) == jobs[m..]
            && |jobs| - m < MAX_JOBS
            && (forall k :: m <= k < |jobs| ==> !TooOld(jobs[k], now))
            && (m > 0 ==> TooOld(jobs[m - 1], now) || |jobs| - m == MAX_JOBS - 1)
  {
    ForgetsFront(jobs, now);
    WithoutFront(jobs, Dropped(jobs, now));
    YoungRest(jobs, now);
  }

  // ---- What every step keeps ----------------------------------------------------------------

  /** One process at most has the slot, and it is taken exactly while one has it. */
  ghost predicate OneHolder(locked: bool, procs: map<nat, Proc>) {
    && (forall p, q :: p in procs && q in procs ==> p == q)
    && (locked <==> procs != map[])
  }

  /** The file of this job, if it is on disk, is in this state. */
  predicate IfThere(id: nat, disk: map<nat, FileState>, file: FileState) {
    id in disk ==> disk[id] == file
  }

  predicate Fits(j: Job, stage: Stage, disk: map<nat, FileState>) {
    match stage
    case AtStart => j.state == Queued && j.id !in disk
    case AtDownload => j.state == Downloading && j.id !in disk
    case AtBuild => j.state == Building && j.id !in disk
    case AtCheck => j.state == Building && IfThere(j.id, disk, Plain)
    case AtTidy => j.state == Signing && j.certificate && IfThere(j.id, disk, CertSigned)
    case AtFinish => j.state == (if j.certificate then Signing else Building)
      && (j.certificate ==> IfThere(j.id, disk, CertSigned))
    case AtPrune => j.state == Done
    case AtRelease => Finished(j)
    case _ => j.state == Signing && j.certificate && IfThere(j.id, disk, Plain)
  }

  predicate HolderOk(jobs: seq<Job>, disk: map<nat, FileState>, p: Proc) {
    match p
    case Acquired(o) => CertificatePlan(o).Ok?
    case Forgot(o) => |jobs| < MAX_JOBS && CertificatePlan(o).Ok?
    case Inserted(id) => Has(jobs, id) && Get(jobs, id).state == Queued && id !in disk
    case Worker(id, stage) => Has(jobs, id) && Fits(Get(jobs, id), stage, disk)
  }

  ghost predicate HoldersOk(jobs: seq<Job>, disk: map<nat, FileState>, procs: map<nat, Proc>) {
    forall p :: p in procs ==> HolderOk(jobs, disk, procs[p])
  }

  predicate Holds(p: Proc, id: nat) {
    (p.Inserted? || p.Worker?) && p.job == id
  }

  ghost predicate Held(procs: map<nat, Proc>, id: nat) {
    exists p :: p in procs && Holds(procs[p], id)
  }

  /** An unfinished job is the slot holder's, or one whose thread did not start. */
  ghost predicate Owned(j: Job, procs: map<nat, Proc>, orphans: set<nat>) {
    Finished(j) || Held(procs, j.id) || (j.id in orphans && j.state == Queued)
  }

  ghost predicate AllOwned(jobs: seq<Job>, procs: map<nat, Proc>, orphans: set<nat>) {
    forall k :: 0 <= k < |jobs| ==> Owned(jobs[k], procs, orphans)
  }

  /** What a finished job says about its file is so. */
  predicate FileOk(j: Job, disk: map<nat, FileState>) {
    && (j.certificate ==> !j.command)
    && (j.state == Done ==> j.file && j.signed == (j.command || j.certificate))
    && (j.file ==> Finished(j) && (j.certificate ==> IfThere(j.id, disk, CertSigned)))
    && (j.message == SigningFailed ==> j.state == Failed && !j.file && j.id !in disk)
  }

  ghost predicate FilesOk(jobs: seq<Job>, disk: map<nat, FileState>) {
    forall k :: 0 <= k < |jobs| ==> FileOk(jobs[k], disk)
  }

  ghost predicate Sound(s: Server) {
    && OneHolder(s.locked, s.procs)
    && s.acquired == s.released + (if s.locked then 1 else 0)
    && TableOk(s.jobs, s.nextId, s.clock) && |s.jobs| <= MAX_JOBS
    && HoldersOk(s.jobs, s.disk, s.procs)
    && AllOwned(s.jobs, s.procs, s.orphans)
    && FilesOk(s.jobs, s.disk)
    && (forall i :: i in s.disk ==> i < s.nextId)
    && (forall i :: i in s.orphans ==> i < s.nextId && !Held(s.procs, i))
  }

  /** Files of other jobs than one's own are left alone. */
  ghost predicate SameElsewhere(a: map<nat, FileState>, b: map<nat, FileState>, id: nat) {
    forall i :: i != id ==> (i in a <==> i in b) && (i in a ==> a[i] == b[i])
  }

  lemma OneJobFiles(jobs: seq<Job>, j: Job, disk: map<nat, FileState>, disk': map<nat, FileState>)
    requires FilesOk(jobs, disk) && SameElsewhere(disk, disk', j.id) && FileOk(j, disk')
    ensures FilesOk(SetJob(jobs, j), disk')
  {
    var r := SetJob(jobs, j);
    forall k | 0 <= k < |r| ensures FileOk(r[k], disk') {
      assert FileOk(jobs[k], disk);
    }
  }

  lemma OneJobOwned(jobs: seq<Job>, j: Job, procs: map<nat, Proc>, pid: nat, p: Proc, orphans: set<nat>)
    requires AllOwned(jobs, procs, orphans) && pid in procs && Holds(procs[pid], j.id) && Holds(p, j.id)
    ensures AllOwned(SetJob(jobs, j), procs[pid := p], orphans)
  {
    var r, procs' := SetJob(jobs, j), procs[pid := p];
    forall k | 0 <= k < |r| ensures Owned(r[k], procs', orphans) {
      assert Owned(jobs[k], procs, orphans);
      if jobs[k].id == j.id {
        assert Holds(procs'[pid], j.id);
      } else if Held(procs, jobs[k].id) {
        var q :| q in procs && Holds(procs[q], jobs[k].id);
        assert Holds(procs'[q], jobs[k].id);
      }
    }
  }

  /** A step of the worker that changes its own job, when the files still are what the jobs say. */
  lemma MoveKeeps(s: Server, pid: nat, j: Job, stage: Stage, disk': map<nat, FileState>)
    requires Sound(s) && pid in s.procs && Holds(s.procs[pid], j.id)
    requires Has(s.jobs, j.id) && Get(s.jobs, j.id).created == j.created && Fits(j, stage, disk')
    requires FilesOk(SetJob(s.jobs, j), disk') && forall i :: i in disk' ==> i in s.disk || i == j.id
    ensures Sound(MoveTo(s, pid, j, stage).(disk := disk'))
  {
    var p := Worker(j.id, stage);
    GetSet(s.jobs, j, j.id);
    SetKeepsTable(s.jobs, j, s.nextId, s.clock);
    OneJobOwned(s.jobs, j, s.procs, pid, p, s.orphans);
    OneHolderMoves(s.locked, s.procs, pid, p);
    HeldSame(s.procs, pid, p, j.id);
    assert s.jobs[PlaceOf(s.jobs, j.id)].id < s.nextId;
  }

  lemma OneHolderMoves(locked: bool, procs: map<nat, Proc>, pid: nat, p: Proc)
    requires OneHolder(locked, procs) && pid in procs
    ensures OneHolder(locked, procs[pid := p]) && procs[pid := p].Keys == {pid}
  {
    assert procs[pid := p].Keys == procs.Keys;
  }

  lemma HeldSame(procs: map<nat, Proc>, pid: nat, p: Proc, id: nat)
    requires pid in procs && Holds(procs[pid], id) && Holds(p, id)
    ensures forall i :: Held(procs[pid := p], i) ==> Held(procs, i)
  {
    var procs' := procs[pid := p];
    forall i | Held(procs', i) ensures Held(procs, i) {
      var q :| q in procs' && Holds(procs'[q], i);
      assert Holds(procs[q], i);
    }
  }

  // ---- Requests -----------------------------------------------------------------------

  lemma RequestKeeps(s: Server, pid: nat, order: Order)
    requires Sound(s)
    ensures Sound(Step(s, Request(pid, order)))
  {
    var t := Step(s, Request(pid, order));
    if t != s {
      assert forall p :: p in t.procs ==> p == pid && t.procs[p] == Acquired(order);
      assert forall i :: !Held(t.procs, i) && !Held(s.procs, i);
    }
  }

  /** A request that has no job yet moves on. */
  lemma NobodyHolds(procs: map<nat, Proc>, pid: nat, p: Proc)
    requires OneHolder(true, procs) && pid in procs && !procs[pid].Inserted? && !procs[pid].Worker?
    requires !p.Inserted? && !p.Worker?
    ensures forall i :: !Held(procs, i) && !Held(procs[pid := p], i)
    ensures OneHolder(true, procs[pid := p])
  {
    var procs' := procs[pid := p];
    assert forall q :: q in procs' ==> q == pid;
    assert forall q :: q in procs ==> q == pid;
  }

  lemma ForgetKeeps(s: Server, pid: nat)
    requires Sound(s)
    ensures Sound(Step(s, ForgetOld(pid)))
  {
    if pid in s.procs && s.procs[pid].Acquired? {
      var m, order := Dropped(s.jobs, s.clock), s.procs[pid].order;
      ForgetsOldest(s.jobs, s.clock);
      assert HolderOk(s.jobs, s.disk, s.procs[pid]);
      DroppedSound(s, m, pid, order);
    }
  }

  lemma DroppedSound(s: Server, m: nat, pid: nat, order: Order)
    requires Sound(s) && m <= |s.jobs| && |s.jobs| - m < MAX_JOBS
    requires pid in s.procs && s.procs[pid] == Acquired(order)
    ensures Sound(s.(jobs := s.jobs[m..],
                     disk := DiskWithout(s.disk, s.jobs[..m]),
                     procs := s.procs[pid := Forgot(order)]))
  {
    var procs' := s.procs[pid := Forgot(order)];
    NobodyHolds(s.procs, pid, Forgot(order));
    assert HolderOk(s.jobs, s.disk, s.procs[pid]);
    assert forall p :: p in procs' ==> p == pid;
  }

  lemma AppendedTable(jobs: seq<Job>, j: Job, clock: int)
    requires TableOk(jobs, j.id, clock) && j.created == clock
    ensures TableOk(jobs + [j], j.id + 1, clock)
    ensures Has(jobs + [j], j.id) && Get(jobs + [j], j.id) == j
  {
    var r := jobs + [j];
    assert forall k :: 0 <= k < |jobs| ==> r[k] == jobs[k];
    assert r[|jobs|] == j;
    TheJob(r, |jobs|);
  }

  lemma InsertKeeps(s: Server, pid: nat)
    requires Sound(s)
    ensures Sound(Step(s, InsertJob(pid)))
  {
    if pid in s.procs && s.procs[pid].Forgot? {
      var t := Step(s, InsertJob(pid));
      var j := NewJob(s, s.procs[pid].order);
      AppendedTable(s.jobs, j, s.clock);
      assert Holds(t.procs[pid], j.id);
      NobodyHolds(s.procs, pid, s.procs[pid]);
      assert forall p :: p in t.procs ==> p == pid;
      assert HolderOk(s.jobs, s.disk, s.procs[pid]);
    }
  }

  lemma StartKeeps(s: Server, pid: nat)
    requires Sound(s)
    ensures Sound(Step(s, StartThread(pid)))
  {
    if pid in s.procs && s.procs[pid].Inserted? {
      var t := Step(s, StartThread(pid));
      var id := s.procs[pid].job;
      assert HolderOk(s.jobs, s.disk, s.procs[pid]);
      assert forall p :: p in t.procs ==> p == pid;
      HeldSame(s.procs, pid, Worker(id, AtStart), id);
      forall k | 0 <= k < |s.jobs| ensures Owned(s.jobs[k], t.procs, s.orphans) {
        assert Owned(s.jobs[k], s.procs, s.orphans);
        if Held(s.procs, s.jobs[k].id) { assert Holds(t.procs[pid], s.jobs[k].id); }
      }
    }
  }

  lemma RequestFailsKeeps(s: Server, pid: nat)
    requires Sound(s)
    ensures Sound(Step(s, RequestFails(pid)))
  {
    if pid in s.procs && !s.procs[pid].Worker? {
      var p := s.procs[pid];
      assert HolderOk(s.jobs, s.disk, p);
      var u := if p.Inserted? then s.(orphans := s.orphans + {p.job}) else s;
      forall k | 0 <= k < |s.jobs|
        ensures Finished(s.jobs[k]) || (s.jobs[k].id in u.orphans && s.jobs[k].state == Queued)
      {
        TheJob(s.jobs, k);
        assert Owned(s.jobs[k], s.procs, s.orphans);
      }
      if p.Inserted? { assert s.jobs[PlaceOf(s.jobs, p.job)].id < s.nextId; }
      FreedSound(s, u, pid);
    }
  }

  /** Giving the slot back when every job is finished or has no thread. */
  lemma FreedSound(s: Server, u: Server, pid: nat)
    requires Sound(s) && pid in s.procs && u == s.(orphans := u.orphans)
    requires forall i :: i in u.orphans ==> i < s.nextId
    requires forall k :: 0 <= k < |s.jobs| ==>
               Finished(s.jobs[k]) || (s.jobs[k].id in u.orphans && s.jobs[k].state == Queued)
    ensures Sound(FreeSlot(u, pid))
  {
    var t := FreeSlot(u, pid);
    assert t.procs == map[];
    assert forall i :: !Held(t.procs, i);
    assert AllOwned(t.jobs, t.procs, t.orphans);
  }

  // ---- The worker -----------------------------------------------------------------------

  predicate IsJob(jobs: seq<Job>, j: Job) {
    Has(jobs, j.id) && Get(jobs, j.id) == j
  }

  /** The worker's own job after a step: it fits its new stage and what it says of its file is so. */
  lemma MoveFits(jobs: seq<Job>, disk: map<nat, FileState>, e: Event, j: Job, stage: Stage)
    requires WorkerEvent(e) && IsJob(jobs, j) && Fits(j, stage, disk) && FileOk(j, disk)
    ensures var m := WorkerMove(jobs, disk, e, j, stage);
            m.Go? ==>
              && m.job.id == j.id && m.job.created == j.created
              && FileOk(m.job, m.disk) && Fits(m.job, m.stage, m.disk)
              && (if e.Pruned? then m.disk == PruneFolder(jobs, disk, e.removed) else SameElsewhere(disk, m.disk, j.id))
  {
  }

  lemma PrunedFiles(jobs: seq<Job>, disk: map<nat, FileState>, removed: set<nat>)
    requires InOrder(jobs) && FilesOk(jobs, disk)
    ensures FilesOk(jobs, PruneFolder(jobs, disk, removed))
  {
    forall k | 0 <= k < |jobs| ensures FileOk(jobs[k], PruneFolder(jobs, disk, removed)) {
      assert FileOk(jobs[k], disk);
      TheJob(jobs, k);
    }
  }

  lemma MovedFiles(jobs: seq<Job>, disk: map<nat, FileState>, e: Event, j: Job, stage: Stage)
    requires InOrder(jobs) && FilesOk(jobs, disk)
    requires WorkerEvent(e) && IsJob(jobs, j) && Fits(j, stage, disk) && FileOk(j, disk)
    ensures var m := WorkerMove(jobs, disk, e, j, stage);
            m.Go? ==> FilesOk(SetJob(jobs, m.job), m.disk) && forall i :: i in m.disk ==> i in disk || i == j.id
  {
    var m := WorkerMove(jobs, disk, e, j, stage);
    MoveFits(jobs, disk, e, j, stage);
    if m.Go? {
      if e.Pruned? {
        PrunedFiles(jobs, disk, e.removed);
        OneJobFiles(jobs, m.job, m.disk, m.disk);
      } else {
        OneJobFiles(jobs, m.job, disk, m.disk);
      }
    }
  }

  lemma WorkerKeeps(s: Server, e: Event)
    requires Sound(s) && WorkerEvent(e) && e.pid in s.procs && s.procs[e.pid].Worker?
    ensures Has(s.jobs, s.procs[e.pid].job)
    ensures Sound(WorkerStep(s, e, Get(s.jobs, s.procs[e.pid].job), s.procs[e.pid].stage))
  {
    var pid, stage := e.pid, s.procs[e.pid].stage;
    assert HolderOk(s.jobs, s.disk, s.procs[pid]);
    var j := Get(s.jobs, s.procs[pid].job);
    assert FileOk(j, s.disk);
    MoveFits(s.jobs, s.disk, e, j, stage);
    MovedFiles(s.jobs, s.disk, e, j, stage);
    match WorkerMove(s.jobs, s.disk, e, j, stage)
    case Stay =>
    case GiveBack => ReleaseKeeps(s, pid);
    case Go(next, to, disk) => MoveKeeps(s, pid, next, to, disk);
  }

  lemma ReleaseKeeps(s: Server, pid: nat)
    requires Sound(s) && pid in s.procs && s.procs[pid].Worker? && s.procs[pid].stage == AtRelease
    ensures Sound(FreeSlot(s, pid))
  {
    assert HolderOk(s.jobs, s.disk, s.procs[pid]);
    forall k | 0 <= k < |s.jobs|
      ensures Finished(s.jobs[k]) || (s.jobs[k].id in s.orphans && s.jobs[k].state == Queued)
    {
      TheJob(s.jobs, k);
      assert Owned(s.jobs[k], s.procs, s.orphans);
    }
    FreedSound(s, s, pid);
  }

  lemma StepOfWorker(s: Server, e: Event)
    requires WorkerEvent(e) && e.pid in s.procs && s.procs[e.pid].Worker? && Has(s.jobs, s.procs[e.pid].job)
    ensures Step(s, e) == WorkerStep(s, e, Get(s.jobs, s.procs[e.pid].job), s.procs[e.pid].stage)
  {
  }

  lemma GoStep(s: Server, e: Event, j: Job, next: Job, to: Stage, disk: map<nat, FileState>)
    requires WorkerEvent(e) && IsJob(s.jobs, j)
    requires e.pid in s.procs && s.procs[e.pid].Worker? && s.procs[e.pid].job == j.id
    requires WorkerMove(s.jobs, s.disk, e, j, s.procs[e.pid].stage) == Go(next, to, disk)
    ensures Step(s, e) == MoveTo(s, e.pid, next, to).(disk := disk)
  {
    StepOfWorker(s, e);
  }

  lemma DeleteKeeps(s: Server, e: Event)
    requires Sound(s) && DeleteEvent(e)
    ensures Sound(DeleteStep(s, e))
  {
    var t := DeleteStep(s, e);
    forall k | 0 <= k < |s.jobs| ensures FileOk(s.jobs[k], t.disk) {
      assert FileOk(s.jobs[k], s.disk);
    }
    forall p | p in s.procs ensures HolderOk(t.jobs, t.disk, s.procs[p]) {
      assert HolderOk(s.jobs, s.disk, s.procs[p]);
    }
  }

  lemma RequestEventKeeps(s: Server, e: Event)
    requires Sound(s) && RequestEvent(e)
    ensures Sound(Step(s, e))
  {
    match e
    case Request(pid, order) => RequestKeeps(s, pid, order);
    case ForgetOld(pid) => ForgetKeeps(s, pid);
    case InsertJob(pid) => InsertKeeps(s, pid);
    case StartThread(pid) => StartKeeps(s, pid);
    case RequestFails(pid) => RequestFailsKeeps(s, pid);
  }

  lemma StepKeeps(s: Server, e: Event)
    requires Sound(s)
    ensures Sound(Step(s, e))
  {
    if DeleteEvent(e) {
      DeleteKeeps(s, e);
    } else if RequestEvent(e) {
      RequestEventKeeps(s, e);
    } else if WorkerEvent(e) && e.pid in s.procs && s.procs[e.pid].Worker? {
      WorkerKeeps(s, e);
    }
  }

  lemma {:induction false} RunSound(s: Server, run: seq<Event>)
    requires Sound(s)
    ensures Sound(After(s, run))
  {
    if run != [] {
      RunSound(s, DropLast(run));
      StepKeeps(After(s, DropLast(run)), Last(run));
    }
  }
}
