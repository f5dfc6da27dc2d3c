/** The promises of the build slot, for every run from an empty table. */
module BuildResults {
  import opened Common
  import opened BuildJobs
  import opened BuildRuns

  lemma FreshSound(clock: int)
    ensures Sound(Fresh(clock))
  {
  }

  /** The jobs under way: neither finished nor left behind by a thread that did not start. */
  ghost predicate UnderWay(s: Server, j: Job) {
    j in s.jobs && !Finished(j) && j.id !in s.orphans
  }

  ghost predicate AllFinished(s: Server) {
    forall j :: j in s.jobs ==> Finished(j)
  }

  ghost predicate OrphanLeft(s: Server) {
    exists j :: j in s.jobs && j.id in s.orphans && j.state == Queued
  }

  /** Main result. In every run: at most one job is under way and it belongs to the slot's holder,
      the table never has more than its limit, the slot has one holder or none, and it has been
      given back exactly as often as it was taken, not counting the holder's own turn. */
  lemma OneAtATime(clock: int, run: seq<Event>)
    ensures var s := After(Fresh(clock), run);
            && |s.jobs| <= 20
            && (forall i, j :: UnderWay(s, i) && UnderWay(s, j) ==> i == j)
            && (forall j :: UnderWay(s, j) ==> s.locked && Held(s.procs, j.id))
            && (forall p, q :: p in s.procs && q in s.procs ==> p == q)
            && s.acquired == s.released + |s.procs|
  {
    var s := After(Fresh(clock), run);
    FreshSound(clock);
    RunSound(Fresh(clock), run);
    forall j | UnderWay(s, j) ensures s.locked && Held(s.procs, j.id) { WhoseJob(s, j); }
    forall i, j | UnderWay(s, i) && UnderWay(s, j) ensures i == j {
      WhoseJob(s, i);
      WhoseJob(s, j);
      var p :| p in s.procs && Holds(s.procs[p], i.id);
      var q :| q in s.procs && Holds(s.procs[q], j.id);
      assert p == q;
      SameId(s.jobs, i, j);
    }
    HolderCount(s.procs, s.locked);
  }

  lemma WhoseJob(s: Server, j: Job)
    requires Sound(s) && UnderWay(s, j)
    ensures s.locked && Held(s.procs, j.id)
  {
    var k :| 0 <= k < |s.jobs| && s.jobs[k] == j;
    assert Owned(s.jobs[k], s.procs, s.orphans);
  }

  lemma SameId(jobs: seq<Job>, i: Job, j: Job)
    requires InOrder(jobs) && i in jobs && j in jobs && i.id == j.id
    ensures i == j
  {
    var k :| 0 <= k < |jobs| && jobs[k] == i;
    var l :| 0 <= l < |jobs| && jobs[l] == j;
    TheJob(jobs, k);
    TheJob(jobs, l);
  }

  lemma HolderCount(procs: map<nat, Proc>, locked: bool)
    requires OneHolder(locked, procs)
    ensures |procs| == if locked then 1 else 0
  {
    if locked {
      assert procs.Keys != {};
      var p :| p in procs;
      assert procs.Keys == {p};
    }
  }

  /** Main result. While the slot is free, every job of the table is finished if and only if no job
      is left whose thread could not be started. */
  lemma FreeSlotMeansFinished(clock: int, run: seq<Event>)
    ensures var s := After(Fresh(clock), run);
            !s.locked ==> (AllFinished(s) <==> !OrphanLeft(s))
  {
    var s := After(Fresh(clock), run);
    FreshSound(clock);
    RunSound(Fresh(clock), run);
    if !s.locked && !OrphanLeft(s) {
      forall j | j in s.jobs ensures Finished(j) {
        var k :| 0 <= k < |s.jobs| && s.jobs[k] == j;
        assert Owned(s.jobs[k], s.procs, s.orphans);
      }
    }
  }

  /** At some moment of the run an event of this kind takes place. */
  ghost predicate Happens(s: Server, run: seq<Event>, what: (Server, Event) -> bool) {
    exists k :: 0 <= k < |run| && what(After(s, run[..k]), run[k])
  }

  lemma Prefixes(run: seq<Event>)
    requires run != []
    ensures run[..|run| - 1] == DropLast(run) && run[|run| - 1] == Last(run)
    ensures forall k :: 0 <= k < |run| - 1 ==> DropLast(run)[..k] == run[..k] && DropLast(run)[k] == run[k]
  {
  }

  lemma HappensLast(s: Server, run: seq<Event>, what: (Server, Event) -> bool)
    requires run != []
    ensures Happens(s, run, what)
       <==> Happens(s, DropLast(run), what) || what(After(s, DropLast(run)), Last(run))
  {
    Prefixes(run);
    if k :| 0 <= k < |run| - 1 && what(After(s, run[..k]), run[k]) {
      assert what(After(s, DropLast(run)[..k]), DropLast(run)[k]);
    }
    if k :| 0 <= k < |run| - 1 && what(After(s, DropLast(run)[..k]), DropLast(run)[k]) {
      assert what(After(s, run[..k]), run[k]);
    }
  }

  /** A request that fails between storing its job and starting its thread. */
  ghost predicate FailedStart(s: Server, e: Event, id: nat) {
    e.RequestFails? && e.pid in s.procs && s.procs[e.pid] == Inserted(id)
  }

  ghost predicate SomeFailedStart(s: Server, run: seq<Event>, id: nat) {
    Happens(s, run, (t, e) => FailedStart(t, e, id))
  }

  /** Such a job comes from exactly this step of a request, and from no other failure. */
  lemma {:induction false} OrphansFromFailedStarts(s: Server, run: seq<Event>, id: nat)
    ensures id in After(s, run).orphans <==> id in s.orphans || SomeFailedStart(s, run, id)
  {
    if run != [] {
      OrphansFromFailedStarts(s, DropLast(run), id);
      StepOrphans(After(s, DropLast(run)), Last(run), id);
      HappensLast(s, run, (t, e) => FailedStart(t, e, id));
    }
  }

  lemma StepOrphans(s: Server, e: Event, id: nat)
    ensures id in Step(s, e).orphans <==> id in s.orphans || FailedStart(s, e, id)
  {
  }

  /** ... and one of those does leave a queued job behind a free slot. */
  lemma FailedStartLeavesQueued(clock: int, order: Order)
    requires CertificatePlan(order).Ok?
    ensures var s := Step(Step(Step(Fresh(clock), Request(0, order)), ForgetOld(0)), InsertJob(0));
            var s := Step(s, RequestFails(0));
            !s.locked && OrphanLeft(s) && !AllFinished(s)
  {
    var s1 := Step(Fresh(clock), Request(0, order));
    var s2 := Step(s1, ForgetOld(0));
    assert s2.jobs == [];
    var s3 := Step(s2, InsertJob(0));
    assert s3.jobs == [NewJob(s2, order)];
    var s4 := Step(s3, RequestFails(0));
    assert s4.jobs[0] in s4.jobs;
  }

  /** The table and the folder after a step of the worker. */
  lemma StepTables(s: Server, e: Event, j: Job, stage: Stage)
    requires WorkerEvent(e)
    ensures var m, t := WorkerMove(s.jobs, s.disk, e, j, stage), WorkerStep(s, e, j, stage);
            if m.Go? then t.jobs == SetJob(s.jobs, m.job) && t.disk == m.disk else t.jobs == s.jobs && t.disk == s.disk
  {
  }

  // ---- A running job is never forgotten --------------------------------------------------------

  predicate Follows(a: JobState, b: JobState) {
    match a
    case Queued => b == Downloading || b == Failed
    case Downloading => b == Building || b == Failed
    case Building => b in {Signing, Done, Failed}
    case Signing => b in {Done, Failed}
    case Done => b == Failed
    case Failed => false
  }

  /** The same job, no further than one state on; from done only a failing clean-up leads on. */
  predicate NextJob(a: Job, b: Job, e: Event) {
    && (a.state == b.state || Follows(a.state, b.state))
    && (a.state == Done && b.state == Failed ==> e.Pruned? && !e.ok)
    && a.id == b.id && a.created == b.created && a.certificate == b.certificate && a.command == b.command
  }

  ghost predicate TableMoved(a: seq<Job>, b: seq<Job>, j: Job, e: Event) {
    b == a || exists next :: NextJob(j, next, e) && b == SetJob(a, next)
  }

  lemma MoveNext(jobs: seq<Job>, disk: map<nat, FileState>, e: Event, j: Job, stage: Stage)
    requires WorkerEvent(e) && Fits(j, stage, disk)
    ensures WorkerMove(jobs, disk, e, j, stage).Go? ==> NextJob(j, WorkerMove(jobs, disk, e, j, stage).job, e)
  {
  }

  lemma WorkerTable(s: Server, e: Event, j: Job, stage: Stage)
    requires WorkerEvent(e) && Fits(j, stage, s.disk)
    ensures TableMoved(s.jobs, WorkerStep(s, e, j, stage).jobs, j, e)
  {
    MoveNext(s.jobs, s.disk, e, j, stage);
  }

  /** Main result. The job of a worker is in the table at every moment of every run, and while any
      worker runs no job at all is forgotten. */
  lemma RunningIsKept(clock: int, run: seq<Event>, pid: nat, e: Event)
    requires var s := After(Fresh(clock), run); pid in s.procs && s.procs[pid].Worker?
    ensures var s := After(Fresh(clock), run);
            && Has(s.jobs, s.procs[pid].job)
            && forall id :: Has(s.jobs, id) ==> Has(Step(s, e).jobs, id)
  {
    var s := After(Fresh(clock), run);
    FreshSound(clock);
    RunSound(Fresh(clock), run);
    WorkersJob(s, pid);
    forall id | Has(s.jobs, id) ensures Has(Step(s, e).jobs, id) { StaysListed(s, pid, e, id); }
  }

  lemma StaysListed(s: Server, pid: nat, e: Event, id: nat)
    requires Sound(s) && pid in s.procs && s.procs[pid].Worker? && Has(s.jobs, id)
    ensures Has(Step(s, e).jobs, id)
  {
    if WorkerEvent(e) {
      if e.pid == pid { WorkerOrder(s, e, id); } else { NobodysEvent(s, e); }
    } else {
      RequestForgetsNone(s, pid, e);
    }
  }

  lemma NobodysEvent(s: Server, e: Event)
    requires WorkerEvent(e) && (e.pid in s.procs ==> !s.procs[e.pid].Worker?)
    ensures Step(s, e) == s
  {
  }

  /** While a worker has the slot, a request can neither forget nor store anything. */
  lemma RequestForgetsNone(s: Server, pid: nat, e: Event)
    requires OneHolder(s.locked, s.procs) && pid in s.procs && s.procs[pid].Worker? && !WorkerEvent(e)
    ensures Step(s, e).jobs == s.jobs
  {
  }

  lemma TableMovedListed(a: seq<Job>, b: seq<Job>, j: Job, e: Event, id: nat)
    requires TableMoved(a, b, j, e) && Has(a, id) && Has(a, j.id) && Get(a, j.id) == j
    ensures Has(b, id) && NextJob(Get(a, id), Get(b, id), e)
  {
    if b != a {
      var next :| NextJob(j, next, e) && b == SetJob(a, next);
      GetSet(a, next, id);
    }
  }

  // ---- The order of the states --------------------------------------------------------------

  /** The job stays in the table and moves on by no more than one state. */
  ghost predicate MovesOn(a: seq<Job>, b: seq<Job>, id: nat, e: Event) {
    Has(a, id) && Has(b, id) && NextJob(Get(a, id), Get(b, id), e)
  }

  lemma JobOrder(s: Server, e: Event, j: Job, stage: Stage, id: nat)
    requires WorkerEvent(e) && IsJob(s.jobs, j) && Fits(j, stage, s.disk) && Has(s.jobs, id)
    ensures MovesOn(s.jobs, WorkerStep(s, e, j, stage).jobs, id, e)
  {
    WorkerTable(s, e, j, stage);
    TableMovedListed(s.jobs, WorkerStep(s, e, j, stage).jobs, j, e, id);
  }

  lemma WorkerOrder(s: Server, e: Event, id: nat)
    requires Sound(s) && WorkerEvent(e) && Has(s.jobs, id) && e.pid in s.procs && s.procs[e.pid].Worker?
    ensures MovesOn(s.jobs, Step(s, e).jobs, id, e)
  {
    WorkersJob(s, e.pid);
    StepOfWorker(s, e);
    JobOrder(s, e, Get(s.jobs, s.procs[e.pid].job), s.procs[e.pid].stage, id);
  }

  lemma KeptByForget(jobs: seq<Job>, m: nat, id: nat)
    requires InOrder(jobs) && m <= |jobs| && Has(jobs, id) && Has(jobs[m..], id)
    ensures Get(jobs[m..], id) == Get(jobs, id)
  {
    SameId(jobs, Get(jobs[m..], id), Get(jobs, id));
  }

  lemma ForgottenTable(s: Server, pid: nat)
    ensures Step(s, ForgetOld(pid)).nextId == s.nextId
    ensures Step(s, ForgetOld(pid)).jobs
         == if pid in s.procs && s.procs[pid].Acquired? then Without(s.jobs, ToForget(s.jobs, s.clock)) else s.jobs
  {
  }

  lemma ForgetOrder(s: Server, pid: nat, id: nat)
    requires InOrder(s.jobs) && Has(s.jobs, id) && Has(Step(s, ForgetOld(pid)).jobs, id)
    ensures Get(Step(s, ForgetOld(pid)).jobs, id) == Get(s.jobs, id)
  {
    var m := Dropped(s.jobs, s.clock);
    ForgottenTable(s, pid);
    ForgetsOldest(s.jobs, s.clock);
    if Has(s.jobs[m..], id) { KeptByForget(s.jobs, m, id); }
  }

  lemma KeptByInsert(jobs: seq<Job>, j: Job, id: nat)
    requires InOrder(jobs) && Has(jobs, id) && id != j.id && Has(jobs + [j], id)
    ensures Get(jobs + [j], id) == Get(jobs, id)
  {
    SameId(jobs, Get(jobs + [j], id), Get(jobs, id));
  }

  lemma InsertOrder(s: Server, pid: nat, id: nat)
    requires Sound(s) && Has(s.jobs, id) && Has(Step(s, InsertJob(pid)).jobs, id)
    ensures Get(Step(s, InsertJob(pid)).jobs, id) == Get(s.jobs, id)
  {
    if pid in s.procs && s.procs[pid].Forgot? {
      assert Get(s.jobs, id).id < s.nextId;
      KeptByInsert(s.jobs, NewJob(s, s.procs[pid].order), id);
    }
  }

  lemma OtherSteps(s: Server, e: Event)
    requires !WorkerEvent(e) && !e.ForgetOld? && !e.InsertJob?
    ensures Step(s, e).jobs == s.jobs && Step(s, e).nextId == s.nextId
  {
  }

  /** A job that stays in the table keeps its state or moves to the next one; only the clean-up
      after a finished build can still make it failed. */
  lemma StatesInOrder(s: Server, e: Event, id: nat)
    requires Sound(s) && Has(s.jobs, id) && Has(Step(s, e).jobs, id)
    ensures NextJob(Get(s.jobs, id), Get(Step(s, e).jobs, id), e)
  {
    if WorkerEvent(e) {
      if e.pid in s.procs && s.procs[e.pid].Worker? { WorkerOrder(s, e, id); } else { NobodysEvent(s, e); }
    } else {
      OthersOrder(s, e, id);
    }
  }

  lemma OthersOrder(s: Server, e: Event, id: nat)
    requires Sound(s) && !WorkerEvent(e) && Has(s.jobs, id) && Has(Step(s, e).jobs, id)
    ensures Get(Step(s, e).jobs, id) == Get(s.jobs, id)
  {
    if e.ForgetOld? {
      ForgetOrder(s, e.pid, id);
    } else if e.InsertJob? {
      InsertOrder(s, e.pid, id);
    } else {
      OtherSteps(s, e);
    }
  }

  /** The id has been used and is not in the table. */
  ghost predicate Gone(s: Server, id: nat) {
    id < s.nextId && !Has(s.jobs, id)
  }

  /** An id that has been used and is no longer in the table never comes back. */
  lemma GoneStaysGone(s: Server, e: Event, id: nat)
    requires Sound(s) && Gone(s, id)
    ensures Gone(Step(s, e), id)
  {
    if WorkerEvent(e) {
      if e.pid in s.procs && s.procs[e.pid].Worker? { WorkerAddsNone(s, e, id); } else { NobodysEvent(s, e); }
    } else if e.ForgetOld? {
      ForgottenGone(s, e.pid, id);
    } else if e.InsertJob? {
      InsertedTable(s, e.pid, id);
    } else {
      OtherSteps(s, e);
    }
  }

  lemma ForgottenGone(s: Server, pid: nat, id: nat)
    requires InOrder(s.jobs) && Gone(s, id)
    ensures Gone(Step(s, ForgetOld(pid)), id)
  {
    ForgottenTable(s, pid);
    ForgetsOldest(s.jobs, s.clock);
    UnlistedTail(s.jobs, Dropped(s.jobs, s.clock), id);
  }

  lemma WorkerAddsNone(s: Server, e: Event, id: nat)
    requires Sound(s) && !Has(s.jobs, id) && WorkerEvent(e) && e.pid in s.procs && s.procs[e.pid].Worker?
    ensures !Has(Step(s, e).jobs, id) && Step(s, e).nextId == s.nextId
  {
    WorkersJob(s, e.pid);
    var j, stage := Get(s.jobs, s.procs[e.pid].job), s.procs[e.pid].stage;
    StepOfWorker(s, e);
    WorkerTable(s, e, j, stage);
    TableMovedUnlisted(s.jobs, WorkerStep(s, e, j, stage).jobs, j, e, id);
  }

  lemma TableMovedUnlisted(a: seq<Job>, b: seq<Job>, j: Job, e: Event, id: nat)
    requires TableMoved(a, b, j, e) && !Has(a, id)
    ensures !Has(b, id)
  {
    if b != a {
      var next :| NextJob(j, next, e) && b == SetJob(a, next);
      GetSet(a, next, id);
    }
  }

  lemma Listed(jobs: seq<Job>, id: nat)
    ensures Has(jobs, id) <==> exists k :: 0 <= k < |jobs| && jobs[k].id == id
  {
    if Has(jobs, id) { assert jobs[PlaceOf(jobs, id)].id == id; }
  }

  lemma UnlistedTail(jobs: seq<Job>, m: nat, id: nat)
    requires m <= |jobs| && !Has(jobs, id)
    ensures !Has(jobs[m..], id)
  {
    Listed(jobs, id);
    Listed(jobs[m..], id);
  }

  lemma UnlistedMore(jobs: seq<Job>, j: Job, id: nat)
    requires !Has(jobs, id)
    ensures Has(jobs + [j], id) <==> j.id == id
    ensures Has(jobs + [j], id) ==> Get(jobs + [j], id) == j
  {
    Listed(jobs, id);
    Listed(jobs + [j], id);
    assert (jobs + [j])[|jobs|] == j;
  }

  lemma InsertedTable(s: Server, pid: nat, id: nat)
    requires Gone(s, id)
    ensures Gone(Step(s, InsertJob(pid)), id)
  {
    if pid in s.procs && s.procs[pid].Forgot? { UnlistedMore(s.jobs, NewJob(s, s.procs[pid].order), id); }
  }

  // ---- Done, signed, and deleted ---------------------------------------------------------------

  /** A deletion of stored files removes the file of this job, which is done. */
  ghost predicate Deletes(s: Server, e: Event, id: nat) {
    e.Unlink? && e.id == id && e.deleter in s.deleters && id in s.disk && IsDone(s, id)
  }

  ghost predicate IsDone(s: Server, id: nat) {
    Has(s.jobs, id) && Get(s.jobs, id).state == Done
  }

  ghost predicate DeletedIn(s: Server, run: seq<Event>, id: nat) {
    Happens(s, run, (t, e) => Deletes(t, e, id))
  }

  /** A job that is not over yet, or not stored yet. */
  ghost predicate Unborn(s: Server, id: nat) {
    id >= s.nextId || (Has(s.jobs, id) && !Finished(Get(s.jobs, id)))
  }

  lemma StaysUnborn(s: Server, e: Event, id: nat)
    requires Sound(s) && Unborn(Step(s, e), id)
    ensures Unborn(s, id) && !Deletes(s, e, id)
  {
    if id < s.nextId {
      OldUnborn(s, e, id);
    } else if Has(s.jobs, id) {
      ListedBelow(s, id);
    }
  }

  lemma OldUnborn(s: Server, e: Event, id: nat)
    requires Sound(s) && id < s.nextId && Unborn(Step(s, e), id)
    ensures Has(s.jobs, id) && !Finished(Get(s.jobs, id))
  {
    NextIdGrows(s, e);
    if Has(s.jobs, id) { StatesInOrder(s, e, id); } else { GoneStaysGone(s, e, id); }
  }

  lemma ListedBelow(s: Server, id: nat)
    requires Sound(s) && Has(s.jobs, id)
    ensures id < s.nextId
  {
    assert s.jobs[PlaceOf(s.jobs, id)].id < s.nextId;
  }

  /** A job becomes done with its file on disk, and only a deletion takes the file away while it is. */
  lemma StepDone(s: Server, e: Event, id: nat)
    requires Sound(s) && IsDone(Step(s, e), id)
    ensures if IsDone(s, id) then id in Step(s, e).disk <==> id in s.disk && !Deletes(s, e, id)
            else Unborn(s, id) && id in Step(s, e).disk && !Deletes(s, e, id)
  {
    if Has(s.jobs, id) {
      StatesInOrder(s, e, id);
      if WorkerEvent(e) {
        if e.pid in s.procs && s.procs[e.pid].Worker? { WorkerDone(s, e, id); }
      } else {
        OthersDone(s, e, id);
      }
    } else if id < s.nextId {
      GoneStaysGone(s, e, id);
    } else {
      NewIsQueued(s, e, id);
    }
  }

  lemma NewIsQueued(s: Server, e: Event, id: nat)
    requires Sound(s) && !Has(s.jobs, id) && id >= s.nextId && Has(Step(s, e).jobs, id)
    ensures Get(Step(s, e).jobs, id).state == Queued
  {
    if WorkerEvent(e) {
      if e.pid in s.procs && s.procs[e.pid].Worker? { WorkerAddsNone(s, e, id); }
    } else {
      OthersAddQueued(s, e, id);
    }
  }

  /** On the worker's own job. */
  lemma MoveDone(jobs: seq<Job>, disk: map<nat, FileState>, e: Event, j: Job, stage: Stage)
    requires WorkerEvent(e) && IsJob(jobs, j) && Fits(j, stage, disk) && FileOk(j, disk)
    ensures var m := WorkerMove(jobs, disk, e, j, stage);
            m.Go? && m.job.state == Done ==> if j.state == Done then j.id in m.disk <==> j.id in disk
                                             else !Finished(j) && j.id in m.disk
  {
  }

  lemma JobDone(s: Server, e: Event, j: Job, stage: Stage, id: nat)
    requires WorkerEvent(e) && IsJob(s.jobs, j) && Fits(j, stage, s.disk) && FileOk(j, s.disk)
    requires Has(s.jobs, id) && IsDone(WorkerStep(s, e, j, stage), id)
    requires IsDone(s, id) ==> PointedAt(s.jobs, id)
    ensures if IsDone(s, id) then id in WorkerStep(s, e, j, stage).disk <==> id in s.disk
            else !Finished(Get(s.jobs, id)) && id in WorkerStep(s, e, j, stage).disk
  {
    var m := WorkerMove(s.jobs, s.disk, e, j, stage);
    MoveDone(s.jobs, s.disk, e, j, stage);
    MoveFits(s.jobs, s.disk, e, j, stage);
    StepTables(s, e, j, stage);
    if m.Go? { GetSet(s.jobs, m.job, id); }
  }

  lemma WorkerDone(s: Server, e: Event, id: nat)
    requires Sound(s) && WorkerEvent(e) && e.pid in s.procs && s.procs[e.pid].Worker?
    requires Has(s.jobs, id) && IsDone(Step(s, e), id)
    ensures if IsDone(s, id) then id in Step(s, e).disk <==> id in s.disk
            else !Finished(Get(s.jobs, id)) && id in Step(s, e).disk
  {
    WorkersJob(s, e.pid);
    StepOfWorker(s, e);
    if IsDone(s, id) { DoneIsPointedAt(s, id); }
    JobDone(s, e, Get(s.jobs, s.procs[e.pid].job), s.procs[e.pid].stage, id);
  }

  lemma DoneIsPointedAt(s: Server, id: nat)
    requires Sound(s) && IsDone(s, id)
    ensures PointedAt(s.jobs, id)
  {
    assert FileOk(s.jobs[PlaceOf(s.jobs, id)], s.disk);
  }

  lemma OthersDone(s: Server, e: Event, id: nat)
    requires Sound(s) && !WorkerEvent(e) && Has(s.jobs, id) && IsDone(Step(s, e), id)
    ensures IsDone(s, id) && (id in Step(s, e).disk <==> id in s.disk && !Deletes(s, e, id))
  {
    OthersKeepJob(s, e, id);
    if e.ForgetOld? { ForgetOthersFiles(s, e.pid, id); }
  }

  lemma FrontApart(jobs: seq<Job>, m: nat, id: nat)
    requires InOrder(jobs) && m <= |jobs| && Has(jobs[m..], id)
    ensures forall k :: 0 <= k < m ==> jobs[k].id != id
  {
    var k := PlaceOf(jobs[m..], id);
    assert jobs[m + k].id == id;
  }

  lemma FilesStay(disk: map<nat, FileState>, gone: seq<Job>, id: nat)
    requires id in disk && forall k :: 0 <= k < |gone| ==> gone[k].id != id
    ensures id in DiskWithout(disk, gone)
  {
  }

  lemma ForgottenDisk(s: Server, pid: nat)
    requires pid in s.procs && s.procs[pid].Acquired?
    ensures Step(s, ForgetOld(pid)).disk == DiskWithout(s.disk, ToForget(s.jobs, s.clock))
  {
  }

  lemma ForgottenTables(s: Server, pid: nat)
    requires pid in s.procs && s.procs[pid].Acquired? && InOrder(s.jobs)
    ensures var t, m := Step(s, ForgetOld(pid)), Dropped(s.jobs, s.clock);
            t.jobs == s.jobs[m..] && t.disk == DiskWithout(s.disk, s.jobs[..m])
  {
    ForgottenTable(s, pid);
    ForgottenDisk(s, pid);
    ForgetsOldest(s.jobs, s.clock);
  }

  /** Forgetting takes no file of a job that stays. */
  lemma ForgetOthersFiles(s: Server, pid: nat, id: nat)
    requires Sound(s) && Has(s.jobs, id) && Has(Step(s, ForgetOld(pid)).jobs, id)
    ensures id in s.disk ==> id in Step(s, ForgetOld(pid)).disk
  {
    if pid in s.procs && s.procs[pid].Acquired? {
      var m := Dropped(s.jobs, s.clock);
      ForgottenTables(s, pid);
      FrontApart(s.jobs, m, id);
      if id in s.disk { FilesStay(s.disk, s.jobs[..m], id); }
    }
  }

  /** Main result about deletions. In every run a job that is done has its file on disk, unless a
      request to delete stored files has removed it after the job was done. */
  lemma DoneHasFile(clock: int, run: seq<Event>, id: nat)
    requires IsDone(After(Fresh(clock), run), id)
    ensures id in After(Fresh(clock), run).disk <==> !DeletedIn(Fresh(clock), run, id)
  {
    DoneOrUnborn(clock, run, id);
  }

  lemma {:induction false} DoneOrUnborn(clock: int, run: seq<Event>, id: nat)
    ensures var t := After(Fresh(clock), run);
            && (IsDone(t, id) ==> (id in t.disk <==> !DeletedIn(Fresh(clock), run, id)))
            && (Unborn(t, id) ==> !DeletedIn(Fresh(clock), run, id))
  {
    if run != [] {
      var s := After(Fresh(clock), DropLast(run));
      DoneOrUnborn(clock, DropLast(run), id);
      FreshSound(clock);
      RunSound(Fresh(clock), DropLast(run));
      HappensLast(Fresh(clock), run, (t, e) => Deletes(t, e, id));
      if IsDone(Step(s, Last(run)), id) { StepDone(s, Last(run), id); }
      if Unborn(Step(s, Last(run)), id) { StaysUnborn(s, Last(run), id); }
    }
  }

  /** Main result. In every run, deletions included: a done job names its file, that of a certificate
      job is signed with it if it is still there, a job is marked signed exactly when a command or
      certificate signed it, and a job whose signing failed has no file, to give out or on disk. */
  lemma DoneMeansSigned(clock: int, run: seq<Event>, j: Job)
    requires j in After(Fresh(clock), run).jobs
    ensures var disk := After(Fresh(clock), run).disk;
            && (j.state == Done ==> j.file && (j.signed <==> j.command || j.certificate))
            && (j.state == Done && j.certificate ==> IfThere(j.id, disk, CertSigned))
            && (j.state == Done ==> (j.id !in disk <==> DeletedIn(Fresh(clock), run, j.id)))
            && (j.message == SigningFailed ==> j.state == Failed && !j.file && j.id !in disk)
  {
    var s := After(Fresh(clock), run);
    FreshSound(clock);
    RunSound(Fresh(clock), run);
    var k :| 0 <= k < |s.jobs| && s.jobs[k] == j;
    assert FileOk(s.jobs[k], s.disk);
    TheJob(s.jobs, k);
    if j.state == Done { DoneHasFile(clock, run, j.id); }
  }

  /** What can be downloaded: in every run the file of a done job until it is deleted, never an
      unsigned file of a certificate job, and nothing of a job that is not done. */
  lemma DownloadedIsSigned(clock: int, run: seq<Event>, id: nat)
    ensures var s := After(Fresh(clock), run);
            && (Download(s, id).Some? <==> IsDone(s, id) && !DeletedIn(Fresh(clock), run, id))
            && (Download(s, id).Some? && Get(s.jobs, id).certificate ==> Download(s, id) == Some(CertSigned))
  {
    var s := After(Fresh(clock), run);
    if Has(s.jobs, id) { DoneMeansSigned(clock, run, Get(s.jobs, id)); }
  }

  // ---- Deletions and the slot -----------------------------------------------------------------

  /** A file, if there is one of this name, is deleted. */
  ghost predicate Unlinks(s: Server, e: Event) {
    e.Unlink? && e.deleter in s.deleters
  }

  /** While the slot is taken, no deletion begins: if none was under way when it was taken, none takes
      place until it is given back. */
  lemma {:induction false} BusyKeepsFiles(s: Server, run: seq<Event>)
    requires s.deleters == {} && !Happens(s, run, (t: Server, e: Event) => !t.locked)
    ensures After(s, run).deleters == {} && !Happens(s, run, (t, e) => Unlinks(t, e))
  {
    if run != [] {
      HappensLast(s, run, (t: Server, e: Event) => !t.locked);
      HappensLast(s, run, (t, e) => Unlinks(t, e));
      BusyKeepsFiles(s, DropLast(run));
      BusyStep(After(s, DropLast(run)), Last(run));
    }
  }

  lemma BusyStep(s: Server, e: Event)
    requires s.deleters == {} && s.locked
    ensures Step(s, e).deleters == {} && !Unlinks(s, e)
  {
  }

  // ---- A build that insists on the certificate -----------------------------------------------

  /** A build that insists is accepted if and only if the server signs or the certificate can be used. */
  lemma WantedIsPlanned(o: Order)
    requires o.wanted == Some(true)
    ensures CertificatePlan(o).Ok? <==> o.command || o.certificate == Usable
    ensures CertificatePlan(o).Ok? && !o.command ==> CertificatePlan(o) == Ok(true)
  {
  }

  /** The job's plan is settled when it is stored, whatever happens afterwards. */
  lemma {:induction false} PlanStays(s: Server, run: seq<Event>, id: nat)
    requires Sound(s) && Has(s.jobs, id)
    ensures id < After(s, run).nextId
    ensures Has(After(s, run).jobs, id) ==> Get(After(s, run).jobs, id).certificate == Get(s.jobs, id).certificate
  {
    if run == [] {
      assert s.jobs[PlaceOf(s.jobs, id)].id < s.nextId;
    } else {
      var t := After(s, DropLast(run));
      PlanStays(s, DropLast(run), id);
      RunSound(s, DropLast(run));
      StepKeeps(t, Last(run));
      if Has(t.jobs, id) {
        if Has(Step(t, Last(run)).jobs, id) { StatesInOrder(t, Last(run), id); }
      } else {
        GoneStaysGone(t, Last(run), id);
      }
      NextIdGrows(t, Last(run));
    }
  }

  lemma NextIdGrows(s: Server, e: Event)
    ensures s.nextId <= Step(s, e).nextId
  {
  }

  lemma {:induction false} AfterJoined(s: Server, a: seq<Event>, b: seq<Event>)
    ensures After(s, a + b) == After(After(s, a), b)
  {
    if b == [] {
      assert a + b == a;
    } else {
      assert DropLast(a + b) == a + DropLast(b);
      AfterJoined(s, a, DropLast(b));
    }
  }

  lemma StoredPlan(s: Server, pid: nat, o: Order)
    requires Sound(s) && pid in s.procs && s.procs[pid] == Forgot(o)
    ensures var t := Step(s, InsertJob(pid));
            Has(t.jobs, s.nextId) && Get(t.jobs, s.nextId).certificate == (CertificatePlan(o) == Ok(true))
  {
    AppendedTable(s.jobs, NewJob(s, o), s.clock);
  }

  /** Main result. If an accepted build insists on the certificate and the server has no signing
      command of its own, then whatever happens before and after its job is stored, the job is done
      only with a file signed with the certificate, which is there until it is deleted. */
  lemma InsistedIsSigned(clock: int, before: seq<Event>, pid: nat, after: seq<Event>)
    requires var s := After(Fresh(clock), before);
             && pid in s.procs && s.procs[pid].Forgot?
             && s.procs[pid].order.wanted == Some(true) && !s.procs[pid].order.command
    ensures var id := After(Fresh(clock), before).nextId;
            var t := After(Fresh(clock), before + ([InsertJob(pid)] + after));
            Has(t.jobs, id) && Get(t.jobs, id).state == Done ==>
              && Get(t.jobs, id).signed && IfThere(id, t.disk, CertSigned)
              && (id !in t.disk <==> DeletedIn(Fresh(clock), before + ([InsertJob(pid)] + after), id))
  {
    var s := After(Fresh(clock), before);
    var id, o, run := s.nextId, s.procs[pid].order, before + ([InsertJob(pid)] + after);
    FreshSound(clock);
    RunSound(Fresh(clock), before);
    assert HolderOk(s.jobs, s.disk, s.procs[pid]);
    WantedIsPlanned(o);
    StoredPlan(s, pid, o);
    StepKeeps(s, InsertJob(pid));
    OneEvent(s, InsertJob(pid));
    PlanStays(Step(s, InsertJob(pid)), after, id);
    AfterJoined(Fresh(clock), before, [InsertJob(pid)] + after);
    AfterJoined(s, [InsertJob(pid)], after);
    var t := After(Fresh(clock), run);
    if Has(t.jobs, id) { DoneMeansSigned(clock, run, Get(t.jobs, id)); }
  }

  lemma OneEvent(s: Server, e: Event)
    ensures After(s, [e]) == Step(s, e)
  {
    assert DropLast([e]) == [];
  }

  // ---- An unsigned file left behind ---------------------------------------------------------------

  /** A job that was to be signed with the certificate is over and has an unsigned file on disk. */
  ghost predicate UnsignedIn(jobs: seq<Job>, disk: map<nat, FileState>, id: nat) {
    Has(jobs, id) && Unsigned(Get(jobs, id), disk)
  }

  predicate Unsigned(j: Job, disk: map<nat, FileState>) {
    j.certificate && Finished(j) && j.id in disk && disk[j.id] == Plain
  }

  ghost predicate UnsignedLeft(s: Server, id: nat) {
    UnsignedIn(s.jobs, s.disk, id)
  }

  /** The build fails after its file was written, or signing ends in an error other than a signing
      error before the signed copy has taken the file's place. */
  predicate Spoils(e: Event, stage: Stage) {
    e.Fails? && stage in {AtCheck, AtSign, AtCopy, AtSwap}
  }

  ghost predicate LeavesUnsigned(s: Server, e: Event, id: nat) {
    && WorkerEvent(e) && e.pid in s.procs && s.procs[e.pid].Worker? && s.procs[e.pid].job == id
    && Spoils(e, s.procs[e.pid].stage)
    && Has(s.jobs, id) && Get(s.jobs, id).certificate && id in s.disk
  }

  /** On the worker's own job. */
  lemma MoveUnsigned(jobs: seq<Job>, disk: map<nat, FileState>, e: Event, j: Job, stage: Stage)
    requires WorkerEvent(e) && Fits(j, stage, disk) && FileOk(j, disk) && !Unsigned(j, disk)
    ensures var m := WorkerMove(jobs, disk, e, j, stage);
            if m.Go? then Unsigned(m.job, m.disk) <==> j.certificate && Spoils(e, stage) && j.id in disk
            else !Spoils(e, stage)
  {
  }

  lemma MovedUnsigned(jobs: seq<Job>, disk: map<nat, FileState>, e: Event, j: Job, stage: Stage, id: nat)
    requires WorkerEvent(e) && IsJob(jobs, j) && Fits(j, stage, disk) && FileOk(j, disk) && !UnsignedIn(jobs, disk, id)
    ensures var m := WorkerMove(jobs, disk, e, j, stage);
            m.Go? ==> (UnsignedIn(SetJob(jobs, m.job), m.disk, id)
                       <==> id == j.id && j.certificate && Spoils(e, stage) && j.id in disk)
  {
    var m := WorkerMove(jobs, disk, e, j, stage);
    MoveFits(jobs, disk, e, j, stage);
    if id == j.id { MoveUnsigned(jobs, disk, e, j, stage); }
    if m.Go? { GetSet(jobs, m.job, id); }
  }

  /** One step leaves an unsigned file behind if and only if it is one of these. */
  lemma StepLeavesUnsigned(s: Server, e: Event, id: nat)
    requires Sound(s) && !UnsignedLeft(s, id)
    ensures UnsignedLeft(Step(s, e), id) <==> LeavesUnsigned(s, e, id)
  {
    if WorkerEvent(e) {
      if e.pid in s.procs && s.procs[e.pid].Worker? { WorkerLeavesUnsigned(s, e, id); }
    } else {
      OtherLeaveNone(s, e, id);
    }
  }

  lemma WorkersJob(s: Server, pid: nat)
    requires Sound(s) && pid in s.procs && s.procs[pid].Worker?
    ensures Has(s.jobs, s.procs[pid].job)
    ensures var j := Get(s.jobs, s.procs[pid].job);
            IsJob(s.jobs, j) && Fits(j, s.procs[pid].stage, s.disk) && FileOk(j, s.disk)
  {
    assert HolderOk(s.jobs, s.disk, s.procs[pid]);
    assert FileOk(Get(s.jobs, s.procs[pid].job), s.disk);
  }

  lemma WorkerLeavesUnsigned(s: Server, e: Event, id: nat)
    requires Sound(s) && !UnsignedLeft(s, id) && WorkerEvent(e) && e.pid in s.procs && s.procs[e.pid].Worker?
    ensures UnsignedLeft(Step(s, e), id) <==> LeavesUnsigned(s, e, id)
  {
    WorkersJob(s, e.pid);
    StepOfWorker(s, e);
    JobLeavesUnsigned(s, e, Get(s.jobs, s.procs[e.pid].job), s.procs[e.pid].stage, id);
  }

  lemma JobLeavesUnsigned(s: Server, e: Event, j: Job, stage: Stage, id: nat)
    requires WorkerEvent(e) && IsJob(s.jobs, j) && Fits(j, stage, s.disk) && FileOk(j, s.disk)
    requires !UnsignedLeft(s, id)
    ensures UnsignedLeft(WorkerStep(s, e, j, stage), id)
       <==> id == j.id && j.certificate && Spoils(e, stage) && j.id in s.disk
  {
    MovedUnsigned(s.jobs, s.disk, e, j, stage, id);
    StepTables(s, e, j, stage);
    if id == j.id { MoveUnsigned(s.jobs, s.disk, e, j, stage); }
  }

  lemma OtherLeaveNone(s: Server, e: Event, id: nat)
    requires Sound(s) && !UnsignedLeft(s, id) && !WorkerEvent(e)
    ensures !UnsignedLeft(Step(s, e), id)
  {
    var t := Step(s, e);
    if UnsignedLeft(t, id) {
      if Has(s.jobs, id) {
        OthersKeepJob(s, e, id);
      } else {
        OthersAddQueued(s, e, id);
      }
    }
  }

  lemma OthersKeepJob(s: Server, e: Event, id: nat)
    requires Sound(s) && !WorkerEvent(e) && Has(s.jobs, id) && Has(Step(s, e).jobs, id)
    ensures Get(Step(s, e).jobs, id) == Get(s.jobs, id)
    ensures id in Step(s, e).disk ==> id in s.disk && Step(s, e).disk[id] == s.disk[id]
  {
    OthersOrder(s, e, id);
    if id in Step(s, e).disk { OthersWriteNothing(s, e, id); }
  }

  lemma OthersAddQueued(s: Server, e: Event, id: nat)
    requires Sound(s) && !WorkerEvent(e) && !Has(s.jobs, id) && Has(Step(s, e).jobs, id)
    ensures Get(Step(s, e).jobs, id).state == Queued
  {
    if id < s.nextId {
      GoneStaysGone(s, e, id);
    } else if e.InsertJob? {
      if e.pid in s.procs && s.procs[e.pid].Forgot? { UnlistedMore(s.jobs, NewJob(s, s.procs[e.pid].order), id); }
    } else if e.ForgetOld? {
      ForgottenTable(s, e.pid);
      ForgetsOldest(s.jobs, s.clock);
      UnlistedTail(s.jobs, Dropped(s.jobs, s.clock), id);
    } else {
      OtherSteps(s, e);
    }
  }

  /** What takes such a file away again: its deletion, the clean-up after a later build, or the job's
      being forgotten. */
  ghost predicate TakesAway(s: Server, e: Event, id: nat) {
    || (e.Unlink? && e.id == id && e.deleter in s.deleters)
    || (e.Pruned? && id in e.removed
        && e.pid in s.procs && s.procs[e.pid].Worker? && s.procs[e.pid].stage == AtPrune)
    || (e.ForgetOld? && e.pid in s.procs && s.procs[e.pid].Acquired? && !Has(Step(s, e).jobs, id))
  }

  lemma StepTakesAway(s: Server, e: Event, id: nat)
    requires Sound(s) && UnsignedLeft(s, id)
    ensures UnsignedLeft(Step(s, e), id) <==> !TakesAway(s, e, id)
  {
    if WorkerEvent(e) {
      if e.pid in s.procs && s.procs[e.pid].Worker? { WorkerTakesAway(s, e, id); }
    } else {
      OthersTakeAway(s, e, id);
    }
  }

  lemma MoveTakesAway(jobs: seq<Job>, disk: map<nat, FileState>, e: Event, j: Job, stage: Stage, id: nat)
    requires WorkerEvent(e) && IsJob(jobs, j) && Fits(j, stage, disk) && UnsignedIn(jobs, disk, id)
    requires FileOk(Get(jobs, id), disk)
    ensures var m := WorkerMove(jobs, disk, e, j, stage);
            && (m.Go? ==>
                  && id != j.id && m.job.id == j.id && (e.Pruned? ==> stage == AtPrune)
                  && (id in m.disk <==> !(e.Pruned? && id in e.removed))
                  && (id in m.disk ==> m.disk[id] == Plain))
            && (e.Pruned? && stage == AtPrune ==> m.Go?)
  {
  }

  lemma JobTakesAway(s: Server, e: Event, j: Job, stage: Stage, id: nat)
    requires WorkerEvent(e) && IsJob(s.jobs, j) && Fits(j, stage, s.disk) && UnsignedLeft(s, id)
    requires FileOk(Get(s.jobs, id), s.disk)
    ensures UnsignedLeft(WorkerStep(s, e, j, stage), id) <==> !(e.Pruned? && id in e.removed && stage == AtPrune)
  {
    var m := WorkerMove(s.jobs, s.disk, e, j, stage);
    MoveTakesAway(s.jobs, s.disk, e, j, stage, id);
    StepTables(s, e, j, stage);
    if m.Go? { GetSet(s.jobs, m.job, id); }
  }

  lemma WorkerTakesAway(s: Server, e: Event, id: nat)
    requires Sound(s) && UnsignedLeft(s, id) && WorkerEvent(e) && e.pid in s.procs && s.procs[e.pid].Worker?
    ensures UnsignedLeft(Step(s, e), id) <==> !TakesAway(s, e, id)
  {
    WorkersJob(s, e.pid);
    StepOfWorker(s, e);
    assert FileOk(s.jobs[PlaceOf(s.jobs, id)], s.disk);
    JobTakesAway(s, e, Get(s.jobs, s.procs[e.pid].job), s.procs[e.pid].stage, id);
  }

  lemma OthersTakeAway(s: Server, e: Event, id: nat)
    requires Sound(s) && UnsignedLeft(s, id) && !WorkerEvent(e)
    ensures UnsignedLeft(Step(s, e), id) <==> !TakesAway(s, e, id)
  {
    if Has(Step(s, e).jobs, id) {
      OthersKeepJob(s, e, id);
      if e.ForgetOld? { ForgetOthersFiles(s, e.pid, id); }
    } else if e.InsertJob? {
      if e.pid in s.procs && s.procs[e.pid].Forgot? { StaysWithMore(s.jobs, NewJob(s, s.procs[e.pid].order), id); }
    } else if !e.ForgetOld? {
      OtherSteps(s, e);
    }
  }

  lemma StaysWithMore(jobs: seq<Job>, j: Job, id: nat)
    requires Has(jobs, id)
    ensures Has(jobs + [j], id)
  {
    Listed(jobs + [j], id);
    assert (jobs + [j])[PlaceOf(jobs, id)].id == id;
  }

  /** No event after the `k`th takes the file away. */
  ghost predicate KeptSince(s: Server, run: seq<Event>, k: nat, id: nat) {
    forall l :: k < l < |run| ==> !TakesAway(After(s, run[..l]), run[l], id)
  }

  /** The `k`th event of the run leaves the unsigned file, and no later one takes it away. */
  ghost predicate LeftAt(s: Server, run: seq<Event>, k: nat, id: nat) {
    k < |run| && LeavesUnsigned(After(s, run[..k]), run[k], id) && KeptSince(s, run, k, id)
  }

  lemma KeptLonger(s: Server, run: seq<Event>, k: nat, id: nat)
    requires run != [] && k < |run| - 1
    ensures KeptSince(s, run, k, id)
       <==> KeptSince(s, DropLast(run), k, id) && !TakesAway(After(s, DropLast(run)), Last(run), id)
  {
    Prefixes(run);
    var init, n := DropLast(run), |run| - 1;
    forall l | k < l < n
      ensures TakesAway(After(s, run[..l]), run[l], id) <==> TakesAway(After(s, init[..l]), init[l], id)
    {
    }
  }

  lemma LeftAtLonger(s: Server, run: seq<Event>, k: nat, id: nat)
    requires run != [] && k < |run| - 1
    ensures LeftAt(s, run, k, id)
       <==> LeftAt(s, DropLast(run), k, id) && !TakesAway(After(s, DropLast(run)), Last(run), id)
  {
    Prefixes(run);
    KeptLonger(s, run, k, id);
  }

  lemma LeftAtLast(s: Server, run: seq<Event>, id: nat)
    requires run != []
    ensures LeftAt(s, run, |run| - 1, id) <==> LeavesUnsigned(After(s, DropLast(run)), Last(run), id)
  {
  }

  /** Only an unfinished job can leave one. */
  lemma LeavesOnce(s: Server, e: Event, id: nat)
    requires Sound(s) && LeavesUnsigned(s, e, id)
    ensures !UnsignedLeft(s, id)
  {
    WorkersJob(s, e.pid);
  }

  ghost predicate SomeLeft(s: Server, run: seq<Event>, id: nat) {
    exists k: nat :: LeftAt(s, run, k, id)
  }

  lemma SomeLeftBefore(s: Server, run: seq<Event>, id: nat)
    requires run != [] && SomeLeft(s, run, id) && !LeavesUnsigned(After(s, DropLast(run)), Last(run), id)
    ensures SomeLeft(s, DropLast(run), id) && !TakesAway(After(s, DropLast(run)), Last(run), id)
  {
    var k: nat :| LeftAt(s, run, k, id);
    LeftAtLast(s, run, id);
    LeftAtLonger(s, run, k, id);
  }

  lemma SomeLeftStill(s: Server, run: seq<Event>, id: nat)
    requires run != [] && SomeLeft(s, DropLast(run), id) && !TakesAway(After(s, DropLast(run)), Last(run), id)
    ensures SomeLeft(s, run, id)
  {
    var k: nat :| LeftAt(s, DropLast(run), k, id);
    LeftAtLonger(s, run, k, id);
  }

  lemma SomeLeftLast(s: Server, run: seq<Event>, id: nat)
    requires run != []
    ensures SomeLeft(s, run, id)
       <==> || LeavesUnsigned(After(s, DropLast(run)), Last(run), id)
            || (SomeLeft(s, DropLast(run), id) && !TakesAway(After(s, DropLast(run)), Last(run), id))
  {
    if LeavesUnsigned(After(s, DropLast(run)), Last(run), id) {
      LeftAtLast(s, run, id);
      assert LeftAt(s, run, |run| - 1, id);
    } else if SomeLeft(s, run, id) {
      SomeLeftBefore(s, run, id);
    } else if SomeLeft(s, DropLast(run), id) && !TakesAway(After(s, DropLast(run)), Last(run), id) {
      SomeLeftStill(s, run, id);
    }
  }

  /** Main result. In every run from an empty table: an unsigned file of a certificate job that is over
      is on disk if and only if a failing build had written it, or signing ended in an error that is no
      signing error before the signed copy was in place, and nothing has taken the file away since. */
  lemma {:induction false} UnsignedOnlyFrom(clock: int, run: seq<Event>, id: nat)
    ensures UnsignedLeft(After(Fresh(clock), run), id) <==> SomeLeft(Fresh(clock), run, id)
  {
    if run != [] {
      var s, e := After(Fresh(clock), DropLast(run)), Last(run);
      UnsignedOnlyFrom(clock, DropLast(run), id);
      FreshSound(clock);
      RunSound(Fresh(clock), DropLast(run));
      SomeLeftLast(Fresh(clock), run, id);
      if UnsignedLeft(s, id) {
        StepTakesAway(s, e, id);
        if LeavesUnsigned(s, e, id) { LeavesOnce(s, e, id); }
      } else {
        StepLeavesUnsigned(s, e, id);
      }
    }
  }

  // ---- The swap decides --------------------------------------------------------------------------

  /** The signed copy takes the place of this job's file. */
  ghost predicate Swaps(s: Server, e: Event, id: nat) {
    e.Swapped? && e.pid in s.procs && s.procs[e.pid] == Worker(id, AtSwap)
  }

  ghost predicate SwapIn(s: Server, run: seq<Event>, id: nat) {
    Happens(s, run, (t, e) => Swaps(t, e, id))
  }

  /** Signing of this job has begun: it is signing, over, or forgotten. */
  ghost predicate PastBuild(s: Server, id: nat) {
    id < s.nextId && (Has(s.jobs, id) ==> Get(s.jobs, id).state in {Signing, Done, Failed})
  }

  lemma StaysPastBuild(s: Server, e: Event, id: nat)
    requires Sound(s) && PastBuild(s, id)
    ensures PastBuild(Step(s, e), id)
  {
    NextIdGrows(s, e);
    if Has(s.jobs, id) {
      if Has(Step(s, e).jobs, id) { StatesInOrder(s, e, id); }
    } else {
      GoneStaysGone(s, e, id);
    }
  }

  lemma MoveWrites(jobs: seq<Job>, disk: map<nat, FileState>, e: Event, j: Job, stage: Stage, id: nat)
    requires WorkerEvent(e) && Fits(j, stage, disk) && (id == j.id ==> j.state in {Signing, Done, Failed})
    ensures var m := WorkerMove(jobs, disk, e, j, stage);
            m.Go? && id in m.disk ==>
              if e.Swapped? && stage == AtSwap && id == j.id then m.disk[id] == CertSigned
              else id in disk && m.disk[id] == disk[id]
    ensures e.Swapped? && stage == AtSwap ==> WorkerMove(jobs, disk, e, j, stage).Go?
  {
  }

  lemma WorkerWrites(s: Server, e: Event, id: nat)
    requires Sound(s) && PastBuild(s, id) && WorkerEvent(e) && e.pid in s.procs && s.procs[e.pid].Worker?
    requires id in Step(s, e).disk
    ensures if Swaps(s, e, id) then Step(s, e).disk[id] == CertSigned
            else id in s.disk && Step(s, e).disk[id] == s.disk[id]
  {
    WorkersJob(s, e.pid);
    StepOfWorker(s, e);
    var j, stage := Get(s.jobs, s.procs[e.pid].job), s.procs[e.pid].stage;
    MoveWrites(s.jobs, s.disk, e, j, stage, id);
    StepTables(s, e, j, stage);
  }

  /** From then on only the swap changes what the file is. */
  lemma OnlySwapWrites(s: Server, e: Event, id: nat)
    requires Sound(s) && PastBuild(s, id) && id in Step(s, e).disk
    ensures if Swaps(s, e, id) then Step(s, e).disk[id] == CertSigned
            else id in s.disk && Step(s, e).disk[id] == s.disk[id]
  {
    if WorkerEvent(e) {
      if e.pid in s.procs && s.procs[e.pid].Worker? { WorkerWrites(s, e, id); }
    } else {
      OthersWriteNothing(s, e, id);
    }
  }

  lemma OthersWriteNothing(s: Server, e: Event, id: nat)
    requires !WorkerEvent(e) && id in Step(s, e).disk
    ensures id in s.disk && Step(s, e).disk[id] == s.disk[id]
  {
  }

  /** Main result about signing. Once it has begun, then whatever happens, for as long as the job's file
      is on disk it is signed if and only if the swap has taken place. */
  lemma {:induction false} SigningLeaves(s: Server, pid: nat, run: seq<Event>)
    requires Sound(s) && pid in s.procs && s.procs[pid].Worker? && s.procs[pid].stage == AtSign
    ensures var id, t := s.procs[pid].job, After(s, run);
            && PastBuild(t, id)
            && (id in t.disk ==> (t.disk[id] == CertSigned <==> SwapIn(s, run, id)))
  {
    var id := s.procs[pid].job;
    if run == [] {
      WorkersJob(s, pid);
      assert s.jobs[PlaceOf(s.jobs, id)].id < s.nextId;
    } else {
      var t := After(s, DropLast(run));
      SigningLeaves(s, pid, DropLast(run));
      RunSound(s, DropLast(run));
      StaysPastBuild(t, Last(run), id);
      HappensLast(s, run, (t, e) => Swaps(t, e, id));
      if id in Step(t, Last(run)).disk { OnlySwapWrites(t, Last(run), id); }
    }
  }

  // ---- Runs from an empty table --------------------------------------------------------------------

  /** A server whose only job is being worked on. */
  ghost function Working(clock: int, j: Job, stage: Stage, disk: map<nat, FileState>, deleters: set<nat>): Server {
    Server([j], disk, true, map[0 := Worker(0, stage)], clock, 1, {}, 1, 0, deleters)
  }

  lemma WorkingStep(clock: int, j: Job, stage: Stage, disk: map<nat, FileState>, deleters: set<nat>, e: Event)
    requires j.id == 0 && WorkerEvent(e) && e.pid == 0 && WorkerMove([j], disk, e, j, stage).Go?
    ensures var m := WorkerMove([j], disk, e, j, stage);
            m.job.id == 0 ==>
              Step(Working(clock, j, stage, disk, deleters), e) == Working(clock, m.job, m.stage, m.disk, deleters)
  {
    var s, m := Working(clock, j, stage, disk, deleters), WorkerMove([j], disk, e, j, stage);
    StepOfWorker(s, e);
    assert SetJob([j], m.job) == if m.job.id == 0 then [m.job] else [j];
  }

  ghost function FirstJob(clock: int, o: Order, state: JobState): Job {
    Job(0, clock, state, true, o.command, false, false, NoProblem)
  }

  /** An empty table; deletions may have found the slot free. */
  ghost function Empty(clock: int, deleters: set<nat>): Server {
    Fresh(clock).(deleters := deleters)
  }

  ghost function FirstStored(clock: int, o: Order, deleters: set<nat>): Server {
    Step(Step(Step(Step(Empty(clock, deleters), Request(0, o)), ForgetOld(0)), InsertJob(0)), StartThread(0))
  }

  lemma FirstIsStored(clock: int, o: Order, deleters: set<nat>)
    requires CertificatePlan(o) == Ok(true)
    ensures FirstStored(clock, o, deleters) == Working(clock, FirstJob(clock, o, Queued), AtStart, map[], deleters)
  {
    var s1 := Step(Empty(clock, deleters), Request(0, o));
    var s2 := Step(s1, ForgetOld(0));
    assert s2 == s1.(procs := map[0 := Forgot(o)]);
    var s3 := Step(s2, InsertJob(0));
    assert s3.jobs == [NewJob(s2, o)];
  }

  ghost function Compiling(clock: int, o: Order, deleters: set<nat>): Server {
    Step(Step(FirstStored(clock, o, deleters), Begin(0)), Fetched(0))
  }

  lemma CompilingState(clock: int, o: Order, deleters: set<nat>)
    requires CertificatePlan(o) == Ok(true)
    ensures Compiling(clock, o, deleters) == Working(clock, FirstJob(clock, o, Building), AtBuild, map[], deleters)
  {
    FirstIsStored(clock, o, deleters);
    WorkingStep(clock, FirstJob(clock, o, Queued), AtStart, map[], deleters, Begin(0));
    WorkingStep(clock, FirstJob(clock, o, Downloading), AtDownload, map[], deleters, Fetched(0));
  }

  /** The first build of a server up to its signing. */
  ghost function SigningStarts(clock: int, o: Order, deleters: set<nat>): Server {
    Step(Step(Compiling(clock, o, deleters), Wrote(0)), Built(0))
  }

  lemma SigningState(clock: int, o: Order, deleters: set<nat>)
    requires CertificatePlan(o) == Ok(true)
    ensures SigningStarts(clock, o, deleters)
         == Working(clock, FirstJob(clock, o, Signing), AtSign, map[0 := Plain], deleters)
  {
    CompilingState(clock, o, deleters);
    WorkingStep(clock, FirstJob(clock, o, Building), AtBuild, map[], deleters, Wrote(0));
    WorkingStep(clock, FirstJob(clock, o, Building), AtCheck, map[0 := Plain], deleters, Built(0));
  }

  /** How far its signing has come. */
  ghost function SigningAt(clock: int, o: Order, deleters: set<nat>, stage: Stage): Server
    requires stage in {AtSign, AtCopy, AtSwap, AtTidy}
    decreases match stage case AtCopy => 1 case AtSwap => 2 case AtTidy => 3 case _ => 0
  {
    match stage
    case AtCopy => Step(SigningAt(clock, o, deleters, AtSign), ToolSigned(0))
    case AtSwap => Step(SigningAt(clock, o, deleters, AtCopy), Copied(0))
    case AtTidy => Step(SigningAt(clock, o, deleters, AtSwap), Swapped(0))
    case _ => SigningStarts(clock, o, deleters)
  }

  ghost function FileAt(stage: Stage): FileState {
    if stage == AtTidy then CertSigned else Plain
  }

  lemma CopyState(clock: int, o: Order, deleters: set<nat>)
    requires CertificatePlan(o) == Ok(true)
    ensures SigningAt(clock, o, deleters, AtCopy)
         == Working(clock, FirstJob(clock, o, Signing), AtCopy, map[0 := Plain], deleters)
  {
    SigningState(clock, o, deleters);
    WorkingStep(clock, FirstJob(clock, o, Signing), AtSign, map[0 := Plain], deleters, ToolSigned(0));
  }

  lemma SwapState(clock: int, o: Order, deleters: set<nat>)
    requires CertificatePlan(o) == Ok(true)
    ensures SigningAt(clock, o, deleters, AtSwap)
         == Working(clock, FirstJob(clock, o, Signing), AtSwap, map[0 := Plain], deleters)
  {
    CopyState(clock, o, deleters);
    WorkingStep(clock, FirstJob(clock, o, Signing), AtCopy, map[0 := Plain], deleters, Copied(0));
  }

  lemma TidyState(clock: int, o: Order, deleters: set<nat>)
    requires CertificatePlan(o) == Ok(true)
    ensures SigningAt(clock, o, deleters, AtTidy)
         == Working(clock, FirstJob(clock, o, Signing), AtTidy, map[0 := CertSigned], deleters)
  {
    SwapState(clock, o, deleters);
    WorkingStep(clock, FirstJob(clock, o, Signing), AtSwap, map[0 := Plain], deleters, Swapped(0));
  }

  lemma SigningAtState(clock: int, o: Order, deleters: set<nat>, stage: Stage)
    requires CertificatePlan(o) == Ok(true) && stage in {AtSign, AtCopy, AtSwap, AtTidy}
    ensures SigningAt(clock, o, deleters, stage)
         == Working(clock, FirstJob(clock, o, Signing), stage, map[0 := FileAt(stage)], deleters)
  {
    match stage
    case AtCopy => CopyState(clock, o, deleters);
    case AtSwap => SwapState(clock, o, deleters);
    case AtTidy => TidyState(clock, o, deleters);
    case _ => SigningState(clock, o, deleters);
  }

  /** The signing of the first build ends here in an error that is no signing error. */
  ghost function SigningBroke(clock: int, o: Order, stage: Stage): Server
    requires stage in {AtSign, AtCopy, AtSwap, AtTidy}
  {
    Step(Step(SigningAt(clock, o, {}, stage), Fails(0)), Release(0))
  }

  lemma BrokeAndReleased(clock: int, j: Job, stage: Stage, disk: map<nat, FileState>)
    requires j.id == 0 && stage in {AtSign, AtCopy, AtSwap, AtTidy}
    ensures var t := Step(Step(Working(clock, j, stage, disk, {}), Fails(0)), Release(0));
            t.jobs == [GaveUp(j, stage)] && t.disk == disk && !t.locked
  {
    WorkingStep(clock, j, stage, disk, {}, Fails(0));
    WorkingReleased(clock, GaveUp(j, stage), disk, {});
  }

  lemma SigningBrokeState(clock: int, o: Order, stage: Stage)
    requires CertificatePlan(o) == Ok(true) && stage in {AtSign, AtCopy, AtSwap, AtTidy}
    ensures var t := SigningBroke(clock, o, stage);
            && t.jobs == [FirstJob(clock, o, Failed).(message := OtherProblem)]
            && t.disk == map[0 := FileAt(stage)] && !t.locked
  {
    SigningAtState(clock, o, {}, stage);
    BrokeAndReleased(clock, FirstJob(clock, o, Signing), stage, map[0 := FileAt(stage)]);
  }

  /** A run from an empty table in which an error that is no signing error ends the signing: before
      the swap it leaves the unsigned file on disk, after it the signed one. Either way the job has
      failed, gives out nothing, and the slot is free again. */
  lemma SigningErrorLeavesFile(clock: int, o: Order, stage: Stage)
    requires CertificatePlan(o) == Ok(true) && stage in {AtSign, AtCopy, AtSwap, AtTidy}
    ensures var t := SigningBroke(clock, o, stage);
            && !t.locked && Has(t.jobs, 0) && Get(t.jobs, 0).state == Failed && Download(t, 0).None?
            && (UnsignedLeft(t, 0) <==> stage != AtTidy)
            && (stage == AtTidy ==> 0 in t.disk && t.disk[0] == CertSigned)
  {
    SigningBrokeState(clock, o, stage);
  }

  lemma WorkingReleased(clock: int, j: Job, disk: map<nat, FileState>, deleters: set<nat>)
    requires j.id == 0
    ensures var t := Step(Working(clock, j, AtRelease, disk, deleters), Release(0));
            t.jobs == [j] && t.disk == disk && !t.locked && t.deleters == deleters
  {
  }

  ghost function Stored(clock: int, o: Order): Server {
    Step(Step(SigningAt(clock, o, {}, AtTidy), Tidied(0)), Finish(0))
  }

  ghost function FirstDone(clock: int, o: Order): Job {
    FirstJob(clock, o, Done).(file := true, signed := true)
  }

  lemma StoredState(clock: int, o: Order)
    requires CertificatePlan(o) == Ok(true)
    ensures Stored(clock, o) == Working(clock, FirstDone(clock, o), AtPrune, map[0 := CertSigned], {})
  {
    var j, disk := FirstJob(clock, o, Signing), map[0 := CertSigned];
    TidyState(clock, o, {});
    WorkingStep(clock, j, AtTidy, disk, {}, Tidied(0));
    WorkingStep(clock, j, AtFinish, disk, {}, Finish(0));
  }

  /** The first build of a server, done and signed, with the slot given back. */
  ghost function FinishedFirst(clock: int, o: Order): Server {
    Step(Step(Stored(clock, o), Pruned(0, {}, true)), Release(0))
  }

  lemma FinishedState(clock: int, o: Order)
    requires CertificatePlan(o) == Ok(true)
    ensures var t := FinishedFirst(clock, o);
            t.jobs == [FirstDone(clock, o)] && t.disk == map[0 := CertSigned] && !t.locked && t.deleters == {}
  {
    var done, disk := FirstDone(clock, o), map[0 := CertSigned];
    StoredState(clock, o);
    assert PruneFolder([done], disk, {}) == disk;
    WorkingStep(clock, done, AtPrune, disk, {}, Pruned(0, {}, true));
    WorkingReleased(clock, done, disk, {});
  }

  /** Deleting stored files once a build is done: the job still says it has a file, and nothing can be
      downloaded any more. */
  lemma DeletedAfterDone(clock: int, o: Order)
    requires CertificatePlan(o) == Ok(true)
    ensures var done := FinishedFirst(clock, o);
            var s := Step(Step(done, AskDelete(1)), Unlink(1, 0));
            && IsDone(s, 0) && Get(s.jobs, 0).file && Get(s.jobs, 0).signed
            && Download(done, 0) == Some(CertSigned) && Download(s, 0).None?
  {
    FinishedState(clock, o);
  }

  /** A deletion that found the slot free, before the build took it, takes the file of the running
      build: the signed file is gone when its size is to be taken, and the build fails. */
  lemma DeletionRace(clock: int, o: Order)
    requires CertificatePlan(o) == Ok(true)
    ensures Step(Fresh(clock), AskDelete(1)) == Empty(clock, {1})
    ensures var signed := Step(SigningAt(clock, o, {1}, AtTidy), Tidied(0));
            var raced := Step(Step(signed, Unlink(1, 0)), Finish(0));
            && signed.locked && 0 in signed.disk && signed.disk[0] == CertSigned
            && 0 !in raced.disk && Has(raced.jobs, 0) && Get(raced.jobs, 0).state == Failed
  {
    var j, disk := FirstJob(clock, o, Signing), map[0 := CertSigned];
    assert Step(Fresh(clock), AskDelete(1)).deleters == {1};
    TidyState(clock, o, {1});
    WorkingStep(clock, j, AtTidy, disk, {1}, Tidied(0));
    var signed := Working(clock, j, AtFinish, disk, {1});
    assert Step(signed, Unlink(1, 0)) == Working(clock, j, AtFinish, map[], {1});
    WorkingStep(clock, j, AtFinish, map[], {1}, Finish(0));
  }
}
