/** The build service: its table of jobs, its output folder and its slot, changed in place by
    requests and by the worker. */
module BuildService {
  import opened Common
  import opened BuildJobs
  import opened BuildRuns

  datatype Refusal = Busy | NoCertificate(why: Certificate) | ThreadFailed

  datatype DeleteRefusal = BuildRunning | NoSuchFile | Undeletable

  /** A signing error, or another error while the tool runs, its output is copied or swapped in, or
      the rest is cleaned up. */
  datatype SignResult = SignedOk | SigningError | ToolBreaks | CopyBreaks | SwapBreaks | TidyBreaks

  /** How the calls a worker makes turn out. */
  datatype Outcome = Outcome(
    fetched: bool,
    wrote: bool,
    built: bool,
    sign: SignResult,
    stored: bool,
    removed: set<nat>,
    cleaned: bool)

  /** The steps of a whole run of the worker; the last one gives the slot back in every case. */
  function Script(pid: nat, o: Outcome, certificate: bool): seq<Event> {
    Middle(pid, o, certificate) + [Release(pid)]
  }

  function Middle(pid: nat, o: Outcome, certificate: bool): seq<Event> {
    [Begin(pid)] + (if o.fetched then [Fetched(pid)] + BuildScript(pid, o, certificate) else [Fails(pid)])
  }

  function BuildScript(pid: nat, o: Outcome, certificate: bool): seq<Event> {
    if o.wrote then [Wrote(pid)] + CheckScript(pid, o, certificate) else [Fails(pid)]
  }

  function CheckScript(pid: nat, o: Outcome, certificate: bool): seq<Event> {
    if !o.built then [Fails(pid)]
    else [Built(pid)] + (if certificate then SignScript(pid, o) else FinishScript(pid, o))
  }

  function SignScript(pid: nat, o: Outcome): seq<Event> {
    if o.sign == SigningError then [SignFails(pid)]
    else if o.sign == ToolBreaks then [Fails(pid)]
    else [ToolSigned(pid)] + CopyScript(pid, o)
  }

  function CopyScript(pid: nat, o: Outcome): seq<Event> {
    if o.sign == CopyBreaks then [Fails(pid)] else [Copied(pid)] + SwapScript(pid, o)
  }

  function SwapScript(pid: nat, o: Outcome): seq<Event> {
    if o.sign == SwapBreaks then [Fails(pid)] else [Swapped(pid)] + TidyScript(pid, o)
  }

  function TidyScript(pid: nat, o: Outcome): seq<Event> {
    if o.sign == TidyBreaks then [Fails(pid)] else [Tidied(pid)] + FinishScript(pid, o)
  }

  function FinishScript(pid: nat, o: Outcome): seq<Event> {
    if o.stored then [Finish(pid)] + [Pruned(pid, o.removed, o.cleaned)] else [Fails(pid)]
  }

  /** The files deleted before one cannot be. */
  function Deletable(targets: seq<nat>, stuck: set<nat>): seq<nat> {
    if targets == [] || targets[0] in stuck then [] else [targets[0]] + Deletable(targets[1..], stuck)
  }

  /** A request to delete these files, one by one. */
  function DeleteScript(deleter: nat, gone: seq<nat>): seq<Event> {
    [AskDelete(deleter)] + Unlinks(deleter, gone) + [DeleteDone(deleter)]
  }

  function Unlinks(deleter: nat, gone: seq<nat>): seq<Event> {
    if gone == [] then [] else Unlinks(deleter, DropLast(gone)) + [Unlink(deleter, Last(gone))]
  }

  /** What one such request deletes when it finds the slot free: everything it names. */
  lemma {:induction false} DeleteScriptDeletes(s: Server, deleter: nat, gone: seq<nat>)
    requires !s.locked && deleter !in s.deleters
    ensures After(s, DeleteScript(deleter, gone)) == s.(disk := s.disk - Elements(gone))
  {
    var asked := s.(deleters := s.deleters + {deleter});
    var run := [AskDelete(deleter)] + Unlinks(deleter, gone);
    UnlinksDelete(s, deleter, gone);
    AfterOne(s, run, DeleteDone(deleter));
    assert asked.deleters - {deleter} == s.deleters;
  }

  lemma {:induction false} UnlinksDelete(s: Server, deleter: nat, gone: seq<nat>)
    requires !s.locked
    ensures After(s, [AskDelete(deleter)] + Unlinks(deleter, gone))
         == s.(deleters := s.deleters + {deleter}, disk := s.disk - Elements(gone))
  {
    if gone == [] {
      assert [AskDelete(deleter)] + Unlinks(deleter, gone) == [] + [AskDelete(deleter)];
      AfterOne(s, [], AskDelete(deleter));
      assert s.disk - Elements(gone) == s.disk;
    } else {
      var init := DropLast(gone);
      UnlinksDelete(s, deleter, init);
      Assoc([AskDelete(deleter)], Unlinks(deleter, init), [Unlink(deleter, Last(gone))]);
      AfterOne(s, [AskDelete(deleter)] + Unlinks(deleter, init), Unlink(deleter, Last(gone)));
      assert gone == init + [Last(gone)];
      assert s.disk - Elements(init) - {Last(gone)} == s.disk - Elements(gone);
    }
  }

  lemma DeletablePrefix(targets: seq<nat>, stuck: set<nat>, i: nat)
    requires i <= |targets| && (forall k :: 0 <= k < i ==> targets[k] !in stuck)
    requires i < |targets| ==> targets[i] in stuck
    ensures Deletable(targets, stuck) == targets[..i]
  {
    if i > 0 {
      DeletablePrefix(targets[1..], stuck, i - 1);
      assert targets[..i] == [targets[0]] + targets[1..][..i - 1];
    }
  }

  lemma AfterOne(s: Server, run: seq<Event>, e: Event)
    ensures After(s, run + [e]) == Step(After(s, run), e)
  {
    assert DropLast(run + [e]) == run;
  }

  lemma ReleaseStep(t: Server, pid: nat, id: nat)
    requires Has(t.jobs, id) && pid in t.procs && t.procs[pid] == Worker(id, AtRelease)
    ensures Step(t, Release(pid)) == FreeSlot(t, pid)
  {
  }

  lemma ReleasedJob(t: Server, pid: nat, id: nat)
    requires Sound(t) && pid in t.procs && t.procs[pid] == Worker(id, AtRelease)
    ensures Has(t.jobs, id) && Finished(Get(t.jobs, id))
  {
    assert HolderOk(t.jobs, t.disk, t.procs[pid]);
  }

  /** At its last step the worker has finished its job and gives the slot back. */
  lemma WorkedOff(s: Server, run: seq<Event>, pid: nat, id: nat)
    requires Sound(s) && pid in After(s, run).procs && After(s, run).procs[pid] == Worker(id, AtRelease)
    ensures var t := After(s, run);
            && Has(t.jobs, id) && Finished(Get(t.jobs, id))
            && After(s, run + [Release(pid)]) == FreeSlot(t, pid)
  {
    RunSound(s, run);
    ReleasedJob(After(s, run), pid, id);
    ReleaseStep(After(s, run), pid, id);
    AfterOne(s, run, Release(pid));
  }

  class Builds {
    var jobs: seq<Job>
    var disk: map<nat, FileState>
    var locked: bool
    var clock: int
    var nextId: nat
    var deleters: set<nat>
    ghost var procs: map<nat, Proc>
    ghost var orphans: set<nat>
    ghost var acquired: nat
    ghost var released: nat
    ghost var start: Server
    ghost var trace: seq<Event>

    /** `trace` holds the steps that have led here from the state at `start`. */
    ghost predicate Traced()
      reads this
    {
      State() == After(start, trace)
    }

    ghost function State(): Server
      reads this
    {
      Server(jobs, disk, locked, procs, clock, nextId, orphans, acquired, released, deleters)
    }

    constructor (clock: int)
      ensures State() == BuildJobs.Fresh(clock)
    {
      jobs, disk, locked, this.clock, nextId, deleters := [], map[], false, clock, 0, {};
      procs, orphans, acquired, released := map[], {}, 0, 0;
      start, trace := BuildJobs.Fresh(clock), [];
    }

    /** The jobs of one age group, collected from the sorted table. */
    method Collect(sorted: seq<Job>, aged: bool) returns (found: seq<Job>)
      ensures found == Select(sorted, clock, aged)
    {
      found := [];
      var i := |sorted|;
      while i > 0
        invariant 0 <= i <= |sorted| && found == Select(sorted[i..], clock, aged)
      {
        i := i - 1;
        assert sorted[i..][1..] == sorted[i + 1..];
        if TooOld(sorted[i], clock) == aged { found := [sorted[i]] + found; }
      }
    }

    /** Drops the old jobs. */
    method ForgetOldJobs(ghost pid: nat)
      requires pid in procs && procs[pid].Acquired?
      modifies this`jobs, this`disk, this`procs
      ensures State() == Step(old(State()), ForgetOld(pid))
    {
      var byAge := ByAge(jobs);
      var expired := Collect(byAge, true);
      var others := Collect(byAge, false);
      Drop(expired + others[..Min(|others|, Excess(|others|))]);
      procs := procs[pid := Forgot(procs[pid].order)];
    }

    /** One by one, each with its file. */
    method Drop(gone: seq<Job>)
      modifies this`jobs, this`disk
      ensures jobs == Without(old(jobs), gone) && disk == DiskWithout(old(disk), gone)
    {
      WithoutEmpty(jobs);
      var i := 0;
      while i < |gone|
        invariant 0 <= i <= |gone|
        invariant jobs == Without(old(jobs), gone[..i]) && disk == DiskWithout(old(disk), gone[..i])
      {
        WithoutNext(old(jobs), gone, i);
        jobs := Without(jobs, [gone[i]]);
        if gone[i].file { disk := disk - {gone[i].id}; }
        i := i + 1;
      }
      assert gone[..i] == gone;
    }

    /** Stores the job, with the slot held. */
    method Insert(order: Order, ghost pid: nat) returns (id: nat)
      requires pid in procs && procs[pid] == Forgot(order) && CertificatePlan(order).Ok?
      modifies this`jobs, this`nextId, this`procs
      ensures State() == Step(old(State()), InsertJob(pid))
      ensures id == old(nextId) && procs == old(procs)[pid := Inserted(id)]
    {
      id := nextId;
      jobs := jobs + [Job(id, clock, Queued, CertificatePlan(order).value, order.command, false, false, NoProblem)];
      nextId := nextId + 1;
      procs := procs[pid := Inserted(id)];
    }

    /** Starts the job's thread; a failure to start gives the slot back and leaves the job. */
    method Launch(id: nat, threadStarts: bool, ghost pid: nat)
      requires pid in procs && procs[pid] == Inserted(id)
      modifies this`procs, this`orphans, this`locked, this`released
      ensures State() == Step(old(State()), Launched(pid, threadStarts))
    {
      if threadStarts {
        procs := procs[pid := Worker(id, AtStart)];
      } else {
        orphans := orphans + {id};
        locked, procs, released := false, procs - {pid}, released + 1;
      }
    }

    /** Checks the certificate, takes the slot, makes room, stores the job and starts its thread. */
    method StartBuild(order: Order, threadStarts: bool, ghost pid: nat) returns (r: Result<nat, Refusal>)
      requires Sound(State()) && pid !in procs
      modifies this
      ensures Sound(State())
      ensures CertificatePlan(order).Err? || old(locked) ==> State() == old(State())
      ensures CertificatePlan(order).Ok? && !old(locked) ==>
                State() == After(old(State()), RequestScript(pid, order, threadStarts))
      ensures r == match CertificatePlan(order)
                   case Err(why) => Err(NoCertificate(why))
                   case Ok(_) =>
                     if old(locked) then Err(Busy) else if threadStarts then Ok(old(nextId)) else Err(ThreadFailed)
    {
      ghost var s := State();
      var plan := CertificatePlan(order);
      if plan.Err? { return Err(NoCertificate(plan.error)); }
      if locked { return Err(Busy); }
      FourSteps(s, pid, order, threadStarts);
      locked, procs, acquired := true, procs[pid := Acquired(order)], acquired + 1;
      assert State() == Step(s, Request(pid, order));
      ForgetOldJobs(pid);
      var id := Insert(order, pid);
      Launch(id, threadStarts, pid);
      if threadStarts { r := Ok(id); } else { r := Err(ThreadFailed); }
    }

    // ---- Deleting stored files ----------------------------------------------------------

    /** Deletes one stored installer or, without a name, all of them. `listing` is the folder in the order
        it is read, `stuck` what cannot be deleted. Refused while a build runs. */
    method DeleteFiles(name: Option<nat>, listing: seq<nat>, stuck: set<nat>, deleter: nat)
      returns (r: Result<nat, DeleteRefusal>)
      requires deleter !in deleters && forall i :: i in listing <==> i in disk
      modifies this`disk
      ensures old(locked) ==> r == Err(BuildRunning) && disk == old(disk)
      ensures !old(locked) && name.Some? && name.value !in old(disk) ==> r == Err(NoSuchFile) && disk == old(disk)
      ensures !old(locked) && (name.Some? ==> name.value in old(disk)) ==>
                var targets := if name.Some? then [name.value] else listing;
                var gone := Deletable(targets, stuck);
                && State() == After(old(State()), DeleteScript(deleter, gone))
                && disk == old(disk) - Elements(gone)
                && r == if gone == targets then Ok(|targets|) else Err(Undeletable)
    {
      if locked { return Err(BuildRunning); }
      var targets := listing;
      if name.Some? {
        if name.value !in disk { return Err(NoSuchFile); }
        targets := [name.value];
      }
      var deleted := UnlinkAll(targets, stuck);
      DeletablePrefix(targets, stuck, deleted);
      DeleteScriptDeletes(old(State()), deleter, targets[..deleted]);
      if deleted < |targets| {
        assert targets[..deleted] != targets;
        return Err(Undeletable);
      }
      assert targets[..deleted] == targets;
      r := Ok(deleted);
    }

    /** Unlinks files up to the first that cannot be. */
    method UnlinkAll(targets: seq<nat>, stuck: set<nat>) returns (deleted: nat)
      modifies this`disk
      ensures deleted <= |targets| && (forall k :: 0 <= k < deleted ==> targets[k] !in stuck)
      ensures deleted < |targets| ==> targets[deleted] in stuck
      ensures disk == old(disk) - Elements(targets[..deleted])
    {
      deleted := 0;
      assert disk - Elements(targets[..0]) == disk;
      while deleted < |targets|
        invariant 0 <= deleted <= |targets| && forall k :: 0 <= k < deleted ==> targets[k] !in stuck
        invariant disk == old(disk) - Elements(targets[..deleted])
      {
        if targets[deleted] in stuck { return; }
        assert targets[..deleted + 1] == targets[..deleted] + [targets[deleted]];
        disk := disk - {targets[deleted]};
        deleted := deleted + 1;
      }
    }

    // ---- The worker -------------------------------------------------------------------

    /** One step of the worker on its job. */
    method Advance(id: nat, e: Event, stage: Stage)
      requires WorkerEvent(e) && !e.Release? && Ready(e, stage)
      requires Has(jobs, id) && e.pid in procs && procs[e.pid] == Worker(id, stage)
      modifies this`jobs, this`disk, this`procs
      ensures State() == Step(old(State()), e)
      ensures Has(jobs, id) && Get(jobs, id).certificate == Get(old(jobs), id).certificate
      ensures var next := NextStage(e, Get(jobs, id).certificate, id in old(disk));
              procs == old(procs)[e.pid := Worker(id, next)]
      ensures !e.Pruned? ==> (id in disk <==> FileAfter(e, id in old(disk)))
    {
      var j, folder;
      if e.SignFails? || e.Fails? || e.Pruned? {
        j, folder := Settle(jobs, disk, e, Get(jobs, id), stage);
      } else {
        j, folder := Progress(jobs, disk, e, Get(jobs, id), stage);
      }
      var next := NextStage(e, j.certificate, id in disk);
      GoStep(State(), e, Get(jobs, id), j, next, folder);
      disk := folder;
      Store(j, e.pid, next);
    }

    /** The same, noted down. */
    method Do(id: nat, e: Event, stage: Stage)
      requires WorkerEvent(e) && !e.Release? && Ready(e, stage) && Traced()
      requires Has(jobs, id) && e.pid in procs && procs[e.pid] == Worker(id, stage)
      modifies this`jobs, this`disk, this`procs, this`trace
      ensures Traced() && trace == old(trace) + [e]
      ensures Has(jobs, id) && Get(jobs, id).certificate == Get(old(jobs), id).certificate
      ensures e.pid in procs
      ensures procs[e.pid] == Worker(id, NextStage(e, Get(jobs, id).certificate, id in old(disk)))
      ensures !e.Pruned? ==> (id in disk <==> FileAfter(e, id in old(disk)))
    {
      AfterOne(start, trace, e);
      Advance(id, e, stage);
      trace := trace + [e];
    }

    /** A built file is stored and the output folder cleaned. */
    method FinishJob(id: nat, pid: nat, o: Outcome)
      requires Traced() && Has(jobs, id) && pid in procs && procs[pid] == Worker(id, AtFinish) && id in disk
      modifies this`jobs, this`disk, this`procs, this`trace
      ensures Traced() && trace == old(trace) + FinishScript(pid, o)
      ensures pid in procs && procs[pid] == Worker(id, AtRelease)
    {
      if o.stored {
        Assoc(trace, [Finish(pid)], [Pruned(pid, o.removed, o.cleaned)]);
        Do(id, Finish(pid), AtFinish);
        Do(id, Pruned(pid, o.removed, o.cleaned), AtPrune);
      } else {
        Do(id, Fails(pid), AtFinish);
      }
    }

    /** The copy beside the file and the scratch folder go. */
    method TidyUp(id: nat, pid: nat, o: Outcome)
      requires Traced() && Has(jobs, id) && pid in procs && procs[pid] == Worker(id, AtTidy) && id in disk
      modifies this`jobs, this`disk, this`procs, this`trace
      ensures Traced() && trace == old(trace) + TidyScript(pid, o)
      ensures pid in procs && procs[pid] == Worker(id, AtRelease)
    {
      if o.sign == TidyBreaks {
        Do(id, Fails(pid), AtTidy);
      } else {
        Assoc(trace, [Tidied(pid)], FinishScript(pid, o));
        Do(id, Tidied(pid), AtTidy);
        FinishJob(id, pid, o);
      }
    }

    /** The signed copy takes the place of the file. */
    method SwapIn(id: nat, pid: nat, o: Outcome)
      requires Traced() && Has(jobs, id) && pid in procs && procs[pid] == Worker(id, AtSwap)
      modifies this`jobs, this`disk, this`procs, this`trace
      ensures Traced() && trace == old(trace) + SwapScript(pid, o)
      ensures pid in procs && procs[pid] == Worker(id, AtRelease)
    {
      if o.sign == SwapBreaks {
        Do(id, Fails(pid), AtSwap);
      } else {
        Assoc(trace, [Swapped(pid)], TidyScript(pid, o));
        Do(id, Swapped(pid), AtSwap);
        TidyUp(id, pid, o);
      }
    }

    /** The output of the tool is copied beside the file, which may be on another disk. */
    method CopyBeside(id: nat, pid: nat, o: Outcome)
      requires Traced() && Has(jobs, id) && pid in procs && procs[pid] == Worker(id, AtCopy)
      modifies this`jobs, this`disk, this`procs, this`trace
      ensures Traced() && trace == old(trace) + CopyScript(pid, o)
      ensures pid in procs && procs[pid] == Worker(id, AtRelease)
    {
      if o.sign == CopyBreaks {
        Do(id, Fails(pid), AtCopy);
      } else {
        Assoc(trace, [Copied(pid)], SwapScript(pid, o));
        Do(id, Copied(pid), AtCopy);
        SwapIn(id, pid, o);
      }
    }

    /** After a signing error the unsigned file is deleted; after another error it is not. */
    method SignJob(id: nat, pid: nat, o: Outcome)
      requires Traced() && Has(jobs, id) && pid in procs && procs[pid] == Worker(id, AtSign) && id in disk
      modifies this`jobs, this`disk, this`procs, this`trace
      ensures Traced() && trace == old(trace) + SignScript(pid, o)
      ensures pid in procs && procs[pid] == Worker(id, AtRelease)
    {
      if o.sign == SigningError {
        Do(id, SignFails(pid), AtSign);
      } else if o.sign == ToolBreaks {
        Do(id, Fails(pid), AtSign);
      } else {
        Assoc(trace, [ToolSigned(pid)], CopyScript(pid, o));
        Do(id, ToolSigned(pid), AtSign);
        CopyBeside(id, pid, o);
      }
    }

    /** The compiler has written the file; it is signed if there is a certificate to sign it with. */
    method CheckAndSign(id: nat, pid: nat, o: Outcome)
      requires Traced() && Has(jobs, id) && pid in procs && procs[pid] == Worker(id, AtCheck) && id in disk
      modifies this`jobs, this`disk, this`procs, this`trace
      ensures Traced() && trace == old(trace) + CheckScript(pid, o, Get(old(jobs), id).certificate)
      ensures pid in procs && procs[pid] == Worker(id, AtRelease)
    {
      if !o.built {
        Do(id, Fails(pid), AtCheck);
        return;
      }
      Assoc(trace, [Built(pid)], SignScript(pid, o));
      Assoc(trace, [Built(pid)], FinishScript(pid, o));
      Do(id, Built(pid), AtCheck);
      if Get(jobs, id).certificate {
        SignJob(id, pid, o);
      } else {
        FinishJob(id, pid, o);
      }
    }

    method BuildAndSign(id: nat, pid: nat, o: Outcome)
      requires Traced() && Has(jobs, id) && pid in procs && procs[pid] == Worker(id, AtBuild)
      modifies this`jobs, this`disk, this`procs, this`trace
      ensures Traced() && trace == old(trace) + BuildScript(pid, o, Get(old(jobs), id).certificate)
      ensures pid in procs && procs[pid] == Worker(id, AtRelease)
    {
      if !o.wrote {
        Do(id, Fails(pid), AtBuild);
        return;
      }
      Assoc(trace, [Wrote(pid)], CheckScript(pid, o, Get(jobs, id).certificate));
      Do(id, Wrote(pid), AtBuild);
      CheckAndSign(id, pid, o);
    }

    method FetchAndBuild(id: nat, pid: nat, o: Outcome)
      requires Traced() && Has(jobs, id) && pid in procs && procs[pid] == Worker(id, AtDownload) && o.fetched
      modifies this`jobs, this`disk, this`procs, this`trace
      ensures Traced() && trace == old(trace) + ([Fetched(pid)] + BuildScript(pid, o, Get(old(jobs), id).certificate))
      ensures pid in procs && procs[pid] == Worker(id, AtRelease)
    {
      Assoc(trace, [Fetched(pid)], BuildScript(pid, o, Get(jobs, id).certificate));
      Do(id, Fetched(pid), AtDownload);
      BuildAndSign(id, pid, o);
    }

    /** The worker up to giving the slot back. */
    method Work(id: nat, pid: nat, o: Outcome)
      requires Traced() && Has(jobs, id) && pid in procs && procs[pid] == Worker(id, AtStart)
      modifies this`jobs, this`disk, this`procs, this`trace
      ensures Traced() && trace == old(trace) + Middle(pid, o, Get(old(jobs), id).certificate)
      ensures pid in procs && procs[pid] == Worker(id, AtRelease)
    {
      Assoc(trace, [Begin(pid)], [Fetched(pid)] + BuildScript(pid, o, Get(jobs, id).certificate));
      Assoc(trace, [Begin(pid)], [Fails(pid)]);
      Do(id, Begin(pid), AtStart);
      if o.fetched {
        FetchAndBuild(id, pid, o);
      } else {
        Do(id, Fails(pid), AtDownload);
      }
    }

    method WorkFromHere(id: nat, pid: nat, o: Outcome)
      requires Has(jobs, id) && pid in procs && procs[pid] == Worker(id, AtStart)
      modifies this`jobs, this`disk, this`procs, this`start, this`trace
      ensures State() == After(old(State()), Middle(pid, o, Get(old(jobs), id).certificate))
      ensures pid in procs && procs[pid] == Worker(id, AtRelease)
    {
      start, trace := State(), [];
      Work(id, pid, o);
      assert trace == Middle(pid, o, Get(old(jobs), id).certificate);
    }

    /** The whole run of the worker: whatever the download, the build, the signing and the clean-up
        come to, the job ends finished and the slot is given back once. */
    method RunJob(id: nat, pid: nat, o: Outcome)
      requires Sound(State()) && pid in procs && procs[pid] == Worker(id, AtStart)
      modifies this
      ensures Has(old(jobs), id)
      ensures State() == After(old(State()), Script(pid, o, Get(old(jobs), id).certificate))
      ensures !locked && released == old(released) + 1
      ensures Has(jobs, id) && Finished(Get(jobs, id))
    {
      assert HolderOk(jobs, disk, procs[pid]);
      ghost var s, run := State(), Middle(pid, o, Get(jobs, id).certificate);
      WorkFromHere(id, pid, o);
      WorkedOff(s, run, pid, id);
      locked, procs, released := false, procs - {pid}, released + 1;
    }

    method Store(j: Job, ghost pid: nat, ghost stage: Stage)
      modifies this`jobs, this`procs
      ensures State() == MoveTo(old(State()), pid, j, stage)
      ensures Has(old(jobs), j.id) ==> Has(jobs, j.id) && Get(jobs, j.id) == j
    {
      GetSet(jobs, j, j.id);
      jobs := SetJob(jobs, j);
      procs := procs[pid := Worker(j.id, stage)];
    }
  }

  /** A step that goes well unless the file is missed, on the fields of the job and on the folder. */
  method Progress(jobs: seq<Job>, disk: map<nat, FileState>, e: Event, j: Job, stage: Stage)
    returns (next: Job, folder: map<nat, FileState>)
    requires WorkerEvent(e) && !e.Release? && !e.SignFails? && !e.Fails? && !e.Pruned? && Ready(e, stage)
    ensures WorkerMove(jobs, disk, e, j, stage) == Go(next, NextStage(e, j.certificate, j.id in disk), folder)
    ensures next.id == j.id && next.certificate == j.certificate
    ensures j.id in folder <==> FileAfter(e, j.id in disk)
  {
    next, folder := j, disk;
    match e {
      case Begin(_) => next := j.(state := Downloading);
      case Fetched(_) => next := j.(state := Building);
      case Wrote(_) => folder := folder[j.id := Plain];
      case Built(_) =>
        if j.id !in disk {
          next := j.(state := Failed, file := false, message := OtherProblem);
        } else if j.certificate {
          next := j.(state := Signing);
        }
      case ToolSigned(_) => if j.id !in disk { next := j.(state := Failed, message := SigningFailed); }
      case Copied(_) =>
      case Swapped(_) => folder := folder[j.id := CertSigned];
      case Tidied(_) =>
      case Finish(_) =>
        next := j.(file := true);
        if j.id in disk {
          next := next.(state := Done, signed := j.command || j.certificate);
        } else {
          next := next.(state := Failed, message := OtherProblem);
        }
    }
  }

  /** A step after which only the slot is left to give back. */
  method Settle(jobs: seq<Job>, disk: map<nat, FileState>, e: Event, j: Job, stage: Stage)
    returns (next: Job, folder: map<nat, FileState>)
    requires (e.SignFails? || e.Fails? || e.Pruned?) && Ready(e, stage)
    ensures WorkerMove(jobs, disk, e, j, stage) == Go(next, AtRelease, folder)
    ensures next.id == j.id && next.certificate == j.certificate
    ensures !e.Pruned? ==> (j.id in folder <==> FileAfter(e, j.id in disk))
  {
    next, folder := j, disk;
    match e {
      case SignFails(_) =>
        folder := folder - {j.id};
        next := j.(state := Failed, message := SigningFailed);
      case Fails(_) =>
        next := j.(state := Failed, file := stage == AtFinish, message := OtherProblem);
      case Pruned(_, removed, ok) =>
        folder := PruneFolder(jobs, folder, removed);
        if !ok { next := j.(state := Failed, message := OtherProblem); }
    }
  }

  /** `there`: the job's file is on disk. */
  function NextStage(e: Event, certificate: bool, there: bool): Stage {
    match e
    case Begin(_) => AtDownload
    case Fetched(_) => AtBuild
    case Wrote(_) => AtCheck
    case Built(_) => if !there then AtRelease else if certificate then AtSign else AtFinish
    case ToolSigned(_) => if there then AtCopy else AtRelease
    case Copied(_) => AtSwap
    case Swapped(_) => AtTidy
    case Tidied(_) => AtFinish
    case Finish(_) => if there then AtPrune else AtRelease
    case _ => AtRelease
  }

  /** Whether the file is on disk after the step. */
  predicate FileAfter(e: Event, there: bool) {
    e.Wrote? || e.Swapped? || (there && !e.SignFails?)
  }

  /** The step the worker takes at this stage, or the failure that ends it. */
  predicate Ready(e: Event, stage: Stage) {
    match e
    case Begin(_) => stage == AtStart
    case Fetched(_) => stage == AtDownload
    case Wrote(_) => stage == AtBuild
    case Built(_) => stage == AtCheck
    case ToolSigned(_) => stage == AtSign
    case Copied(_) => stage == AtCopy
    case Swapped(_) => stage == AtSwap
    case Tidied(_) => stage == AtTidy
    case SignFails(_) => stage == AtSign
    case Finish(_) => stage == AtFinish
    case Fails(_) => stage != AtPrune && stage != AtRelease
    case Pruned(_, _, _) => stage == AtPrune
    case Release(_) => stage == AtRelease
    case _ => false
  }

  function Launched(pid: nat, threadStarts: bool): Event {
    if threadStarts then StartThread(pid) else RequestFails(pid)
  }

  function RequestScript(pid: nat, order: Order, threadStarts: bool): seq<Event> {
    [Request(pid, order), ForgetOld(pid), InsertJob(pid), Launched(pid, threadStarts)]
  }

  lemma {:induction false} WithoutEmpty(jobs: seq<Job>)
    ensures Without(jobs, []) == jobs
  {
    WithoutNone(jobs, []);
  }

  lemma {:induction false} WithoutTwice(jobs: seq<Job>, a: seq<Job>, b: seq<Job>)
    ensures Without(Without(jobs, a), b) == Without(jobs, a + b)
  {
    if jobs != [] {
      var none: seq<Job>, rest := [], Without(jobs[1..], a);
      WithoutTwice(jobs[1..], a, b);
      assert none + rest == rest;
      assert jobs[0] in a + b <==> jobs[0] in a || jobs[0] in b;
      assert ([jobs[0]] + rest)[1..] == rest;
      assert none + Without(jobs[1..], a + b) == Without(jobs[1..], a + b);
    }
  }

  lemma WithoutNext(jobs: seq<Job>, gone: seq<Job>, i: nat)
    requires i < |gone|
    ensures Without(Without(jobs, gone[..i]), [gone[i]]) == Without(jobs, gone[..i + 1])
  {
    WithoutTwice(jobs, gone[..i], [gone[i]]);
    assert gone[..i] + [gone[i]] == gone[..i + 1];
  }

  lemma FourSteps(s: Server, pid: nat, order: Order, threadStarts: bool)
    requires Sound(s)
    ensures var run := RequestScript(pid, order, threadStarts);
            && After(s, run) == Step(Step(Step(Step(s, run[0]), run[1]), run[2]), run[3])
            && Sound(After(s, run))
  {
    var run := RequestScript(pid, order, threadStarts);
    assert DropLast(run) == run[..3] && DropLast(run[..3]) == run[..2];
    assert DropLast(run[..2]) == run[..1] && DropLast(run[..1]) == [];
    assert After(s, run[..1]) == Step(s, run[0]);
    assert After(s, run[..2]) == Step(After(s, run[..1]), run[1]);
    assert After(s, run[..3]) == Step(After(s, run[..2]), run[2]);
    RunSound(s, run);
  }
}
