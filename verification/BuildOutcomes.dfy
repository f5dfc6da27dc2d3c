/** What a build comes to, told from the order and from how the calls of its worker turn out. */
module BuildOutcomes {
  import opened Common
  import opened BuildJobs
  import opened BuildRuns
  import opened BuildResults
  import opened BuildService

  // ---- The order --------------------------------------------------------------------------------

  /** A build is signed with the certificate exactly when that is not declined, the server has no command of
      its own and the certificate can be used; it is refused, with the reason, exactly when that is insisted
      on and the certificate cannot be used. */
  lemma PlanIs(o: Order)
    ensures CertificatePlan(o) == Ok(true) <==> o.wanted != Some(false) && !o.command && o.certificate == Usable
    ensures CertificatePlan(o).Err? <==> o.wanted == Some(true) && !o.command && o.certificate != Usable
    ensures CertificatePlan(o).Err? ==> CertificatePlan(o).error == o.certificate
  {
  }

  /** A request gets the slot exactly when that is free and the order is not refused; a job it stores is
      queued, new, and to be signed as the order says. */
  lemma RequestGetsSlot(s: Server, pid: nat, o: Order)
    requires OneHolder(s.locked, s.procs) && pid !in s.procs
    ensures var t := Step(s, Request(pid, o));
            if !s.locked && !(o.wanted == Some(true) && !o.command && o.certificate != Usable)
            then t.locked && t.procs == map[pid := Acquired(o)] && t.jobs == s.jobs && t.disk == s.disk
            else t == s
  {
    PlanIs(o);
    if !s.locked { assert s.procs == map[]; }
  }

  lemma StoredJob(s: Server, pid: nat, o: Order)
    requires pid in s.procs && s.procs[pid] == Forgot(o)
    ensures Step(s, InsertJob(pid)).jobs == s.jobs +
              [Job(s.nextId, s.clock, Queued, o.wanted != Some(false) && !o.command && o.certificate == Usable,
                   o.command, false, false, NoProblem)]
  {
    PlanIs(o);
  }

  /** The request has come this far, with the slot and nobody else. */
  ghost predicate Alone(s: Server, pid: nat, p: Proc, nextId: nat, orphans: set<nat>) {
    s.locked && s.procs == map[pid := p] && s.nextId == nextId && s.orphans == orphans
  }

  lemma AloneForgets(s: Server, pid: nat, o: Order, id: nat, orphans: set<nat>)
    requires Alone(s, pid, Acquired(o), id, orphans)
    ensures Alone(Step(s, ForgetOld(pid)), pid, Forgot(o), id, orphans)
  {
  }

  lemma AloneStores(s: Server, pid: nat, o: Order, id: nat, orphans: set<nat>)
    requires Alone(s, pid, Forgot(o), id, orphans)
    ensures Alone(Step(s, InsertJob(pid)), pid, Inserted(id), id + 1, orphans)
  {
  }

  lemma AloneStarts(s: Server, pid: nat, id: nat, orphans: set<nat>, threadStarts: bool)
    requires Alone(s, pid, Inserted(id), id + 1, orphans)
    ensures var t := Step(s, Launched(pid, threadStarts));
            if threadStarts then t.locked && t.procs == map[pid := Worker(id, AtStart)] && t.orphans == orphans
            else !t.locked && t.procs == map[] && t.orphans == orphans + {id}
  {
  }

  /** An accepted request leaves its job to its thread, which has the slot; if the thread does not start, the
      slot is free again and the job is left behind. */
  lemma RequestLeaves(s: Server, pid: nat, o: Order, threadStarts: bool)
    requires Sound(s) && !s.locked && CertificatePlan(o).Ok?
    ensures var t := After(s, RequestScript(pid, o, threadStarts));
            if threadStarts then t.locked && t.procs == map[pid := Worker(s.nextId, AtStart)] && t.orphans == s.orphans
            else !t.locked && t.procs == map[] && t.orphans == s.orphans + {s.nextId}
  {
    var s1 := Step(s, Request(pid, o));
    var s2 := Step(s1, ForgetOld(pid));
    assert s.procs == map[];
    AloneForgets(s1, pid, o, s.nextId, s.orphans);
    AloneStores(s2, pid, o, s.nextId, s.orphans);
    AloneStarts(Step(s2, InsertJob(pid)), pid, s.nextId, s.orphans, threadStarts);
    FourSteps(s, pid, o, threadStarts);
  }

  // ---- Forgetting ---------------------------------------------------------------------------------

  /** A job is forgotten exactly when it is more than an hour old or 19 newer ones are there. */
  lemma ForgottenIff(jobs: seq<Job>, now: int, k: nat)
    requires InOrder(jobs) && k < |jobs|
    ensures jobs[k] in ToForget(jobs, now) <==> now - jobs[k].created > 3600 || |jobs| - k > 19
  {
    var n, m := Old(jobs, now), Dropped(jobs, now);
    ForgetsFront(jobs, now);
    YoungRest(jobs, now);
    if k < m {
      assert jobs[..m][k] == jobs[k];
    } else {
      assert forall i :: 0 <= i < m ==> jobs[i].id < jobs[k].id;
      assert forall j :: j in jobs[..m] ==> j.id < jobs[k].id;
    }
  }

  /** Its file goes with it, if it has one to give out; no other file does. */
  lemma ForgottenFiles(s: Server, pid: nat, id: nat)
    requires pid in s.procs && s.procs[pid].Acquired?
    ensures id in Step(s, ForgetOld(pid)).disk <==>
            id in s.disk && forall j :: j in ToForget(s.jobs, s.clock) && j.id == id ==> !j.file
  {
    ForgottenDisk(s, pid);
  }

  // ---- The worker's own job -------------------------------------------------------------------------

  /** The worker has come to this stage, its job and its file being so. */
  ghost predicate Stands(s: Server, pid: nat, j: Job, stage: Stage, file: Option<FileState>) {
    && pid in s.procs && s.procs[pid] == Worker(j.id, stage) && IsJob(s.jobs, j)
    && FileIs(s.disk, j.id, file)
  }

  ghost predicate FileIs(disk: map<nat, FileState>, id: nat, file: Option<FileState>) {
    if file.Some? then id in disk && disk[id] == file.value else id !in disk
  }

  /** One step of the worker alone. */
  lemma StandsNext(s: Server, pid: nat, j: Job, stage: Stage, file: Option<FileState>, e: Event)
    requires Stands(s, pid, j, stage, file) && WorkerEvent(e) && e.pid == pid
    requires WorkerMove(s.jobs, s.disk, e, j, stage).Go?
    ensures var m := WorkerMove(s.jobs, s.disk, e, j, stage);
            m.job.id == j.id ==>
              forall left :: FileIs(m.disk, j.id, left) ==> Stands(Step(s, e), pid, m.job, m.stage, left)
  {
    var m := WorkerMove(s.jobs, s.disk, e, j, stage);
    GoStep(s, e, j, m.job, m.stage, m.disk);
    GetSet(s.jobs, m.job, j.id);
  }

  lemma AfterFirst(s: Server, e: Event, rest: seq<Event>)
    ensures After(s, [e] + rest) == After(Step(s, e), rest)
  {
    OneEvent(s, e);
    AfterJoined(s, [e], rest);
  }

  /** The build is over: its job and its file being so. */
  ghost predicate Over(t: Server, pid: nat, was: Job, state: JobState, message: Problem, file: bool, signed: bool,
                       there: Option<FileState>)
  {
    Stands(t, pid, was.(state := state, message := message, file := file, signed := signed), AtRelease, there)
  }

  /** A job as it was stored, at whatever state. */
  predicate Untold(j: Job) {
    !j.file && !j.signed && j.message == NoProblem
  }

  /** A worker that fails here. */
  lemma FailsHere(s: Server, pid: nat, j: Job, stage: Stage, there: Option<FileState>)
    requires Stands(s, pid, j, stage, there) && Untold(j) && stage != AtPrune && stage != AtRelease
    ensures Over(After(s, [Fails(pid)]), pid, j, Failed, OtherProblem, stage == AtFinish, false, there)
  {
    StandsNext(s, pid, j, stage, there, Fails(pid));
    OneEvent(s, Fails(pid));
  }

  lemma FinishEnds(s: Server, pid: nat, j: Job, there: FileState, o: Outcome)
    requires Stands(s, pid, j, AtFinish, Some(there)) && Untold(j)
    ensures Over(After(s, FinishScript(pid, o)), pid, j,
                 if o.stored && o.cleaned then Done else Failed,
                 if o.stored && o.cleaned then NoProblem else OtherProblem,
                 true, o.stored && (j.command || j.certificate), Some(there))
  {
    if o.stored {
      var e, f := Finish(pid), Pruned(pid, o.removed, o.cleaned);
      var done := j.(state := Done, file := true, signed := j.command || j.certificate);
      StandsNext(s, pid, j, AtFinish, Some(there), e);
      PrunedEnds(Step(s, e), pid, done, there, f);
      AfterFirst(s, e, [f]);
      OneEvent(Step(s, e), f);
    } else {
      FailsHere(s, pid, j, AtFinish, Some(there));
    }
  }

  lemma PrunedEnds(s: Server, pid: nat, j: Job, there: FileState, e: Event)
    requires Stands(s, pid, j, AtPrune, Some(there)) && j.file && e.Pruned? && e.pid == pid
    ensures Stands(Step(s, e), pid, if e.ok then j else j.(state := Failed, message := OtherProblem), AtRelease,
                   Some(there))
  {
    StandsNext(s, pid, j, AtPrune, Some(there), e);
    assert PointedAt(s.jobs, j.id);
  }

  lemma TidyEnds(s: Server, pid: nat, j: Job, o: Outcome)
    requires Stands(s, pid, j, AtTidy, Some(CertSigned)) && Untold(j) && j.certificate
    ensures var good := o.sign != TidyBreaks && o.stored && o.cleaned;
            Over(After(s, TidyScript(pid, o)), pid, j, if good then Done else Failed,
                 if good then NoProblem else OtherProblem,
                 o.sign != TidyBreaks, o.sign != TidyBreaks && o.stored, Some(CertSigned))
  {
    if o.sign == TidyBreaks {
      FailsHere(s, pid, j, AtTidy, Some(CertSigned));
    } else {
      StandsNext(s, pid, j, AtTidy, Some(CertSigned), Tidied(pid));
      AfterFirst(s, Tidied(pid), FinishScript(pid, o));
      FinishEnds(Step(s, Tidied(pid)), pid, j, CertSigned, o);
    }
  }

  /** The results of signing that put the signed copy in place. */
  predicate Replaces(sign: SignResult) {
    sign == SignedOk || sign == TidyBreaks
  }

  lemma SwapEnds(s: Server, pid: nat, j: Job, o: Outcome)
    requires Stands(s, pid, j, AtSwap, Some(Plain)) && Untold(j) && j.certificate && !o.sign.CopyBreaks?
    requires o.sign in {SignedOk, SwapBreaks, TidyBreaks}
    ensures SigningEnds(After(s, SwapScript(pid, o)), pid, j, o)
  {
    if o.sign == SwapBreaks {
      FailsHere(s, pid, j, AtSwap, Some(Plain));
    } else {
      StandsNext(s, pid, j, AtSwap, Some(Plain), Swapped(pid));
      AfterFirst(s, Swapped(pid), TidyScript(pid, o));
      TidyEnds(Step(s, Swapped(pid)), pid, j, o);
    }
  }

  /** What signing, and what follows it, leaves. */
  ghost predicate SigningEnds(t: Server, pid: nat, j: Job, o: Outcome) {
    var good := o.sign == SignedOk && o.stored && o.cleaned;
    Over(t, pid, j, if good then Done else Failed,
         if good then NoProblem else if o.sign == SigningError then SigningFailed else OtherProblem,
         o.sign == SignedOk, o.sign == SignedOk && o.stored,
         if o.sign == SigningError then None else Some(if Replaces(o.sign) then CertSigned else Plain))
  }

  lemma CopyEnds(s: Server, pid: nat, j: Job, o: Outcome)
    requires Stands(s, pid, j, AtCopy, Some(Plain)) && Untold(j) && j.certificate
    requires o.sign in {SignedOk, CopyBreaks, SwapBreaks, TidyBreaks}
    ensures SigningEnds(After(s, CopyScript(pid, o)), pid, j, o)
  {
    if o.sign == CopyBreaks {
      FailsHere(s, pid, j, AtCopy, Some(Plain));
    } else {
      StandsNext(s, pid, j, AtCopy, Some(Plain), Copied(pid));
      AfterFirst(s, Copied(pid), SwapScript(pid, o));
      SwapEnds(Step(s, Copied(pid)), pid, j, o);
    }
  }

  lemma SignEnds(s: Server, pid: nat, j: Job, o: Outcome)
    requires Stands(s, pid, j, AtSign, Some(Plain)) && Untold(j) && j.certificate
    ensures SigningEnds(After(s, SignScript(pid, o)), pid, j, o)
  {
    if o.sign == SigningError {
      StandsNext(s, pid, j, AtSign, Some(Plain), SignFails(pid));
      OneEvent(s, SignFails(pid));
    } else if o.sign == ToolBreaks {
      FailsHere(s, pid, j, AtSign, Some(Plain));
    } else {
      StandsNext(s, pid, j, AtSign, Some(Plain), ToolSigned(pid));
      AfterFirst(s, ToolSigned(pid), CopyScript(pid, o));
      CopyEnds(Step(s, ToolSigned(pid)), pid, j, o);
    }
  }

  /** Everything up to the signing went well. */
  predicate Compiles(o: Outcome) {
    o.fetched && o.wrote && o.built
  }

  /** What a build leaves, once it was fetched. */
  ghost predicate BuildEnds(t: Server, pid: nat, j: Job, o: Outcome) {
    var signs, hurt := j.certificate && Compiles(o), j.certificate && o.sign != SignedOk;
    var good := Compiles(o) && !hurt;
    Over(t, pid, j, if good && o.stored && o.cleaned then Done else Failed,
         if good && o.stored && o.cleaned then NoProblem
         else if signs && o.sign == SigningError then SigningFailed else OtherProblem,
         good, good && o.stored && (j.command || j.certificate),
         if !o.fetched || !o.wrote || (signs && o.sign == SigningError) then None
         else Some(if signs && Replaces(o.sign) then CertSigned else Plain))
  }

  lemma CheckEnds(s: Server, pid: nat, j: Job, o: Outcome)
    requires Stands(s, pid, j, AtCheck, Some(Plain)) && Untold(j) && o.fetched && o.wrote
    ensures BuildEnds(After(s, CheckScript(pid, o, j.certificate)), pid, j, o)
  {
    if !o.built {
      FailsHere(s, pid, j, AtCheck, Some(Plain));
    } else {
      StandsNext(s, pid, j, AtCheck, Some(Plain), Built(pid));
      if j.certificate {
        AfterFirst(s, Built(pid), SignScript(pid, o));
        SignEnds(Step(s, Built(pid)), pid, j.(state := Signing), o);
      } else {
        AfterFirst(s, Built(pid), FinishScript(pid, o));
        FinishEnds(Step(s, Built(pid)), pid, j, Plain, o);
      }
    }
  }

  lemma WriteEnds(s: Server, pid: nat, j: Job, o: Outcome)
    requires Stands(s, pid, j, AtBuild, None) && Untold(j) && o.fetched
    ensures BuildEnds(After(s, BuildScript(pid, o, j.certificate)), pid, j, o)
  {
    if !o.wrote {
      FailsHere(s, pid, j, AtBuild, None);
    } else {
      StandsNext(s, pid, j, AtBuild, None, Wrote(pid));
      AfterFirst(s, Wrote(pid), CheckScript(pid, o, j.certificate));
      CheckEnds(Step(s, Wrote(pid)), pid, j, o);
    }
  }

  lemma FetchedEnds(s: Server, pid: nat, j: Job, o: Outcome)
    requires Stands(s, pid, j, AtDownload, None) && Untold(j)
    ensures BuildEnds(After(s, if o.fetched then [Fetched(pid)] + BuildScript(pid, o, j.certificate) else [Fails(pid)]),
                      pid, j, o)
  {
    if o.fetched {
      AfterFirst(s, Fetched(pid), BuildScript(pid, o, j.certificate));
      StandsNext(s, pid, j, AtDownload, None, Fetched(pid));
      WriteEnds(Step(s, Fetched(pid)), pid, j.(state := Building), o);
    } else {
      FailsHere(s, pid, j, AtDownload, None);
    }
  }

  lemma FetchEnds(s: Server, pid: nat, j: Job, o: Outcome)
    requires Stands(s, pid, j, AtStart, None) && Untold(j)
    ensures BuildEnds(After(s, Middle(pid, o, j.certificate)), pid, j, o)
  {
    var rest := if o.fetched then [Fetched(pid)] + BuildScript(pid, o, j.certificate) else [Fails(pid)];
    StandsNext(s, pid, j, AtStart, None, Begin(pid));
    AfterFirst(s, Begin(pid), rest);
    FetchedEnds(Step(s, Begin(pid)), pid, j.(state := Downloading), o);
  }

  /** Main result: what a build that nothing else interferes with comes to. It is done if and only if
      everything went well, the signing included where the certificate is to be used; its file is given out
      and marked as signed accordingly; a signing error is told and leaves no file, and any other failure
      leaves the file as far as it had come. */
  lemma BuildComesTo(s: Server, pid: nat, j: Job, o: Outcome)
    requires Sound(s) && pid in s.procs && s.procs[pid] == Worker(j.id, AtStart) && IsJob(s.jobs, j)
    requires !j.signed && j.message == NoProblem
    ensures var t := After(s, Script(pid, o, j.certificate));
            var signed := !j.certificate || o.sign == SignedOk;
            && !t.locked && Has(t.jobs, j.id)
            && var k := Get(t.jobs, j.id);
            && (k.state == Done <==> o.fetched && o.wrote && o.built && signed && o.stored && o.cleaned)
            && (k.state != Done ==> k.state == Failed)
            && (k.message == SigningFailed <==>
                  o.fetched && o.wrote && o.built && j.certificate && o.sign == SigningError)
            && (k.file <==> o.fetched && o.wrote && o.built && signed)
            && (k.state == Done ==> (k.signed <==> j.command || j.certificate))
            && FileIs(t.disk, j.id,
                      if !o.fetched || !o.wrote || k.message == SigningFailed then None
                      else if o.built && j.certificate && o.sign in {SignedOk, TidyBreaks} then Some(CertSigned)
                      else Some(Plain))
  {
    WorkersJob(s, pid);
    FetchEnds(s, pid, j, o);
    var t := After(s, Middle(pid, o, j.certificate));
    WorkedOff(s, Middle(pid, o, j.certificate), pid, j.id);
  }
}
