/** Building installers in the background: one slot, a table of jobs, and one worker thread per
    accepted request. Requests, the worker and deletions of stored files take their steps in any
    order. */
module BuildJobs {
  import opened Common

  const MAX_JOBS: nat := 20
  const LIFETIME: int := 3600

  datatype JobState = Queued | Downloading | Building | Signing | Done | Failed

  datatype Problem = NoProblem | SigningFailed | OtherProblem

  /** `certificate`: to be signed with the uploaded certificate. `command`: the server signs with a
      command of its own. `file`: the finished file can be fetched. */
  datatype Job = Job(id: nat, created: int, state: JobState, certificate: bool, command: bool,
                     file: bool, signed: bool, message: Problem)

  datatype FileState = Plain | CertSigned

  // ---- Whether a build is signed with the certificate -----------------------------------------

  datatype Certificate = Missing | Expired | NoTool | NoKey | Usable

  /** `wanted`: `None` signs if it can be done, `Some(true)` insists, `Some(false)` does not. */
  datatype Order = Order(wanted: Option<bool>, command: bool, certificate: Certificate)

  function CertificatePlan(o: Order): Result<bool, Certificate> {
    if o.wanted == Some(false) || o.command then Ok(false)
    else if o.certificate == Usable then Ok(true)
    else if o.wanted == Some(true) then Err(o.certificate)
    else Ok(false)
  }

  // ---- The table, in order of insertion ----------------------------------------------------------

  function PlaceOf(jobs: seq<Job>, id: nat): (k: nat)
    ensures k <= |jobs| && (k < |jobs| ==> jobs[k].id == id)
    ensures forall i :: 0 <= i < k ==> jobs[i].id != id
  {
    if jobs == [] || jobs[0].id == id then 0
    else
      var r := PlaceOf(jobs[1..], id);
      assert forall i :: 1 <= i < |jobs| ==> jobs[i] == jobs[1..][i - 1];
      1 + r
  }

  predicate Has(jobs: seq<Job>, id: nat) {
    PlaceOf(jobs, id) < |jobs|
  }

  function Get(jobs: seq<Job>, id: nat): (j: Job)
    requires Has(jobs, id)
    ensures j in jobs && j.id == id
  {
    jobs[PlaceOf(jobs, id)]
  }

  function SetJob(jobs: seq<Job>, j: Job): (r: seq<Job>)
    ensures |r| == |jobs| && forall k :: 0 <= k < |jobs| ==> r[k] == if jobs[k].id == j.id then j else jobs[k]
  {
    if jobs == [] then [] else [if jobs[0].id == j.id then j else jobs[0]] + SetJob(jobs[1..], j)
  }

  // ---- Forgetting old jobs -------------------------------------------------------------------

  predicate TooOld(j: Job, now: int) {
    now - j.created > LIFETIME
  }

  function InsertByAge(j: Job, sorted: seq<Job>): seq<Job> {
    if sorted == [] || j.created < sorted[0].created then [j] + sorted
    else [sorted[0]] + InsertByAge(j, sorted[1..])
  }

  /** Oldest first; jobs of the same age stay in the order of the table. */
  function ByAge(jobs: seq<Job>): seq<Job> {
    if jobs == [] then [] else InsertByAge(Last(jobs), ByAge(DropLast(jobs)))
  }

  /** The jobs that are past their time, or the ones that are not. */
  function Select(jobs: seq<Job>, now: int, aged: bool): seq<Job> {
    if jobs == [] then []
    else (if TooOld(jobs[0], now) == aged then [jobs[0]] else []) + Select(jobs[1..], now, aged)
  }

  function Excess(n: nat): nat {
    if n > MAX_JOBS - 1 then n - (MAX_JOBS - 1) else 0
  }

  /** The jobs to drop: those past their time, and the oldest of the others beyond the limit. */
  function ToForget(jobs: seq<Job>, now: int): seq<Job> {
    var byAge := ByAge(jobs);
    var expired, others := Select(byAge, now, true), Select(byAge, now, false);
    expired + others[..Min(|others|, Excess(|others|))]
  }

  function Without(jobs: seq<Job>, gone: seq<Job>): seq<Job> {
    if jobs == [] then []
    else (if jobs[0] in gone then [] else [jobs[0]]) + Without(jobs[1..], gone)
  }

  function DiskWithout(disk: map<nat, FileState>, gone: seq<Job>): map<nat, FileState> {
    map i | i in disk && !(exists k :: 0 <= k < |gone| && gone[k].id == i && gone[k].file) :: disk[i]
  }

  // ---- The processes that hold the slot ---------------------------------------------------------

  /** Where a worker is. Building: the compiler runs (`AtBuild`), it has written the file (`AtCheck`).
      Signing: the tool runs (`AtSign`), its output is copied beside the file (`AtCopy`), swapped in
      (`AtSwap`), and the rest cleaned up (`AtTidy`). */
  datatype Stage =
    | AtStart | AtDownload | AtBuild | AtCheck | AtSign | AtCopy | AtSwap | AtTidy | AtFinish | AtPrune | AtRelease

  datatype Proc =
    | Acquired(order: Order)
    | Forgot(order: Order)
    | Inserted(job: nat)
    | Worker(job: nat, stage: Stage)

  /** `orphans`: jobs whose thread did not start. `acquired`, `released`: how often the slot was.
      `deleters`: requests to delete stored files that have found the slot free. */
  datatype Server = Server(
    jobs: seq<Job>,
    disk: map<nat, FileState>,
    locked: bool,
    procs: map<nat, Proc>,
    clock: int,
    nextId: nat,
    orphans: set<nat>,
    acquired: nat,
    released: nat,
    deleters: set<nat>)

  datatype Event =
    | Tick(seconds: nat)
    | Request(pid: nat, order: Order)
    | ForgetOld(pid: nat)
    | InsertJob(pid: nat)
    | StartThread(pid: nat)
    | RequestFails(pid: nat)
    | Begin(pid: nat)
    | Fetched(pid: nat)
    | Wrote(pid: nat)
    | Built(pid: nat)
    | ToolSigned(pid: nat)
    | Copied(pid: nat)
    | Swapped(pid: nat)
    | Tidied(pid: nat)
    | SignFails(pid: nat)
    | Finish(pid: nat)
    | Fails(pid: nat)
    | Pruned(pid: nat, removed: set<nat>, ok: bool)
    | Release(pid: nat)
    | AskDelete(deleter: nat)
    | Unlink(deleter: nat, id: nat)
    | DeleteDone(deleter: nat)

  function NewJob(s: Server, o: Order): Job {
    Job(s.nextId, s.clock, Queued, CertificatePlan(o) == Ok(true), o.command, false, false, NoProblem)
  }

  /** The slot is given back and its holder is gone. */
  function FreeSlot(s: Server, pid: nat): Server {
    s.(locked := false, procs := s.procs - {pid}, released := s.released + 1)
  }

  function MoveTo(s: Server, pid: nat, job: Job, stage: Stage): Server {
    s.(jobs := SetJob(s.jobs, job), procs := s.procs[pid := Worker(job.id, stage)])
  }

  predicate RequestEvent(e: Event) {
    e.Request? || e.ForgetOld? || e.InsertJob? || e.StartThread? || e.RequestFails?
  }

  predicate DeleteEvent(e: Event) {
    e.AskDelete? || e.Unlink? || e.DeleteDone?
  }

  /** The steps of a request; each needs its process to be at the step before. */
  function RequestStep(s: Server, e: Event): Server
    requires RequestEvent(e)
  {
    var pid := e.pid;
    if e.Request? then
      if CertificatePlan(e.order).Err? || s.locked || pid in s.procs then s
      else s.(locked := true, procs := s.procs[pid := Acquired(e.order)], acquired := s.acquired + 1)
    else if pid !in s.procs then s
    else match (e, s.procs[pid])
      case (ForgetOld(_), Acquired(order)) =>
        var gone := ToForget(s.jobs, s.clock);
        s.(jobs := Without(s.jobs, gone), disk := DiskWithout(s.disk, gone), procs := s.procs[pid := Forgot(order)])
      case (InsertJob(_), Forgot(order)) =>
        s.(jobs := s.jobs + [NewJob(s, order)], nextId := s.nextId + 1, procs := s.procs[pid := Inserted(s.nextId)])
      case (StartThread(_), Inserted(job)) =>
        s.(procs := s.procs[pid := Worker(job, AtStart)])
      case (RequestFails(_), Worker(_, _)) => s
      case (RequestFails(_), Inserted(job)) => FreeSlot(s.(orphans := s.orphans + {job}), pid)
      case (RequestFails(_), _) => FreeSlot(s, pid)
      case _ => s
  }

  predicate WorkerEvent(e: Event) {
    || e.Begin? || e.Fetched? || e.Wrote? || e.Built? || e.ToolSigned? || e.Copied? || e.Swapped? || e.Tidied?
    || e.SignFails? || e.Finish? || e.Fails? || e.Pruned? || e.Release?
  }

  /** What a step of the worker comes to: nothing, the end, or a changed job, stage and folder. */
  datatype Move = Stay | GiveBack | Go(job: Job, stage: Stage, disk: map<nat, FileState>)

  /** The steps of the worker with its job `j`. Any step up to the last can fail instead, and some do
      when the file has been deleted meanwhile. */
  function WorkerMove(jobs: seq<Job>, disk: map<nat, FileState>, e: Event, j: Job, stage: Stage): Move
    requires WorkerEvent(e)
  {
    match (e, stage)
    case (Begin(_), AtStart) => Go(j.(state := Downloading), AtDownload, disk)
    case (Fetched(_), AtDownload) => Go(j.(state := Building), AtBuild, disk)
    case (Wrote(_), AtBuild) => Go(j, AtCheck, disk[j.id := Plain])
    case (Built(_), AtCheck) =>
      if j.id !in disk then Go(GaveUp(j, stage), AtRelease, disk)
      else if j.certificate then Go(j.(state := Signing), AtSign, disk)
      else Go(j, AtFinish, disk)
    case (ToolSigned(_), AtSign) => if j.id in disk then Go(j, AtCopy, disk) else Go(NotSigned(j), AtRelease, disk)
    case (Copied(_), AtCopy) => Go(j, AtSwap, disk)
    case (Swapped(_), AtSwap) => Go(j, AtTidy, disk[j.id := CertSigned])
    case (Tidied(_), AtTidy) => Go(j, AtFinish, disk)
    case (SignFails(_), AtSign) => Go(NotSigned(j), AtRelease, disk - {j.id})
    case (Finish(_), AtFinish) =>
      if j.id !in disk then Go(GaveUp(j, stage), AtRelease, disk)
      else Go(j.(state := Done, file := true, signed := j.command || j.certificate), AtPrune, disk)
    case (Fails(_), _) =>
      if stage == AtPrune || stage == AtRelease then Stay else Go(GaveUp(j, stage), AtRelease, disk)
    case (Pruned(_, removed, ok), AtPrune) =>
      Go(if ok then j else j.(state := Failed, message := OtherProblem), AtRelease, PruneFolder(jobs, disk, removed))
    case (Release(_), AtRelease) => GiveBack
    case _ => Stay
  }

  function WorkerStep(s: Server, e: Event, j: Job, stage: Stage): Server
    requires WorkerEvent(e)
  {
    match WorkerMove(s.jobs, s.disk, e, j, stage)
    case Stay => s
    case GiveBack => FreeSlot(s, e.pid)
    case Go(next, to, disk) => MoveTo(s, e.pid, next, to).(disk := disk)
  }

  /** The file is noted on the job before its size is taken, so a failure in between keeps it. */
  function GaveUp(j: Job, stage: Stage): Job {
    j.(state := Failed, file := stage == AtFinish, message := OtherProblem)
  }

  function NotSigned(j: Job): Job {
    j.(state := Failed, message := SigningFailed)
  }

  /** Some of the files that no job gives out are deleted. */
  function PruneFolder(jobs: seq<Job>, disk: map<nat, FileState>, removed: set<nat>): map<nat, FileState> {
    map i | i in disk && (i !in removed || PointedAt(jobs, i)) :: disk[i]
  }

  /** A job of the table has this file to give out; such files are never pruned. */
  predicate PointedAt(jobs: seq<Job>, id: nat) {
    Has(jobs, id) && Get(jobs, id).file
  }

  /** Deleting stored files: the slot is looked at once, the files are unlinked one by one later. */
  function DeleteStep(s: Server, e: Event): Server
    requires DeleteEvent(e)
  {
    match e
    case AskDelete(deleter) => if s.locked then s else s.(deleters := s.deleters + {deleter})
    case Unlink(deleter, id) => if deleter in s.deleters then s.(disk := s.disk - {id}) else s
    case DeleteDone(deleter) => s.(deleters := s.deleters - {deleter})
  }

  function Step(s: Server, e: Event): Server {
    if e.Tick? then s.(clock := s.clock + e.seconds)
    else if DeleteEvent(e) then DeleteStep(s, e)
    else if RequestEvent(e) then RequestStep(s, e)
    else if e.pid !in s.procs || !s.procs[e.pid].Worker? || !Has(s.jobs, s.procs[e.pid].job) then s
    else WorkerStep(s, e, Get(s.jobs, s.procs[e.pid].job), s.procs[e.pid].stage)
  }

  ghost function After(s: Server, run: seq<Event>): Server {
    if run == [] then s else Step(After(s, DropLast(run)), Last(run))
  }

  function Fresh(clock: int): Server {
    Server([], map[], false, map[], clock, 0, {}, 0, 0, {})
  }

  /** Fetching the file of a build: only a done job that is still listed and whose file is there. */
  function Download(s: Server, id: nat): Option<FileState> {
    if Has(s.jobs, id) && Get(s.jobs, id).state == Done && Get(s.jobs, id).file && id in s.disk
    then Some(s.disk[id]) else None
  }
}
