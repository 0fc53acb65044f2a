/** CreateVolume and DeleteVolume as interleaved processes over one storage server ("Core").

    Any number of controller replicas issue calls. Every call is one atomic event with an arbitrary
    outcome, `commit` saying whether a write took effect and `report` what the caller was told, so a
    lost response is `commit` with a report other than `Ok`. `Step` is total: a run is any list of
    events whatsoever. Identifiers are never reused and directories are never renamed. A tree-delete
    job removes its tree piece by piece, with everything below, and can abort at any point; anyone may
    make directories, so the missing parents of a volume directory are made by such events.

    The NFS and SMB arms of the driver differ only in the endpoint they call; the protocol is part
    of the resource key. Signatures and digests are taken as injective, so a handle, a
    specification fingerprint and a tombstone token stand for the records they are computed from. */
module VolumeProtocol {
  import opened Paths

  type Path = string
  type DirId = nat
  type ResId = nat
  type Pid = nat

  datatype Protocol = Nfs | Smb

  /** Export path or share name: unique among live resources of one protocol. */
  datatype Key = Key(proto: Protocol, name: string)

  /** The immutable specification whose fingerprint is stored in the marker. */
  datatype Spec = Spec(path: Path, key: Key, deleteData: bool, rest: string)

  datatype Options = Options(spec: Spec, settings: string)

  /** The signed volume handle; path, name and deletion mode are those of `spec`. */
  datatype Handle = Handle(did: DirId, rid: ResId, spec: Spec)

  /** Description field of an export or share. */
  datatype Marker = Managed(spec: Spec) | Tombstone(handle: Handle) | Foreign(text: string)

  datatype Resource = Resource(key: Key, path: Path, marker: Marker, settings: string, version: nat)

  /** The record of a tree-delete job: whose deletion submitted it, and whether it stopped with an error. */
  datatype Job = Job(handle: Handle, aborted: bool)

  /** Core's state. `born` records where each directory was created. */
  datatype Core = Core(
    dirs: map<Path, DirId>, born: map<DirId, Path>, nextDir: DirId,
    res: map<ResId, Resource>, names: map<Key, ResId>, nextRes: ResId,
    jobs: map<DirId, Job>)

  predicate Alive(c: Core, d: DirId) {
    d in c.born && c.born[d] in c.dirs && c.dirs[c.born[d]] == d
  }

  predicate Carries(c: Core, r: ResId, m: Marker) {
    r in c.res && c.res[r].marker == m
  }

  predicate Entombed(c: Core, h: Handle) {
    Carries(c, h.rid, Tombstone(h))
  }

  /** The resource is the one a handle or request names: same export path or share, same directory path. */
  predicate SameTarget(r: Resource, spec: Spec) {
    r.key == spec.key && r.path == spec.path
  }

  datatype Report = Ok | NotFound | Exists | Precondition | Ambiguous | Refused

  /** Where a CreateVolume call stands: the next remote call it will make. */
  datatype CreatePc =
    | Preflight
    | MakeDir
    | ClaimRead(did: DirId)
    | ClaimPost(did: DirId)
    | ClaimReread(did: DirId, attempt: nat)
    | ClaimPatch(did: DirId, attempt: nat, rid: ResId, seen: nat)
    | Configure(did: DirId, rid: ResId)
    | CheckDir(did: DirId, rid: ResId)
    | CheckResource(did: DirId, rid: ResId)
    | Created(handle: Handle)
    | CreateFailed

  /** Where a DeleteVolume call stands. `gone` is the leg entered when the path no longer exists. */
  datatype DeletePc =
    | Attributes
    | PrepareRead(gone: bool, attempt: nat)
    | PreparePatch(gone: bool, attempt: nat, seen: nat)
    | Inspect
    | Submit
    | Reconcile
    | Poll
    | RemoveRead(attempt: nat)
    | RemoveSend(attempt: nat, seen: nat)
    | Deleted
    | DeleteFailed

  datatype Process = Creating(opts: Options, cpc: CreatePc) | Deleting(h: Handle, dpc: DeletePc)

  /** `issued` are the handles returned by successful creates, `requested` those some caller has
      asked DeleteVolume for. */
  datatype State = State(core: Core, procs: map<Pid, Process>, issued: set<Handle>, requested: set<Handle>)

  datatype Event =
    | StartCreate(pid: Pid, opts: Options)
    | StartDelete(pid: Pid, h: Handle)
    | Call(pid: Pid, commit: bool, report: Report)
    | Crash(pid: Pid)
    | TreeShrinks(did: DirId, path: Path)
    | JobAborts(did: DirId)
    | JobRecordGone(did: DirId)
    | DirMade(path: Path)

  const MAX_ATTEMPTS := 3

  // ---------------------------------------------------------------- writes on Core

  /** Get-or-create of the volume directory. */
  function EnsureDirectory(c: Core, p: Path): (Core, DirId) {
    if p in c.dirs then (c, c.dirs[p])
    else (c.(dirs := c.dirs[p := c.nextDir], born := c.born[c.nextDir := p], nextDir := c.nextDir + 1), c.nextDir)
  }

  function AddResource(c: Core, o: Options): Core {
    c.(res := c.res[c.nextRes := Resource(o.spec.key, o.spec.path, Managed(o.spec), o.settings, 0)],
       names := c.names[o.spec.key := c.nextRes],
       nextRes := c.nextRes + 1)
  }

  /** A conditional write on `r` takes effect only at the version the caller read. */
  predicate Matches(c: Core, r: ResId, seen: nat) {
    r in c.res && c.res[r].version == seen
  }

  function Reconfigure(c: Core, r: ResId, settings: string): Core
    requires r in c.res
  {
    c.(res := c.res[r := c.res[r].(settings := settings, version := c.res[r].version + 1)])
  }

  function Entomb(c: Core, h: Handle): Core
    requires h.rid in c.res
  {
    c.(res := c.res[h.rid := c.res[h.rid].(marker := Tombstone(h), version := c.res[h.rid].version + 1)])
  }

  /** A directory goes with everything below it. */
  function RemoveTree(c: Core, p: Path): Core {
    c.(dirs := map q | q in c.dirs && !Within(q, p) :: c.dirs[q])
  }

  function RemoveResource(c: Core, r: ResId): Core
    requires r in c.res
  {
    c.(res := c.res - {r}, names := c.names - {c.res[r].key})
  }

  // ---------------------------------------------------------------- CreateVolume

  /** What the claim loop decides from one read of the same-named resource. */
  function AfterClaimRead(c: Core, o: Options, did: DirId, attempt: nat, r: ResId): CreatePc
    requires r in c.res
  {
    if c.res[r].marker != Managed(o.spec) then CreateFailed
    else if c.res[r].path != o.spec.path then CreateFailed
    else if c.res[r].settings == o.settings then Configure(did, r)
    else ClaimPatch(did, attempt, r, c.res[r].version)
  }

  function CreateCall(c: Core, o: Options, pc: CreatePc, commit: bool, report: Report): (Core, CreatePc) {
    match pc
    case Preflight =>
      (c, if report.Ok? then MakeDir else CreateFailed)
    case MakeDir =>
      var (c', did) := EnsureDirectory(c, o.spec.path);
      if !commit then (c, CreateFailed)
      else (c', if report.Ok? then ClaimRead(did) else CreateFailed)
    case ClaimRead(did) =>
      if !report.Ok? then (c, CreateFailed)
      else if o.spec.key in c.names && c.names[o.spec.key] in c.res then
        (c, AfterClaimRead(c, o, did, 0, c.names[o.spec.key]))
      else (c, ClaimPost(did))
    case ClaimPost(did) =>
      var made := commit && o.spec.key !in c.names;
      (if made then AddResource(c, o) else c,
       match report
       case Ok => if made then Configure(did, c.nextRes) else CreateFailed
       case Exists => ClaimReread(did, 0)
       case Ambiguous => ClaimReread(did, 0)
       case _ => CreateFailed)
    case ClaimReread(did, attempt) =>
      if report.Ok? && o.spec.key in c.names && c.names[o.spec.key] in c.res then
        (c, AfterClaimRead(c, o, did, attempt, c.names[o.spec.key]))
      else (c, CreateFailed)
    case ClaimPatch(did, attempt, r, seen) =>
      var hit := commit && Matches(c, r, seen);
      (if hit then Reconfigure(c, r, o.settings) else c,
       match report
       case Ok => if hit then Configure(did, r) else CreateFailed
       case Precondition => if attempt + 1 < MAX_ATTEMPTS then ClaimReread(did, attempt + 1) else CreateFailed
       case _ => CreateFailed)
    case Configure(did, r) =>
      var (c', found) := EnsureDirectory(c, o.spec.path);
      if !commit then (c, CreateFailed)
      else (c', if report.Ok? && found == did then CheckDir(did, r) else CreateFailed)
    case CheckDir(did, r) =>
      (c, if report.Ok? && o.spec.path in c.dirs && c.dirs[o.spec.path] == did
          then CheckResource(did, r) else CreateFailed)
    case CheckResource(did, r) =>
      (c, if report.Ok? && Carries(c, r, Managed(o.spec)) && SameTarget(c.res[r], o.spec)
          then Created(Handle(did, r, o.spec)) else CreateFailed)
    case Created(_) => (c, pc)
    case CreateFailed => (c, pc)
  }

  // ---------------------------------------------------------------- DeleteVolume

  function DeleteStart(h: Handle): DeletePc {
    if h.spec.deleteData then Attributes else RemoveRead(0)
  }

  function AfterPrepare(gone: bool): DeletePc {
    if gone then RemoveRead(0) else Inspect
  }

  /** The marker the resource must carry before it may be removed. */
  function RemovalMarker(h: Handle): Marker {
    if h.spec.deleteData then Tombstone(h) else Managed(h.spec)
  }

  /** What the job's record tells whoever waits for it; `missing` is where a missing record leads. */
  function AfterPoll(c: Core, d: DirId, missing: DeletePc): DeletePc {
    if d !in c.jobs then missing else if c.jobs[d].aborted then DeleteFailed else Poll
  }

  function DeleteCall(c: Core, h: Handle, pc: DeletePc, commit: bool, report: Report): (Core, DeletePc) {
    match pc
    case Attributes =>
      (c, if !report.Ok? then DeleteFailed
          else if h.spec.path !in c.dirs then PrepareRead(true, 0)
          else if c.dirs[h.spec.path] != h.did then DeleteFailed
          else PrepareRead(false, 0))
    case PrepareRead(gone, attempt) =>
      (c, if !report.Ok? then DeleteFailed
          else if h.rid !in c.res then (if gone then Deleted else DeleteFailed)
          else if !SameTarget(c.res[h.rid], h.spec) then DeleteFailed
          else if c.res[h.rid].marker == Tombstone(h) then AfterPrepare(gone)
          else if c.res[h.rid].marker != Managed(h.spec) then DeleteFailed
          else PreparePatch(gone, attempt, c.res[h.rid].version))
    case PreparePatch(gone, attempt, seen) =>
      var hit := commit && Matches(c, h.rid, seen);
      (if hit then Entomb(c, h) else c,
       match report
       case Ok => if hit then AfterPrepare(gone) else DeleteFailed
       case Precondition => if attempt + 1 < MAX_ATTEMPTS then PrepareRead(gone, attempt + 1) else DeleteFailed
       case _ => DeleteFailed)
    case Inspect =>
      (c, if !report.Ok? then DeleteFailed else AfterPoll(c, h.did, Submit))
    case Submit =>
      var started := commit && Alive(c, h.did) && h.did !in c.jobs;
      (if started then c.(jobs := c.jobs[h.did := Job(h, false)]) else c,
       match report
       case Ok => if started then Poll else DeleteFailed
       case NotFound => if Alive(c, h.did) then DeleteFailed else RemoveRead(0)
       case Exists => if h.did in c.jobs then Poll else DeleteFailed
       case Ambiguous => Reconcile
       case _ => DeleteFailed)
    case Reconcile =>
      (c, if !report.Ok? then DeleteFailed else AfterPoll(c, h.did, DeleteFailed))
    case Poll =>
      (c, if !report.Ok? then DeleteFailed else AfterPoll(c, h.did, RemoveRead(0)))
    case RemoveRead(attempt) =>
      (c, if !report.Ok? then DeleteFailed
          else if h.rid !in c.res then Deleted
          else if !SameTarget(c.res[h.rid], h.spec) then DeleteFailed
          else if c.res[h.rid].marker != RemovalMarker(h) then DeleteFailed
          else RemoveSend(attempt, c.res[h.rid].version))
    case RemoveSend(attempt, seen) =>
      var hit := commit && Matches(c, h.rid, seen);
      (if hit then RemoveResource(c, h.rid) else c,
       match report
       case Ok => if hit then Deleted else DeleteFailed
       case NotFound => if hit || h.rid !in c.res then Deleted else DeleteFailed
       case Precondition => if attempt + 1 < MAX_ATTEMPTS then RemoveRead(attempt + 1) else DeleteFailed
       case _ => DeleteFailed)
    case Deleted => (c, pc)
    case DeleteFailed => (c, pc)
  }

  // ---------------------------------------------------------------- runs

  /** One event. A delete can be started only for a handle some create has issued, because handles
      are signed. A running job removes any part of its tree, and its record disappears only once the
      whole of it is gone. */
  function Step(s: State, e: Event): State {
    match e
    case StartCreate(p, o) =>
      if p in s.procs then s else s.(procs := s.procs[p := Creating(o, Preflight)])
    case StartDelete(p, h) =>
      if p in s.procs || h !in s.issued then s
      else s.(procs := s.procs[p := Deleting(h, DeleteStart(h))], requested := s.requested + {h})
    case Crash(p) =>
      s.(procs := s.procs - {p})
    case Call(p, commit, report) =>
      if p !in s.procs then s else
        match s.procs[p] {
          case Creating(o, pc) =>
            var (c', pc') := CreateCall(s.core, o, pc, commit, report);
            s.(core := c', procs := s.procs[p := Creating(o, pc')],
               issued := if pc'.Created? && !pc.Created? then s.issued + {pc'.handle} else s.issued)
          case Deleting(h, pc) =>
            var (c', pc') := DeleteCall(s.core, h, pc, commit, report);
            s.(core := c', procs := s.procs[p := Deleting(h, pc')])
        }
    case TreeShrinks(d, p) =>
      if d in s.core.jobs && !s.core.jobs[d].aborted && Alive(s.core, d) && Within(p, s.core.born[d])
      then s.(core := RemoveTree(s.core, p)) else s
    case JobAborts(d) =>
      if d in s.core.jobs
      then s.(core := s.core.(jobs := s.core.jobs[d := s.core.jobs[d].(aborted := true)])) else s
    case JobRecordGone(d) =>
      if d in s.core.jobs && !Alive(s.core, d)
      then s.(core := s.core.(jobs := s.core.jobs - {d})) else s
    case DirMade(p) => s.(core := EnsureDirectory(s.core, p).0)
  }

  function Run(s: State, events: seq<Event>): State
    decreases |events|
  {
    if events == [] then s else Step(Run(s, events[..|events| - 1]), events[|events| - 1])
  }

  /** Before the driver has done anything: arbitrary directories and foreign resources. */
  ghost predicate Initial(s: State) {
    && s.procs == map[] && s.issued == {} && s.requested == {} && s.core.jobs == map[]
    && (forall p <- s.core.dirs :: s.core.dirs[p] in s.core.born && s.core.born[s.core.dirs[p]] == p)
    && (forall d <- s.core.born :: d < s.core.nextDir)
    && (forall r <- s.core.res :: r < s.core.nextRes && s.core.res[r].marker.Foreign?
                                  && s.core.res[r].key in s.core.names && s.core.names[s.core.res[r].key] == r)
    && (forall k <- s.core.names :: s.core.names[k] in s.core.res && s.core.res[s.core.names[k]].key == k)
  }
}
