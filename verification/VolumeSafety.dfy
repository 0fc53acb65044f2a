/** Safety of the volume protocol over every run.

    `Consistent` holds with no assumption on the requests. It gives: a tree-delete is submitted only
    for a requested handle's own directory while the resource carries that handle's tombstone, a
    tombstone never turns back into a managed marker, and a tombstoned resource is removed only
    after its directory is gone. */
module VolumeSafety {
  import opened Paths
  import opened VolumeProtocol

  // ---------------------------------------------------------------- invariants on Core

  ghost predicate CoreOk(c: Core, requested: set<Handle>) {
    && (forall p <- c.dirs :: c.dirs[p] in c.born && c.born[c.dirs[p]] == p)
    && (forall d <- c.born :: d < c.nextDir)
    && (forall r <- c.res :: r < c.nextRes && c.res[r].key in c.names && c.names[c.res[r].key] == r)
    && (forall k <- c.names :: c.names[k] in c.res && c.res[c.names[k]].key == k)
    && (forall r <- c.res :: c.res[r].marker.Tombstone? ==>
          var h := c.res[r].marker.handle; h.rid == r && h in requested && h.spec.deleteData)
    && (forall d <- c.jobs :: d in c.born
          && var h := c.jobs[d].handle; h.did == d && h in requested && h.spec.deleteData)
    && (forall d <- c.jobs :: Alive(c, d) ==> Entombed(c, c.jobs[d].handle))
  }

  /** `r` was created for `spec` and has never been anything else. */
  ghost predicate Stamped(c: Core, r: ResId, spec: Spec) {
    && r < c.nextRes
    && (r in c.res ==>
          && SameTarget(c.res[r], spec)
          && (c.res[r].marker == Managed(spec)
              || (c.res[r].marker.Tombstone? && c.res[r].marker.handle.spec == spec)))
  }

  /** A version the caller saw together with the managed marker. */
  ghost predicate SawManaged(c: Core, r: ResId, seen: nat, spec: Spec) {
    r in c.res ==> seen <= c.res[r].version && (c.res[r].version == seen ==> c.res[r].marker == Managed(spec))
  }

  ghost predicate BornAt(c: Core, d: DirId, p: Path) {
    d in c.born && c.born[d] == p
  }

  ghost predicate HandleOk(c: Core, h: Handle) {
    BornAt(c, h.did, h.spec.path) && Stamped(c, h.rid, h.spec)
  }

  /** While the directory lives its resource carries this handle's tombstone. */
  ghost predicate Prepared(c: Core, h: Handle) {
    Alive(c, h.did) ==> Entombed(c, h)
  }

  // ---------------------------------------------------------------- invariants on calls

  ghost predicate CreateOk(c: Core, o: Options, pc: CreatePc) {
    match pc
    case Preflight => true
    case MakeDir => true
    case ClaimRead(did) => BornAt(c, did, o.spec.path)
    case ClaimPost(did) => BornAt(c, did, o.spec.path)
    case ClaimReread(did, _) => BornAt(c, did, o.spec.path)
    case ClaimPatch(did, _, r, seen) =>
      BornAt(c, did, o.spec.path) && Stamped(c, r, o.spec) && SawManaged(c, r, seen, o.spec)
    case Configure(did, r) => BornAt(c, did, o.spec.path) && Stamped(c, r, o.spec)
    case CheckDir(did, r) => BornAt(c, did, o.spec.path) && Stamped(c, r, o.spec)
    case CheckResource(did, r) => BornAt(c, did, o.spec.path) && Stamped(c, r, o.spec)
    case Created(h) => HandleOk(c, h)
    case CreateFailed => true
  }

  ghost predicate DeleteOk(c: Core, h: Handle, pc: DeletePc) {
    && HandleOk(c, h)
    && match pc {
         case Attributes => h.spec.deleteData
         case PrepareRead(gone, _) => h.spec.deleteData && (gone ==> !Alive(c, h.did))
         case PreparePatch(gone, _, seen) =>
           h.spec.deleteData && (gone ==> !Alive(c, h.did)) && SawManaged(c, h.rid, seen, h.spec)
         case Inspect => h.spec.deleteData && Prepared(c, h)
         case Submit => h.spec.deleteData && Prepared(c, h)
         case Reconcile => h.spec.deleteData && Prepared(c, h)
         case Poll => h.spec.deleteData && (Alive(c, h.did) ==> h.did in c.jobs)
         case RemoveRead(_) => h.spec.deleteData ==> !Alive(c, h.did)
         case RemoveSend(_, seen) =>
           && (h.spec.deleteData ==> !Alive(c, h.did))
           && (h.rid in c.res ==> seen <= c.res[h.rid].version)
           && (Matches(c, h.rid, seen) ==> c.res[h.rid].marker == RemovalMarker(h))
         case Deleted => h.rid !in c.res && (h.spec.deleteData ==> !Alive(c, h.did))
         case DeleteFailed => true
       }
  }

  ghost predicate ProcessOk(s: State, p: Pid)
    requires p in s.procs
  {
    match s.procs[p]
    case Creating(o, pc) => CreateOk(s.core, o, pc)
    case Deleting(h, pc) => h in s.requested && DeleteOk(s.core, h, pc)
  }

  ghost predicate Consistent(s: State) {
    && CoreOk(s.core, s.requested)
    && s.requested <= s.issued
    && (forall h <- s.issued :: HandleOk(s.core, h))
    && (forall p <- s.procs :: ProcessOk(s, p))
  }

  // ---------------------------------------------------------------- how Core may change

  /** What every change of Core respects, over one event or over any stretch of a run. */
  ghost predicate Evolves(c: Core, c': Core) {
    && c.nextDir <= c'.nextDir && c.nextRes <= c'.nextRes
    && (forall d <- c.born :: d in c'.born && c'.born[d] == c.born[d])
    && (forall d <- c.born :: !Alive(c, d) ==> !Alive(c', d))
    && (forall r <- c'.res :: r < c.nextRes ==> r in c.res)
    && (forall r <- c.res :: r in c'.res ==>
          && c'.res[r].key == c.res[r].key && c'.res[r].path == c.res[r].path
          && c.res[r].version <= c'.res[r].version
          && (c'.res[r].version == c.res[r].version ==> c'.res[r] == c.res[r])
          && MarkerEvolves(r, c.res[r].marker, c'.res[r].marker))
    && (forall r <- c.res :: c.res[r].marker.Tombstone? && r !in c'.res ==> !Alive(c', c.res[r].marker.handle.did))
    && (forall d <- c.jobs :: d !in c'.jobs ==> !Alive(c', d))
  }

  /** A marker stays, or a managed marker becomes the tombstone of a handle of the same spec. */
  ghost predicate MarkerEvolves(r: ResId, m: Marker, m': Marker) {
    m' == m || (m.Managed? && m'.Tombstone? && m'.handle.rid == r && m'.handle.spec == m.spec)
  }

  lemma EvolvesTransitive(a: Core, b: Core, c: Core)
    requires Evolves(a, b) && Evolves(b, c)
    requires forall d <- a.jobs :: d in a.born
    requires forall r <- a.res :: r < a.nextRes
    requires forall r <- a.res :: a.res[r].marker.Tombstone? ==> a.res[r].marker.handle.did in a.born
    ensures Evolves(a, c)
  {
    forall r | r in a.res && r in c.res
      ensures r in b.res && MarkerEvolves(r, a.res[r].marker, c.res[r].marker)
      ensures c.res[r].key == a.res[r].key && c.res[r].path == a.res[r].path
      ensures a.res[r].version <= c.res[r].version
      ensures c.res[r].version == a.res[r].version ==> c.res[r] == a.res[r]
    {
      assert r < b.nextRes;
    }
  }

  lemma CreateOkStable(c: Core, c': Core, o: Options, pc: CreatePc)
    requires Evolves(c, c') && CreateOk(c, o, pc)
    ensures CreateOk(c', o, pc)
  {
  }

  lemma DeleteOkStable(c: Core, c': Core, h: Handle, pc: DeletePc)
    requires Evolves(c, c') && DeleteOk(c, h, pc)
    ensures DeleteOk(c', h, pc)
  {
  }

  // ---------------------------------------------------------------- one call

  lemma EnsureDirectoryOk(c: Core, p: Path, requested: set<Handle>)
    requires CoreOk(c, requested)
    ensures var (c', d) := EnsureDirectory(c, p);
            CoreOk(c', requested) && BornAt(c', d, p) && Alive(c', d)
  {
  }

  lemma EnsureDirectoryEvolves(c: Core, p: Path, requested: set<Handle>)
    requires CoreOk(c, requested)
    ensures Evolves(c, EnsureDirectory(c, p).0)
  {
  }

  lemma AddResourceOk(c: Core, o: Options, requested: set<Handle>)
    requires CoreOk(c, requested) && o.spec.key !in c.names
    ensures CoreOk(AddResource(c, o), requested)
  {
  }

  lemma AddResourceEvolves(c: Core, o: Options, requested: set<Handle>)
    requires CoreOk(c, requested) && o.spec.key !in c.names
    ensures Evolves(c, AddResource(c, o)) && Stamped(AddResource(c, o), c.nextRes, o.spec)
  {
  }

  lemma ReconfigureOk(c: Core, r: ResId, settings: string, requested: set<Handle>)
    requires CoreOk(c, requested) && r in c.res && c.res[r].marker.Managed?
    ensures CoreOk(Reconfigure(c, r, settings), requested)
  {
  }

  lemma ReconfigureEvolves(c: Core, r: ResId, settings: string, requested: set<Handle>)
    requires CoreOk(c, requested) && r in c.res && c.res[r].marker.Managed?
    ensures Evolves(c, Reconfigure(c, r, settings))
  {
  }

  lemma EntombOk(c: Core, h: Handle, requested: set<Handle>)
    requires CoreOk(c, requested) && h in requested && h.spec.deleteData
    requires Carries(c, h.rid, Managed(h.spec))
    ensures CoreOk(Entomb(c, h), requested)
  {
  }

  lemma EntombEvolves(c: Core, h: Handle, requested: set<Handle>)
    requires CoreOk(c, requested) && Carries(c, h.rid, Managed(h.spec))
    ensures Evolves(c, Entomb(c, h)) && Entombed(Entomb(c, h), h)
  {
  }

  lemma RemoveResourceOk(c: Core, h: Handle, requested: set<Handle>)
    requires CoreOk(c, requested)
    requires Carries(c, h.rid, RemovalMarker(h)) && (h.spec.deleteData ==> !Alive(c, h.did))
    ensures CoreOk(RemoveResource(c, h.rid), requested)
  {
  }

  lemma RemoveResourceEvolves(c: Core, h: Handle, requested: set<Handle>)
    requires CoreOk(c, requested)
    requires Carries(c, h.rid, RemovalMarker(h)) && (h.spec.deleteData ==> !Alive(c, h.did))
    ensures Evolves(c, RemoveResource(c, h.rid))
  {
  }

  lemma SubmitOk(c: Core, h: Handle, requested: set<Handle>)
    requires CoreOk(c, requested) && h in requested && h.spec.deleteData && Entombed(c, h) && Alive(c, h.did)
    ensures CoreOk(c.(jobs := c.jobs[h.did := Job(h, false)]), requested)
  {
  }

  lemma OnlyNewJobs(c: Core, jobs: map<DirId, Job>, requested: set<Handle>)
    requires CoreOk(c, requested) && forall d <- c.jobs :: d in jobs
    ensures Evolves(c, c.(jobs := jobs))
  {
    JobsEvolve(c, jobs);
    hide Evolves;
  }

  lemma JobsEvolve(c: Core, jobs: map<DirId, Job>)
    requires forall d <- c.jobs :: d in jobs
    requires forall r <- c.res :: r < c.nextRes
    ensures Evolves(c, c.(jobs := jobs))
  {
  }

  lemma CreateCallOk(c: Core, o: Options, pc: CreatePc, commit: bool, report: Report, requested: set<Handle>)
    requires CoreOk(c, requested) && CreateOk(c, o, pc)
    ensures var c' := CreateCall(c, o, pc, commit, report).0;
            CoreOk(c', requested) && Evolves(c, c')
  {
    hide CoreOk, Evolves;
    match pc
    case MakeDir =>
      EnsureDirectoryOk(c, o.spec.path, requested);
      EnsureDirectoryEvolves(c, o.spec.path, requested);
      EvolvesReflexive(c);
    case Configure(_, _) =>
      EnsureDirectoryOk(c, o.spec.path, requested);
      EnsureDirectoryEvolves(c, o.spec.path, requested);
      EvolvesReflexive(c);
    case ClaimPost(_) =>
      if o.spec.key !in c.names {
        AddResourceOk(c, o, requested);
        AddResourceEvolves(c, o, requested);
      }
      EvolvesReflexive(c);
    case ClaimPatch(_, _, r, seen) =>
      if Matches(c, r, seen) {
        ReconfigureOk(c, r, o.settings, requested);
        ReconfigureEvolves(c, r, o.settings, requested);
      }
      EvolvesReflexive(c);
    case _ => EvolvesReflexive(c);
  }

  lemma EvolvesReflexive(c: Core)
    ensures Evolves(c, c)
  {
  }

  predicate Claiming(pc: CreatePc) {
    pc.ClaimRead? || pc.ClaimPost? || pc.ClaimReread? || pc.ClaimPatch?
  }

  lemma ClaimCallNext(c: Core, o: Options, pc: CreatePc, commit: bool, report: Report, requested: set<Handle>)
    requires CoreOk(c, requested) && CreateOk(c, o, pc) && Claiming(pc)
    ensures var (c', pc') := CreateCall(c, o, pc, commit, report);
            CreateOk(c', o, pc')
  {
    hide EnsureDirectory, Carries, Alive, Entombed;
  }

  lemma OtherCallNext(c: Core, o: Options, pc: CreatePc, commit: bool, report: Report, requested: set<Handle>)
    requires CoreOk(c, requested) && CreateOk(c, o, pc) && !Claiming(pc)
    ensures var (c', pc') := CreateCall(c, o, pc, commit, report);
            CreateOk(c', o, pc')
  {
    hide AfterClaimRead, AddResource;
  }

  lemma CreateCallNext(c: Core, o: Options, pc: CreatePc, commit: bool, report: Report, requested: set<Handle>)
    requires CoreOk(c, requested) && CreateOk(c, o, pc)
    ensures var (c', pc') := CreateCall(c, o, pc, commit, report);
            CreateOk(c', o, pc')
  {
    hide CoreOk, CreateOk, CreateCall;
    if Claiming(pc) {
      ClaimCallNext(c, o, pc, commit, report, requested);
    } else {
      OtherCallNext(c, o, pc, commit, report, requested);
    }
  }

  lemma DeleteCallOk(c: Core, h: Handle, pc: DeletePc, commit: bool, report: Report, requested: set<Handle>)
    requires CoreOk(c, requested) && h in requested && DeleteOk(c, h, pc)
    ensures var c' := DeleteCall(c, h, pc, commit, report).0;
            CoreOk(c', requested) && Evolves(c, c')
  {
    hide CoreOk, Evolves;
    EvolvesReflexive(c);
    match pc
    case PreparePatch(_, _, seen) =>
      if Matches(c, h.rid, seen) {
        EntombOk(c, h, requested);
        EntombEvolves(c, h, requested);
      }
    case Submit =>
      if Alive(c, h.did) {
        SubmitOk(c, h, requested);
        OnlyNewJobs(c, c.jobs[h.did := Job(h, false)], requested);
      }
    case RemoveSend(_, seen) =>
      if Matches(c, h.rid, seen) {
        RemoveResourceOk(c, h, requested);
        RemoveResourceEvolves(c, h, requested);
      }
    case _ =>
  }

  predicate Removing(pc: DeletePc) {
    pc.RemoveRead? || pc.RemoveSend?
  }

  predicate Emptying(pc: DeletePc) {
    pc.Inspect? || pc.Submit? || pc.Reconcile? || pc.Poll?
  }

  lemma RemovalCallNext(c: Core, h: Handle, pc: DeletePc, commit: bool, report: Report, requested: set<Handle>)
    requires CoreOk(c, requested) && h in requested && DeleteOk(c, h, pc) && Removing(pc)
    ensures var (c', pc') := DeleteCall(c, h, pc, commit, report);
            DeleteOk(c', h, pc')
  {
    hide Entomb;
  }

  lemma TreeCallNext(c: Core, h: Handle, pc: DeletePc, commit: bool, report: Report, requested: set<Handle>)
    requires CoreOk(c, requested) && h in requested && DeleteOk(c, h, pc) && Emptying(pc)
    ensures var (c', pc') := DeleteCall(c, h, pc, commit, report);
            DeleteOk(c', h, pc')
  {
    hide Entomb, RemoveResource;
  }

  lemma PreparationCallNext(c: Core, h: Handle, pc: DeletePc, commit: bool, report: Report, requested: set<Handle>)
    requires CoreOk(c, requested) && h in requested && DeleteOk(c, h, pc) && !Removing(pc) && !Emptying(pc)
    ensures var (c', pc') := DeleteCall(c, h, pc, commit, report);
            DeleteOk(c', h, pc')
  {
    hide RemoveResource;
  }

  lemma DeleteCallNext(c: Core, h: Handle, pc: DeletePc, commit: bool, report: Report, requested: set<Handle>)
    requires CoreOk(c, requested) && h in requested && DeleteOk(c, h, pc)
    ensures var (c', pc') := DeleteCall(c, h, pc, commit, report);
            DeleteOk(c', h, pc')
  {
    hide CoreOk, DeleteOk, DeleteCall;
    if Removing(pc) {
      RemovalCallNext(c, h, pc, commit, report, requested);
    } else if Emptying(pc) {
      TreeCallNext(c, h, pc, commit, report, requested);
    } else {
      PreparationCallNext(c, h, pc, commit, report, requested);
    }
  }

  // ---------------------------------------------------------------- one event

  lemma RemoveTreeOk(c: Core, p: Path, requested: set<Handle>)
    requires CoreOk(c, requested)
    ensures CoreOk(RemoveTree(c, p), requested) && Evolves(c, RemoveTree(c, p))
  {
    hide Within;
  }

  lemma JobAbortsOk(c: Core, d: DirId, requested: set<Handle>)
    requires CoreOk(c, requested) && d in c.jobs
    ensures var c' := c.(jobs := c.jobs[d := c.jobs[d].(aborted := true)]);
            CoreOk(c', requested) && Evolves(c, c')
  {
    OnlyNewJobs(c, c.jobs[d := c.jobs[d].(aborted := true)], requested);
    hide Evolves;
  }

  lemma JobRecordGoneOk(c: Core, d: DirId, requested: set<Handle>)
    requires CoreOk(c, requested) && d in c.jobs && !Alive(c, d)
    ensures var c' := c.(jobs := c.jobs - {d});
            CoreOk(c', requested) && Evolves(c, c')
  {
  }

  lemma StepCoreOk(s: State, e: Event)
    requires Consistent(s)
    ensures CoreOk(Step(s, e).core, Step(s, e).requested) && Evolves(s.core, Step(s, e).core)
  {
    EvolvesReflexive(s.core);
    match e
    case Call(p, commit, report) =>
      if p in s.procs {
        assert ProcessOk(s, p);
        hide CoreOk, Evolves;
        match s.procs[p]
        case Creating(o, pc) => CreateCallOk(s.core, o, pc, commit, report, s.requested);
        case Deleting(h, pc) => DeleteCallOk(s.core, h, pc, commit, report, s.requested);
      }
    case TreeShrinks(d, p) =>
      hide CoreOk, Evolves, RemoveTree;
      RemoveTreeOk(s.core, p, s.requested);
    case JobAborts(d) =>
      if d in s.core.jobs { hide Evolves; JobAbortsOk(s.core, d, s.requested); }
    case JobRecordGone(d) =>
      if d in s.core.jobs && !Alive(s.core, d) { hide Evolves; JobRecordGoneOk(s.core, d, s.requested); }
    case DirMade(p) =>
      hide CoreOk, Evolves;
      EnsureDirectoryOk(s.core, p, s.requested);
      EnsureDirectoryEvolves(s.core, p, s.requested);
    case _ => hide Evolves;
  }

  lemma StepProcessOk(s: State, e: Event, p: Pid)
    requires Consistent(s) && p in Step(s, e).procs
    ensures ProcessOk(Step(s, e), p)
  {
    var s' := Step(s, e);
    StepCoreOk(s, e);
    hide CoreOk, Evolves;
    if p in s.procs && s'.procs[p] == s.procs[p] {
      assert ProcessOk(s, p);
      match s.procs[p]
      case Creating(o, pc) => CreateOkStable(s.core, s'.core, o, pc);
      case Deleting(h, pc) => DeleteOkStable(s.core, s'.core, h, pc);
    } else if p in s.procs {
      assert ProcessOk(s, p);
      match s.procs[p]
      case Creating(o, pc) => CreateCallNext(s.core, o, pc, e.commit, e.report, s.requested);
      case Deleting(h, pc) => DeleteCallNext(s.core, h, pc, e.commit, e.report, s.requested);
    }
  }

  lemma StepHandleOk(s: State, e: Event, h: Handle)
    requires Consistent(s) && h in Step(s, e).issued
    ensures HandleOk(Step(s, e).core, h)
  {
    StepCoreOk(s, e);
    if h in s.issued {
      HandleOkStable(s.core, Step(s, e).core, h);
    } else {
      hide CoreOk, Evolves, HandleOk, CreateCall, DeleteCall;
      StepProcessOk(s, e, e.pid);
    }
    hide CoreOk, Evolves, HandleOk, Step;
  }

  lemma HandleOkStable(c: Core, c': Core, h: Handle)
    requires Evolves(c, c') && HandleOk(c, h)
    ensures HandleOk(c', h)
  {
  }

  /** Every event keeps the invariant and moves Core forward. */
  lemma StepConsistent(s: State, e: Event)
    requires Consistent(s)
    ensures Consistent(Step(s, e)) && Evolves(s.core, Step(s, e).core)
  {
    StepCoreOk(s, e);
    hide CoreOk, Evolves, HandleOk, ProcessOk;
    forall p | p in Step(s, e).procs ensures ProcessOk(Step(s, e), p) { StepProcessOk(s, e, p); }
    forall h | h in Step(s, e).issued ensures HandleOk(Step(s, e).core, h) { StepHandleOk(s, e, h); }
    assert Step(s, e).requested <= Step(s, e).issued;
  }

  lemma InitialConsistent(s: State)
    requires Initial(s)
    ensures Consistent(s)
  {
  }

  // ---------------------------------------------------------------- every run

  lemma {:induction false} RunConsistent(s: State, events: seq<Event>)
    requires Initial(s)
    ensures Consistent(Run(s, events))
    decreases |events|
  {
    if events == [] {
      InitialConsistent(s);
    } else {
      RunConsistent(s, events[..|events| - 1]);
      StepConsistent(Run(s, events[..|events| - 1]), events[|events| - 1]);
    }
  }

  /** Between any two points of any run Core only evolves: tombstones and identities are permanent,
      and a tombstoned resource that has disappeared has a directory that is gone. */
  lemma {:induction false} RunEvolves(s: State, events: seq<Event>, i: nat)
    requires Initial(s) && i <= |events|
    ensures Evolves(Run(s, events[..i]).core, Run(s, events).core)
    decreases |events|
  {
    if i == |events| {
      assert events[..i] == events;
      EvolvesReflexive(Run(s, events).core);
    } else {
      var front := events[..|events| - 1];
      assert front[..i] == events[..i];
      RunEvolves(s, front, i);
      RunConsistent(s, front);
      RunConsistent(s, events[..i]);
      StepConsistent(Run(s, front), events[|events| - 1]);
      TombstonesBorn(Run(s, events[..i]));
      EvolvesTransitive(Run(s, events[..i]).core, Run(s, front).core, Run(s, events).core);
    }
  }

  lemma TombstonesBorn(s: State)
    requires Consistent(s)
    ensures forall r <- s.core.res :: s.core.res[r].marker.Tombstone? ==> s.core.res[r].marker.handle.did in s.core.born
  {
    forall r | r in s.core.res && s.core.res[r].marker.Tombstone?
      ensures s.core.res[r].marker.handle.did in s.core.born
    {
      assert HandleOk(s.core, s.core.res[r].marker.handle);
    }
  }

  /** Whatever event adds a tree-delete job, in any run, it is a DeleteVolume call for a handle that was
      requested, asks for data deletion and names exactly that directory, and at that instant the
      directory is the one at the handle's path while the handle's own resource carries its tombstone. */
  lemma TreeDeleteOnlyUnderTombstone(s: State, events: seq<Event>, e: Event, d: DirId)
    requires Initial(s)
    requires d !in Run(s, events).core.jobs && d in Step(Run(s, events), e).core.jobs
    ensures var now := Run(s, events);
            var h := Step(now, e).core.jobs[d].handle;
            && h.did == d && h in now.requested && h.spec.deleteData
            && h.spec.path in now.core.dirs && now.core.dirs[h.spec.path] == d
            && Entombed(now.core, h) && SameTarget(now.core.res[h.rid], h.spec)
  {
    RunConsistent(s, events);
    var now := Run(s, events);
    hide Run;
    assert e.Call? && e.pid in now.procs && ProcessOk(now, e.pid) by { CreateKeepsJobs(now, e); }
    hide Consistent, CreateCall, DeleteCall, CoreOk, HandleOk;
    match now.procs[e.pid]
    case Creating(o, pc) => CreateKeepsJobs(now, e);
    case Deleting(h, pc) =>
      NewJobIsSubmitted(now.core, h, pc, e.commit, e.report, d);
      assert HandleOk(now.core, h) && Prepared(now.core, h);
      HandleOfLive(now.core, h);
  }

  lemma CreateKeepsJobs(s: State, e: Event)
    ensures e.Call? && e.pid in s.procs && s.procs[e.pid].Creating? ==> Step(s, e).core.jobs == s.core.jobs
    ensures !e.Call? ==> Step(s, e).core.jobs.Keys <= s.core.jobs.Keys
  {
  }

  lemma NewJobIsSubmitted(c: Core, h: Handle, pc: DeletePc, commit: bool, report: Report, d: DirId)
    requires d !in c.jobs && d in DeleteCall(c, h, pc, commit, report).0.jobs
    ensures pc.Submit? && d == h.did && Alive(c, d) && DeleteCall(c, h, pc, commit, report).0.jobs[d].handle == h
  {
  }

  lemma HandleOfLive(c: Core, h: Handle)
    requires HandleOk(c, h) && Prepared(c, h) && Alive(c, h.did)
    ensures h.spec.path in c.dirs && c.dirs[h.spec.path] == h.did && Entombed(c, h) && SameTarget(c.res[h.rid], h.spec)
  {
  }

  lemma CreateKeepsMarkers(c: Core, o: Options, pc: CreatePc, commit: bool, report: Report)
    requires c.nextRes !in c.res
    ensures forall r <- c.res :: var c' := CreateCall(c, o, pc, commit, report).0;
              r in c'.res && c'.res[r].marker == c.res[r].marker
  {
  }

  /** A delete call touches no marker but that of its own resource, and removes it only at the version
      it read. */
  lemma DeleteTouchesOwnResource(c: Core, h: Handle, pc: DeletePc, commit: bool, report: Report, r: ResId)
    requires r in c.res
    ensures var c' := DeleteCall(c, h, pc, commit, report).0;
            && (r !in c'.res ==> r == h.rid && pc.RemoveSend? && Matches(c, r, pc.seen))
            && (r in c'.res && c'.res[r].marker != c.res[r].marker ==>
                  r == h.rid && pc.PreparePatch? && Entombed(c', h))
  {
  }

  /** The only event that removes a resource is the removal step of a deletion whose marker it carries. */
  lemma RemovalMeansDeadOrManaged(s: State, e: Event, r: ResId)
    requires Consistent(s) && r in s.core.res && r !in Step(s, e).core.res
    ensures e.Call? && e.pid in s.procs && s.procs[e.pid].Deleting?
    ensures var h := s.procs[e.pid].h;
            h.rid == r && h in s.requested && Carries(s.core, r, RemovalMarker(h))
            && (h.spec.deleteData ==> !Alive(s.core, h.did))
  {
    assert s.core.nextRes !in s.core.res;
    assert e.Call? && e.pid in s.procs;
    assert ProcessOk(s, e.pid);
    hide Consistent, CoreOk, HandleOk, CreateCall, DeleteCall;
    match s.procs[e.pid]
    case Creating(o, pc) => CreateKeepsMarkers(s.core, o, pc, e.commit, e.report);
    case Deleting(h, pc) => DeleteTouchesOwnResource(s.core, h, pc, e.commit, e.report, r);
  }

  lemma MarkerChangeIsEntombing(s: State, e: Event, r: ResId)
    requires Consistent(s) && r in s.core.res && r in Step(s, e).core.res
    requires s.core.res[r].marker != Step(s, e).core.res[r].marker
    ensures e.Call? && e.pid in s.procs && s.procs[e.pid].Deleting?
    ensures var h := s.procs[e.pid].h; h.rid == r && h in s.requested && Entombed(Step(s, e).core, h)
  {
    assert s.core.nextRes !in s.core.res;
    assert e.Call? && e.pid in s.procs;
    assert ProcessOk(s, e.pid);
    hide Consistent, CoreOk, HandleOk, CreateCall, DeleteCall;
    match s.procs[e.pid]
    case Creating(o, pc) => CreateKeepsMarkers(s.core, o, pc, e.commit, e.report);
    case Deleting(h, pc) => DeleteTouchesOwnResource(s.core, h, pc, e.commit, e.report, r);
  }

  /** No event turns a tombstone back into anything else, and none removes a tombstoned resource while
      the directory of its handle exists. */
  lemma TombstoneIsFinal(s: State, events: seq<Event>, e: Event, r: ResId)
    requires Initial(s)
    requires r in Run(s, events).core.res && Run(s, events).core.res[r].marker.Tombstone?
    ensures var now := Run(s, events);
            var m := now.core.res[r].marker;
            Carries(Step(now, e).core, r, m)
            || (r !in Step(now, e).core.res && !Alive(now.core, m.handle.did))
  {
    RunConsistent(s, events);
    var now := Run(s, events);
    hide Consistent, CoreOk, HandleOk, Run, CreateCall, DeleteCall, Step;
    StepCoreOk(now, e);
    if r !in Step(now, e).core.res { RemovalMeansDeadOrManaged(now, e, r); }
  }

  lemma SettingsChangeIsOwnClaim(c: Core, o: Options, pc: CreatePc, commit: bool, report: Report, r: ResId)
    requires CreateOk(c, o, pc) && r in c.res && c.nextRes !in c.res
    ensures var c' := CreateCall(c, o, pc, commit, report).0;
            r in c'.res && c'.res[r].settings != c.res[r].settings ==> pc.ClaimPatch? && Carries(c, r, Managed(o.spec))
  {
  }

  lemma DeleteKeepsSettings(c: Core, h: Handle, pc: DeletePc, commit: bool, report: Report, r: ResId)
    requires r in c.res
    ensures var c' := DeleteCall(c, h, pc, commit, report).0;
            r in c'.res ==> c'.res[r].settings == c.res[r].settings
  {
  }

  /** In every run, whatever changes a resource's settings is the claim of a create whose own marker the
      resource carries at that instant. */
  lemma ReconfiguredOnlyByOwner(s: State, events: seq<Event>, e: Event, r: ResId)
    requires Initial(s)
    requires r in Run(s, events).core.res && r in Step(Run(s, events), e).core.res
    requires Run(s, events).core.res[r].settings != Step(Run(s, events), e).core.res[r].settings
    ensures var now := Run(s, events);
            e.Call? && e.pid in now.procs && now.procs[e.pid].Creating? && now.procs[e.pid].cpc.ClaimPatch?
            && Carries(now.core, r, Managed(now.procs[e.pid].opts.spec))
  {
    RunConsistent(s, events);
    var now := Run(s, events);
    assert now.core.nextRes !in now.core.res;
    assert e.Call? && e.pid in now.procs;
    assert ProcessOk(now, e.pid);
    hide Consistent, CoreOk, HandleOk, CreateCall, DeleteCall, Run, CreateOk;
    match now.procs[e.pid]
    case Creating(o, pc) => SettingsChangeIsOwnClaim(now.core, o, pc, e.commit, e.report, r);
    case Deleting(h, pc) => DeleteKeepsSettings(now.core, h, pc, e.commit, e.report, r);
  }

  lemma ClaimEndsSettled(c: Core, o: Options, pc: CreatePc, commit: bool, report: Report, requested: set<Handle>)
    requires CoreOk(c, requested) && CreateOk(c, o, pc)
    ensures var (c', pc') := CreateCall(c, o, pc, commit, report);
            pc'.Configure? && !pc.Configure? ==>
              && pc'.rid in c'.res && c'.res[pc'.rid].marker == Managed(o.spec)
              && c'.res[pc'.rid].settings == o.settings
              && c'.res[pc'.rid].key == o.spec.key && c'.res[pc'.rid].path == o.spec.path
  {
  }

  /** In every run, at the instant a create's claim ends its resource has the export path or share name, the
      directory path, the marker and the settings asked for, whatever it had before. */
  lemma ClaimedAsRequested(s: State, events: seq<Event>, e: Event, p: Pid)
    requires Initial(s) && e.Call? && e.pid == p
    requires p in Run(s, events).procs && Run(s, events).procs[p].Creating? && !Run(s, events).procs[p].cpc.Configure?
    requires var now := Step(Run(s, events), e); now.procs[p].Creating? && now.procs[p].cpc.Configure?
    ensures var now := Step(Run(s, events), e);
            var o, r := now.procs[p].opts, now.procs[p].cpc.rid;
            && r in now.core.res
            && now.core.res[r] == Resource(o.spec.key, o.spec.path, Managed(o.spec), o.settings,
                now.core.res[r].version)
  {
    var before := Run(s, events);
    RunConsistent(s, events);
    assert ProcessOk(before, p);
    ClaimEndsSettled(before.core, before.procs[p].opts, before.procs[p].cpc, e.commit, e.report, before.requested);
    hide Run, CreateCall, Consistent, CoreOk, CreateOk;
  }

  /** In every run, a create that has come as far as setting the directory's mode and quota holds a claim:
      its resource was created for exactly its specification and has been nothing else. */
  lemma ConfiguresOnlyAfterClaim(s: State, events: seq<Event>, p: Pid)
    requires Initial(s)
    requires p in Run(s, events).procs && Run(s, events).procs[p].Creating? && Run(s, events).procs[p].cpc.Configure?
    ensures var now := Run(s, events);
            Stamped(now.core, now.procs[p].cpc.rid, now.procs[p].opts.spec)
            && BornAt(now.core, now.procs[p].cpc.did, now.procs[p].opts.spec.path)
  {
    RunConsistent(s, events);
    assert ProcessOk(Run(s, events), p);
  }
}
