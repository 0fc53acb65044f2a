/** What a successful CreateVolume owns, over every run.

    Base paths and export prefixes are parameters of the request. Nothing stops a volume from lying
    below another one, or one directory path from being asked for with two export paths or share
    names on different replicas. `Safe` says of one specification that no requested volume which
    deletes its data has it in its tree, unless both have the same export path or share name and so
    cannot exist together. Then every handle issued for it keeps its directory and its managed marker
    until DeleteVolume is asked for exactly that handle. Of the other requests nothing is assumed, and
    `VolumeRuns` shows that without `Safe` each of these results fails. */
module VolumeOwnership {
  import opened Paths
  import opened VolumeProtocol
  import opened VolumeSafety

  /** All creates of a run are for specifications in `specs`. */
  predicate Asked(specs: set<Spec>, events: seq<Event>) {
    forall i | 0 <= i < |events| && events[i].StartCreate? :: events[i].opts.spec in specs
  }

  /** Deleting no other volume can take the data of one made for `x`. */
  predicate Safe(specs: set<Spec>, x: Spec) {
    forall y <- specs :: y.deleteData && Within(x.path, y.path) ==> y.key == x.key
  }

  /** Volumes made in one directory under names without a slash, each path with one export path or share name,
      are all safe. */
  lemma SameBaseIsSafe(specs: set<Spec>, base: Path, name: Spec -> string, x: Spec)
    requires forall y <- specs :: y.path == base + "/" + name(y) && '/' !in name(y)
    requires forall y, z | y in specs && z in specs && y.path == z.path :: y.key == z.key
    requires x in specs
    ensures Safe(specs, x)
  {
    forall y | y in specs && y.deleteData && Within(x.path, y.path) ensures y.key == x.key {
      if name(x) != name(y) { SiblingsAreApart(base, name(x), name(y)); }
    }
  }

  /** The state of one issued handle's volume. */
  ghost predicate Owned(s: State, h: Handle) {
    && (Carries(s.core, h.rid, Managed(h.spec)) ==> Alive(s.core, h.did))
    && (h.rid in s.core.res && s.core.res[h.rid].marker.Tombstone? ==> Entombed(s.core, h) && h in s.requested)
    && (h.rid !in s.core.res ==> h in s.requested && (h.spec.deleteData ==> !Alive(s.core, h.did)))
  }

  /** A create about to read its resource for the last time: if the marker is still there, so is the directory. */
  ghost predicate Vouched(c: Core, o: Options, pc: CreatePc) {
    pc.CheckResource? && Carries(c, pc.rid, Managed(o.spec)) ==> Alive(c, pc.did)
  }

  ghost predicate ProcessOf(s: State, specs: set<Spec>, x: Spec, p: Pid)
    requires p in s.procs
  {
    s.procs[p].Creating? ==>
      && s.procs[p].opts.spec in specs
      && (s.procs[p].opts.spec == x ==> Vouched(s.core, s.procs[p].opts, s.procs[p].cpc))
  }

  /** One resource is always issued for one specification, and for `x` with one directory. */
  ghost predicate Agreeing(s: State, x: Spec) {
    forall h1, h2 | h1 in s.issued && h2 in s.issued && h1.rid == h2.rid ::
      h1.spec == h2.spec && (h1.spec == x ==> h1 == h2)
  }

  ghost predicate Ownership(s: State, specs: set<Spec>, x: Spec) {
    && Consistent(s)
    && Agreeing(s, x)
    && Safe(specs, x)
    && (forall h <- s.issued :: h.spec in specs && (h.spec == x ==> Owned(s, h)))
    && (forall p <- s.procs :: ProcessOf(s, specs, x, p))
  }

  /** A tree is removed only while the resource for its root is entombed, so never a tree that holds the
      directory of a resource with a managed marker. */
  lemma JobExcludesManaged(s: State, specs: set<Spec>, x: Spec, d: DirId, r: ResId)
    requires Ownership(s, specs, x) && d in s.core.jobs && Alive(s.core, d)
    requires Within(x.path, s.core.born[d]) && Stamped(s.core, r, x)
    ensures !Carries(s.core, r, Managed(x))
  {
    var h := s.core.jobs[d].handle;
    assert HandleOk(s.core, h) && h.spec in specs && Entombed(s.core, h);
    assert h.spec.key == x.key;
    assert r in s.core.res ==> s.core.names[x.key] == r;
    assert s.core.names[h.spec.key] == h.rid;
    hide Within;
  }

  lemma DirectoryDiesEntombed(s: State, specs: set<Spec>, x: Spec, e: Event, d: DirId, r: ResId)
    requires Ownership(s, specs, x)
    requires BornAt(s.core, d, x.path) && Stamped(s.core, r, x)
    requires Alive(s.core, d) && Carries(s.core, r, Managed(x))
    ensures Alive(Step(s, e).core, d)
  {
    if !Alive(Step(s, e).core, d) {
      OnlyJobsKill(s, e, d);
      JobExcludesManaged(s, specs, x, e.did, r);
    }
  }

  /** A directory goes only as part of a tree that a running job removes. */
  lemma OnlyJobsKill(s: State, e: Event, d: DirId)
    requires Consistent(s) && Alive(s.core, d) && !Alive(Step(s, e).core, d)
    ensures e.TreeShrinks? && e.did in s.core.jobs && !s.core.jobs[e.did].aborted
    ensures Alive(s.core, e.did) && Within(s.core.born[d], s.core.born[e.did])
  {
    if e.TreeShrinks? && e.did in s.core.jobs && Within(s.core.born[d], e.path) && Within(e.path, s.core.born[e.did]) {
      WithinTransitive(s.core.born[d], e.path, s.core.born[e.did]);
    }
    assert d < s.core.nextDir;
    hide Consistent, HandleOk, Within;
    if e.Call? && e.pid in s.procs {
      match s.procs[e.pid]
      case Creating(o, pc) => DirectoriesGrow(s.core, o, pc, e.commit, e.report);
      case Deleting(h, pc) => DirectoriesStay(s.core, h, pc, e.commit, e.report);
    }
    hide CreateCall, DeleteCall;
  }

  lemma DirectoriesStay(c: Core, h: Handle, pc: DeletePc, commit: bool, report: Report)
    ensures DeleteCall(c, h, pc, commit, report).0.dirs == c.dirs
            && DeleteCall(c, h, pc, commit, report).0.born == c.born
  {
  }

  lemma DirectoriesGrow(c: Core, o: Options, pc: CreatePc, commit: bool, report: Report)
    ensures forall p <- c.dirs :: var c' := CreateCall(c, o, pc, commit, report).0;
              p in c'.dirs && c'.dirs[p] == c.dirs[p]
    ensures forall d <- c.born :: var c' := CreateCall(c, o, pc, commit, report).0;
              d in c'.born && (d < c.nextDir ==> c'.born[d] == c.born[d])
  {
  }

  /** A managed marker found after an event was there before it, unless the event created the resource. */
  lemma ManagedWasManaged(s: State, e: Event, r: ResId, spec: Spec)
    requires Consistent(s) && r < s.core.nextRes && Carries(Step(s, e).core, r, Managed(spec))
    ensures Carries(s.core, r, Managed(spec))
  {
    StepCoreOk(s, e);
  }

  lemma VouchedStep(s: State, specs: set<Spec>, x: Spec, e: Event, p: Pid)
    requires Ownership(s, specs, x) && p in s.procs && s.procs[p].Creating? && s.procs[p].cpc.CheckResource?
    requires s.procs[p].opts.spec == x
    ensures Vouched(Step(s, e).core, s.procs[p].opts, s.procs[p].cpc)
  {
    var o, pc := s.procs[p].opts, s.procs[p].cpc;
    assert ProcessOk(s, p) && ProcessOf(s, specs, x, p);
    hide CoreOk, Evolves;
    if Carries(Step(s, e).core, pc.rid, Managed(x)) {
      ManagedWasManaged(s, e, pc.rid, x);
      DirectoryDiesEntombed(s, specs, x, e, pc.did, pc.rid);
    }
  }

  lemma ProcessOfStep(s: State, specs: set<Spec>, x: Spec, e: Event, p: Pid)
    requires Ownership(s, specs, x) && p in Step(s, e).procs
    requires e.StartCreate? ==> e.opts.spec in specs
    ensures ProcessOf(Step(s, e), specs, x, p)
  {
    if p in s.procs && s.procs[p].Creating? {
      assert ProcessOk(s, p) && ProcessOf(s, specs, x, p);
      var o, pc := s.procs[p].opts, s.procs[p].cpc;
      if pc.CheckResource? && o.spec == x { VouchedStep(s, specs, x, e, p); }
      hide Ownership, Consistent, CoreOk, Evolves, HandleOk, Agreeing;
      if e.Call? && e.pid == p { VouchedCall(s.core, o, pc, e.commit, e.report); }
    }
    hide Ownership, Consistent, CoreOk, Evolves, HandleOk, Agreeing;
  }

  lemma VouchedCall(c: Core, o: Options, pc: CreatePc, commit: bool, report: Report)
    requires CreateOk(c, o, pc)
    ensures var (c', pc') := CreateCall(c, o, pc, commit, report); Vouched(c', o, pc')
  {
  }

  /** The event that issues a handle reads the managed marker, and the directory is there if the volume is safe. */
  lemma IssueReadsVolume(s: State, specs: set<Spec>, x: Spec, e: Event, h: Handle)
    requires Ownership(s, specs, x) && h !in s.issued && h in Step(s, e).issued
    ensures Step(s, e).core == s.core && Step(s, e).issued == s.issued + {h}
    ensures HandleOk(s.core, h) && h.spec in specs
    ensures Carries(s.core, h.rid, Managed(h.spec)) && (h.spec == x ==> Alive(s.core, h.did))
  {
    assert e.Call? && e.pid in s.procs && s.procs[e.pid].Creating? by { hide Ownership; }
    assert ProcessOk(s, e.pid) && ProcessOf(s, specs, x, e.pid);
    var o, pc := s.procs[e.pid].opts, s.procs[e.pid].cpc;
    CreatedComesFrom(s.core, o, pc, e.commit, e.report);
    hide CoreOk, Evolves, Ownership, Consistent, CreateCall;
  }

  /** A create returns only from the read of its resource, which changes nothing. */
  lemma CreatedComesFrom(c: Core, o: Options, pc: CreatePc, commit: bool, report: Report)
    ensures var (c', pc') := CreateCall(c, o, pc, commit, report);
            pc'.Created? && !pc.Created? ==>
              && c' == c && pc.CheckResource? && pc'.handle == Handle(pc.did, pc.rid, o.spec)
              && Carries(c, pc.rid, Managed(o.spec)) && SameTarget(c.res[pc.rid], o.spec)
  {
  }

  lemma AgreeingStep(s: State, specs: set<Spec>, x: Spec, e: Event)
    requires Ownership(s, specs, x)
    ensures Agreeing(Step(s, e), x)
  {
    var s' := Step(s, e);
    forall h1, h2 | h1 in s'.issued && h2 in s'.issued && h1.rid == h2.rid
      ensures h1.spec == h2.spec && (h1.spec == x ==> h1 == h2)
    {
      if h1 !in s.issued { IssueReadsVolume(s, specs, x, e, h1); }
      if h2 !in s.issued { IssueReadsVolume(s, specs, x, e, h2); }
      hide CoreOk, Evolves;
      if h1 in s.issued { assert HandleOk(s.core, h1) && (h1.spec == x ==> Owned(s, h1)); }
      if h2 in s.issued { assert HandleOk(s.core, h2) && (h2.spec == x ==> Owned(s, h2)); }
    }
  }

  /** Only its own deletion entombs or removes the resource of an issued handle. */
  lemma OwnResourceStep(s: State, specs: set<Spec>, x: Spec, e: Event, h: Handle)
    requires Ownership(s, specs, x) && h in s.issued && h.spec == x
    ensures var s' := Step(s, e);
            && (h.rid in s'.core.res && s'.core.res[h.rid].marker.Tombstone? ==>
                Entombed(s'.core, h) && h in s'.requested)
            && (h.rid !in s'.core.res ==> h in s'.requested && (h.spec.deleteData ==> !Alive(s'.core, h.did)))
  {
    var s' := Step(s, e);
    assert HandleOk(s.core, h) && Owned(s, h);
    StepCoreOk(s, e);
    if h.rid in s.core.res {
      if h.rid !in s'.core.res {
        RemovalMeansDeadOrManaged(s, e, h.rid);
        assert s.procs[e.pid].h == h;
      } else if s'.core.res[h.rid].marker != s.core.res[h.rid].marker {
        MarkerChangeIsEntombing(s, e, h.rid);
        assert s.procs[e.pid].h == h;
      }
    }
  }

  lemma OwnedStep(s: State, specs: set<Spec>, x: Spec, e: Event, h: Handle)
    requires Ownership(s, specs, x) && h in Step(s, e).issued
    ensures h.spec in specs && (h.spec == x ==> Owned(Step(s, e), h))
  {
    hide CoreOk, Evolves;
    if h !in s.issued {
      IssueReadsVolume(s, specs, x, e, h);
    } else if h.spec == x {
      assert HandleOk(s.core, h) && Owned(s, h);
      OwnResourceStep(s, specs, x, e, h);
      if Carries(Step(s, e).core, h.rid, Managed(x)) {
        ManagedWasManaged(s, e, h.rid, x);
        DirectoryDiesEntombed(s, specs, x, e, h.did, h.rid);
      }
    }
  }

  lemma OwnershipStep(s: State, specs: set<Spec>, x: Spec, e: Event)
    requires Ownership(s, specs, x) && (e.StartCreate? ==> e.opts.spec in specs)
    ensures Ownership(Step(s, e), specs, x)
  {
    StepConsistent(s, e);
    AgreeingStep(s, specs, x, e);
    hide Consistent, Agreeing, Owned, ProcessOf, Safe;
    forall h | h in Step(s, e).issued
      ensures h.spec in specs && (h.spec == x ==> Owned(Step(s, e), h))
    {
      OwnedStep(s, specs, x, e, h);
    }
    forall p | p in Step(s, e).procs ensures ProcessOf(Step(s, e), specs, x, p) { ProcessOfStep(s, specs, x, e, p); }
  }

  lemma {:induction false} RunOwnership(s: State, specs: set<Spec>, x: Spec, events: seq<Event>)
    requires Initial(s) && Asked(specs, events) && Safe(specs, x)
    ensures Ownership(Run(s, events), specs, x)
    decreases |events|
  {
    if events == [] {
      InitialConsistent(s);
    } else {
      RunOwnership(s, specs, x, events[..|events| - 1]);
      OwnershipStep(Run(s, events[..|events| - 1]), specs, x, events[|events| - 1]);
    }
  }

  // ---------------------------------------------------------------- main results

  /** The volume is there as its handle describes it. */
  ghost predicate Intact(c: Core, h: Handle) {
    && h.spec.path in c.dirs && c.dirs[h.spec.path] == h.did
    && Carries(c, h.rid, Managed(h.spec)) && SameTarget(c.res[h.rid], h.spec)
  }

  /** In every run, a safe volume whose handle was issued and for which DeleteVolume was never called is
      intact: its directory still exists at its path and its resource still carries the managed marker. */
  lemma NoLossWithoutRequest(s: State, specs: set<Spec>, events: seq<Event>, h: Handle)
    requires Initial(s) && Asked(specs, events) && Safe(specs, h.spec)
    requires h in Run(s, events).issued && h !in Run(s, events).requested
    ensures Intact(Run(s, events).core, h)
  {
    RunOwnership(s, specs, h.spec, events);
    assert Owned(Run(s, events), h) && HandleOk(Run(s, events).core, h);
  }

  /** Every successful create of a safe volume has an instant, the event that issues the handle, at which its
      directory was at its path and its resource carried the managed marker of its specification. */
  lemma CreateReturnsLiveVolume(s: State, specs: set<Spec>, events: seq<Event>, e: Event, h: Handle)
    requires Initial(s) && Asked(specs, events) && Safe(specs, h.spec)
    requires h !in Run(s, events).issued && h in Step(Run(s, events), e).issued
    ensures Intact(Run(s, events).core, h)
  {
    RunOwnership(s, specs, h.spec, events);
    IssueReadsVolume(Run(s, events), specs, h.spec, e, h);
  }

  /** Successful creates that return one resource agree on its specification, whatever deletes and
      re-creates ran in between, and if it is safe also on its directory. */
  lemma CreatesAgree(s: State, specs: set<Spec>, events: seq<Event>, h1: Handle, h2: Handle)
    requires Initial(s) && Asked(specs, events) && Safe(specs, h1.spec)
    requires h1 in Run(s, events).issued && h2 in Run(s, events).issued && h1.rid == h2.rid
    ensures h1 == h2
  {
    RunOwnership(s, specs, h1.spec, events);
  }

  /** The directory of a safe live volume lies in the tree of no other live volume that would take it when
      deleted, nor in that of one with the same export path or share name. */
  lemma LiveVolumesAreDisjoint(s: State, specs: set<Spec>, events: seq<Event>, h1: Handle, h2: Handle)
    requires Initial(s) && Asked(specs, events) && Safe(specs, h1.spec)
    requires h1 in Run(s, events).issued && h2 in Run(s, events).issued && h1 != h2
    requires h1.rid in Run(s, events).core.res && h2.rid in Run(s, events).core.res
    ensures Within(h1.spec.path, h2.spec.path) ==> h1.spec.key != h2.spec.key && !h2.spec.deleteData
  {
    RunOwnership(s, specs, h1.spec, events);
    var c := Run(s, events).core;
    assert HandleOk(c, h1) && HandleOk(c, h2);
    assert h2.spec in specs;
  }

  /** A DeleteVolume call that reports success has removed its resource and, when asked to, its data. */
  lemma DeleteSuccessMeansGone(s: State, events: seq<Event>, p: Pid)
    requires Initial(s)
    requires p in Run(s, events).procs && Run(s, events).procs[p].Deleting? && Run(s, events).procs[p].dpc.Deleted?
    ensures var h := Run(s, events).procs[p].h;
            h.rid !in Run(s, events).core.res && (h.spec.deleteData ==> !Alive(Run(s, events).core, h.did))
  {
    RunConsistent(s, events);
    assert ProcessOk(Run(s, events), p);
  }
}
