/** Publishing and unpublishing one target on a node, with failures and crashes anywhere.

    `stack` is what the kernel has mounted on the target, `durable` the fingerprint file and `memory`
    what the running driver remembers. Mounting, unmounting and both file operations can fail before
    or after they took effect, and the driver can stop between any two steps, which empties its
    memory. Looking up a mount fails or tells the truth. The target lock serialises the requests. */
module NodePublish {
  import opened MountOptions
  import opened MountVerification
  import opened PublishFingerprint
  import opened Wrappers
  import opened Text

  /** A mount, and the arguments it was made with if the driver made it. */
  datatype Mount = Mount(record: Record, args: Option<Fingerprint>)

  datatype Outcome = Success | Failed | Crashed

  type Decoder = string -> Option<Volume>

  /** The record is that of a mount the driver made for request `q` of volume `v`. */
  ghost predicate MadeFor(r: Record, q: Request, v: Volume) {
    exists credentials, out ::
      && (v.proto.Smb? ==> PlainValue(credentials))
      && Merges(Base(v, credentials), q.mountFlags, q.readOnly, Ok(out)) && RecordsMount(r, v, out)
  }

  /** The stateless checks that come before the mount table is consulted. */
  predicate Acceptable(decode: Decoder, q: Request) {
    decode(q.volumeId).Some? && ValidVolume(decode(q.volumeId).value)
        && PublishAccepts(decode(q.volumeId).value, q.mountFlags)
  }

  /** A mount made by the driver carries the fingerprint of an acceptable request it was made for. */
  ghost predicate Explained(decode: Decoder, m: Mount) {
    m.args.Some? ==>
      exists q ::
          Acceptable(decode, q) && FingerprintOf(q, Ok(m.args.value)) && MadeFor(m.record, q, decode(q.volumeId).value)
  }

  /** A mount made for one request is recognised by every request with the same fingerprint. */
  lemma SameFingerprintMatches(decode: Decoder, m: Mount, q: Request)
    requires m.args.Some? && Explained(decode, m) && Acceptable(decode, q) && FingerprintOf(q, Ok(m.args.value))
    ensures MountMatches(decode(q.volumeId).value, m.record, q.readOnly, q.mountFlags)
  {
    var p :| Acceptable(decode, p) && FingerprintOf(p, Ok(m.args.value))
        && MadeFor(m.record, p, decode(p.volumeId).value);
    var v := decode(p.volumeId).value;
    var credentials, out :|
      && (v.proto.Smb? ==> PlainValue(credentials))
      && Merges(Base(v, credentials), p.mountFlags, p.readOnly, Ok(out)) && RecordsMount(m.record, v, out);
    PublishVerifyRoundTrip(v, credentials, p.mountFlags, p.readOnly, out, m.record);
    SameFingerprintIff(p, q, m.args.value, m.args.value);
    hide Accepted, Items, Normals, Satisfied, SameIdentity, RequiredOptions, RecordOptions, Merges, Base, Entries,
         Sanitizes, PublishAccepts, RecordsMount;
  }

  lemma NewMountExplained(decode: Decoder, q: Request, v: Volume, credentials: string, options: seq<string>,
      fp: Fingerprint, r: Record)
    requires decode(q.volumeId) == Some(v) && Acceptable(decode, q) && FingerprintOf(q, Ok(fp))
             && PlainValue(credentials)
    requires Merges(Base(v, credentials), q.mountFlags, q.readOnly, Ok(options)) && RecordsMount(r, v, options)
    ensures Explained(decode, Mount(r, Some(fp)))
  {
    hide FingerprintOf, Acceptable, Merges, Base, PlainValue, RecordsMount;
    assert MadeFor(r, q, v);
  }

  lemma AcceptableMerges(decode: Decoder, q: Request, base: seq<string>, r: Result<seq<string>>)
    requires Acceptable(decode, q) && Merges(base, q.mountFlags, q.readOnly, r)
    ensures r.Ok?
  {
  }

  lemma NoFingerprint(decode: Decoder, q: Request)
    requires FingerprintOf(q, Err)
    ensures !Acceptable(decode, q)
  {
  }

  lemma SameRequestSameFingerprint(q: Request, a: Fingerprint, b: Fingerprint)
    requires FingerprintOf(q, Ok(a)) && FingerprintOf(q, Ok(b))
    ensures a == b
  {
    SameFingerprintIff(q, q, a, b);
  }

  /** What is mounted is not the volume's own export or share: an NFS source must be the same, an SMB source
      the same up to case and trailing slashes, the filesystem type that of the protocol and version, and
      the root of the export or share must be what is mounted. */
  predicate OtherMount(v: Volume, r: Record) {
    || (v.proto.Nfs? && r.source != v.source)
    || (v.proto.Smb? && !EqualFold(TrimSlashes(r.source), TrimSlashes(v.source)))
    || (v.proto.Smb? && !EqualFold(TrimSpace(r.fsType), "cifs"))
    || (v.proto.Nfs? && v.nfsVersion == "3" && !EqualFold(TrimSpace(r.fsType), "nfs"))
    || (v.proto.Nfs? && v.nfsVersion != "3" && !EqualFold(TrimSpace(r.fsType), "nfs4"))
    || r.root != "/"
  }

  lemma OtherMountIff(v: Volume, r: Record)
    ensures OtherMount(v, r) <==> !SameIdentity(v, r)
  {
    hide EqualFold, TrimSlashes, TrimSpace;
  }

  lemma OtherMountNeverMatches(v: Volume, r: Record, readOnly: bool, requested: seq<string>)
    requires OtherMount(v, r)
    ensures !MountMatches(v, r, readOnly, requested)
  {
    OtherMountIff(v, r);
    hide SameIdentity, OtherMount, RecordOptions, RequiredOptions, RequestedOptions;
  }

  lemma TypesOfProtocolsDiffer(v: Volume, w: Volume)
    requires w.proto != v.proto
    ensures !EqualFold(TrimSpace(ExpectedFSType(v)), ExpectedFSType(w))
  {
    TrimSpaceTrims(ExpectedFSType(v));
    EqualFoldStarts(ExpectedFSType(v), ExpectedFSType(w));
    hide TrimSpace;
  }

  /** A mount made for one volume never counts as one of a volume with another source or protocol. */
  lemma MountOfAnotherVolumeNeverMatches(v: Volume, w: Volume, r: Record, options: seq<string>, readOnly: bool,
      requested: seq<string>)
    requires RecordsMount(r, v, options)
    requires (w.proto.Nfs? && w.source != v.source)
             || (w.proto.Smb? && !EqualFold(TrimSlashes(v.source), TrimSlashes(w.source))) || w.proto != v.proto
    ensures !MountMatches(w, r, readOnly, requested)
  {
    if w.proto != v.proto { TypesOfProtocolsDiffer(v, w); }
    hide EqualFold, TrimSlashes, TrimSpace, ExpectedFSType;
    OtherMountNeverMatches(w, r, readOnly, requested);
  }

  class Target {
    var stack: seq<Mount>
    var durable: Option<Fingerprint>
    var memory: Option<Fingerprint>
    const decode: Decoder
    const faulty: bool

    /** The driver starts: whatever the kernel and the disk hold, its memory is empty. */
    constructor (stack: seq<Mount>, durable: Option<Fingerprint>, decode: Decoder, faulty: bool)
      ensures this.stack == stack && this.durable == durable && memory == None && this.decode == decode
              && this.faulty == faulty
    {
      this.stack, this.durable, this.memory, this.decode, this.faulty := stack, durable, None, decode, faulty;
    }

    /** Never two mounts; a mount made by the driver has its arguments on disk, and the driver remembers
        nothing else about it. */
    ghost predicate Valid()
      reads this
    {
      && |stack| <= 1
      && (stack != [] ==> Explained(decode, stack[0]))
      && (stack != [] && stack[0].args.Some? ==> durable == stack[0].args && (memory.Some? ==> memory == durable))
    }

    method Fault() returns (fault: bool)
      ensures fault ==> faulty
    {
      fault := *;
      fault := fault && faulty;
    }

    /** The driver may stop here. */
    method Stop() returns (stopped: bool)
      modifies this`memory
      ensures stopped ==> faulty
      ensures memory == if stopped then None else old(memory)
    {
      stopped := Fault();
      if stopped { memory := None; }
    }

    method WriteState(state: Option<Fingerprint>) returns (ok: bool)
      modifies this`durable
      ensures ok ==> durable == state
      ensures !ok ==> faulty && (durable == state || durable == old(durable))
    {
      var fault := Fault();
      ok := !fault;
      var written: bool := *;
      if ok || written { durable := state; }
    }

    /** The mount helper: what it mounts goes on top of what is there. */
    method MountOn(v: Volume, options: seq<string>, args: Fingerprint) returns (ok: bool)
      modifies this`stack
      ensures stack == old(stack)
              || (exists r :: RecordsMount(r, v, options) && stack == [Mount(r, Some(args))] + old(stack))
      ensures ok ==> stack != old(stack)
      ensures !ok ==> faulty
    {
      var fault := Fault();
      ok := !fault;
      var mounted: bool, split: bool := *, *;
      if ok || mounted {
        var r := Record("/", v.source, ExpectedFSType(v), if split then options else [], options);
        stack := [Mount(r, Some(args))] + stack;
      }
    }

    method Unmount() returns (ok: bool)
      requires stack != []
      modifies this`stack
      ensures stack == old(stack) || stack == old(stack)[1..]
      ensures ok ==> stack == old(stack)[1..]
      ensures !ok ==> faulty
    {
      var fault := Fault();
      ok := !fault;
      var unmounted: bool := *;
      if ok || unmounted { stack := stack[1..]; }
    }

    /** What a publish that succeeds vouches for. */
    ghost predicate Serves(q: Request)
      reads this
    {
      && stack != [] && durable.Some? && FingerprintOf(q, Ok(durable.value)) && decode(q.volumeId).Some?
      && MountMatches(decode(q.volumeId).value, stack[0].record, q.readOnly, q.mountFlags)
      && (stack[0].args.Some? ==> stack[0].args == durable)
    }

    /** The target is mounted: succeeds only for the arguments on disk, and changes nothing but memory. */
    method PublishMounted(q: Request, v: Volume, fp: Fingerprint) returns (o: Outcome)
      requires decode(q.volumeId) == Some(v) && Valid() && stack != [] && Acceptable(decode, q)
               && FingerprintOf(q, Ok(fp))
      modifies this`memory
      ensures Valid()
      ensures o.Success? ==> Serves(q)
      ensures o.Crashed? ==> memory == None
      ensures !faulty && stack[0].args.Some? ==> (o.Success? <==> stack[0].args == Some(fp))
    {
      hide MountMatches, FingerprintOf, Explained, Acceptable;
      if stack[0].args == Some(fp) { SameFingerprintMatches(decode, stack[0], q); }
      if !MountMatches(v, stack[0].record, q.readOnly, q.mountFlags) { return Failed; }
      var fault := Fault();
      if fault || durable != Some(fp) { return Failed; }
      if memory.Some? && memory != Some(fp) { return Failed; }
      memory := Some(fp);
      var stopped := Stop();
      return if stopped then Crashed else Success;
    }

    /** The target is free: the fingerprint is on disk before the mount helper runs. */
    method PublishFree(q: Request, v: Volume, fp: Fingerprint, credentials: string) returns (o: Outcome)
      requires decode(q.volumeId) == Some(v) && Valid() && stack == [] && Acceptable(decode, q)
               && FingerprintOf(q, Ok(fp)) && PlainValue(credentials)
      modifies this
      ensures Valid()
      ensures o.Success? ==> stack != [] && stack[0].args == Some(fp)
      ensures o.Crashed? ==> memory == None
      ensures stack != [] ==> stack[0].args == Some(fp)
      ensures !faulty ==> o.Success?
    {
      hide FingerprintOf, Acceptable, Merges, Base, PlainValue, Explained, MadeFor, RecordsMount;
      memory := None;
      var options := MergeMountOptions(Base(v, credentials), q.mountFlags, q.readOnly);
      AcceptableMerges(decode, q, Base(v, credentials), options);
      var stopped := Stop();
      if stopped { return Crashed; }
      var ok := WriteState(Some(fp));
      if !ok { return Failed; }
      stopped := Stop();
      if stopped { return Crashed; }
      memory := Some(fp);
      ok := MountOn(v, options.value, fp);
      if stack != [] {
        NewMountExplained(decode, q, v, credentials, options.value, fp, stack[0].record);
      }
      stopped := Stop();
      return if stopped then Crashed else if ok then Success else Failed;
    }

    /** Publishes `q`; `admissible` is the verdict of the request validation that needs no state, and
        `credentials` the file written for an SMB mount. A mount that is there is never touched and never
        covered. On a healthy node an acceptable request succeeds exactly when the target is free or was
        mounted for the same arguments. */
    method NodePublishVolume(q: Request, admissible: bool, credentials: string) returns (o: Outcome)
      requires Valid() && PlainValue(credentials)
      modifies this
      ensures Valid()
      ensures o.Success? ==> Serves(q)
      ensures o.Crashed? ==> memory == None
      ensures old(stack) != [] ==> stack == old(stack) && durable == old(durable)
      ensures !admissible || !Acceptable(decode, q) ==> !o.Success? && stack == old(stack) && durable == old(durable)
      ensures !faulty && admissible && Acceptable(decode, q) ==>
                && (old(stack) == [] ==> o.Success?)
                && (old(stack) != [] && old(stack)[0].args.Some? ==>
                    (o.Success? <==> FingerprintOf(q, Ok(old(stack)[0].args.value))))
      ensures old(stack) == [] && stack != [] ==> stack[0].args.Some? && FingerprintOf(q, Ok(stack[0].args.value))
    {
      var fp := NodePublishFingerprint(q);
      if fp.Err? {
        NoFingerprint(decode, q);
        return Failed;
      }
      if decode(q.volumeId).None? || !admissible || !Acceptable(decode, q) { return Failed; }
      var v := decode(q.volumeId).value;
      hide MountMatches, Acceptable, Explained, FingerprintOf;
      var fault := Fault();
      if fault { return Failed; }
      if stack != [] {
        if stack[0].args.Some? && FingerprintOf(q, Ok(stack[0].args.value)) {
          SameRequestSameFingerprint(q, fp.value, stack[0].args.value);
        }
        o := PublishMounted(q, v, fp.value);
      } else {
        o := PublishFree(q, v, fp.value, credentials);
        if o.Success? { SameFingerprintMatches(decode, stack[0], q); }
      }
    }

    /** Unpublishes whatever is mounted, unless it is recognisably another volume. The fingerprint goes
        only after the mount. */
    method NodeUnpublishVolume(volumeId: string) returns (o: Outcome)
      requires Valid()
      modifies this
      ensures Valid()
      ensures o.Success? ==> stack == [] && durable == None && memory == None
      ensures o.Crashed? ==> memory == None
      ensures stack == old(stack) || stack == []
      ensures stack != [] ==> durable == old(durable)
      ensures old(stack) != [] && decode(volumeId).Some? && OtherMount(decode(volumeId).value, old(stack)[0].record) ==>
                !o.Success? && stack == old(stack) && durable == old(durable)
      ensures !faulty ==> (o.Success? <==> old(stack) == [] || decode(volumeId).None?
                                           || !OtherMount(decode(volumeId).value, old(stack)[0].record))
    {
      hide Explained, SameIdentity, OtherMount;
      var fault := Fault();
      if fault { return Failed; }
      if stack != [] {
        if decode(volumeId).Some? { OtherMountIff(decode(volumeId).value, stack[0].record); }
        if decode(volumeId).Some? && !SameIdentity(decode(volumeId).value, stack[0].record) { return Failed; }
        var ok := Unmount();
        if !ok { return Failed; }
        var stopped := Stop();
        if stopped { return Crashed; }
      }
      var ok := WriteState(None);
      if !ok { return Failed; }
      var stopped := Stop();
      if stopped { return Crashed; }
      memory := None;
      return Success;
    }
  }

  /** Publishing until it works: after any failures and crashes on a target that was free, the driver is
      restarted on a healthy node and asked again. It succeeds and there is exactly one mount, even if an
      earlier attempt was reported as failed after the kernel had accepted it. */
  method PublishThroughFailures(t: Target, q: Request, credentials: seq<string>) returns (o: Outcome, restarted: Target)
    requires t.Valid() && t.stack == [] && Acceptable(t.decode, q) && |credentials| > 0 && forall c <- credentials ::
             PlainValue(c)
    modifies t
    ensures o.Success? && restarted.Valid() && restarted.Serves(q) && |restarted.stack| == 1
    ensures restarted.stack[0].args.Some? && FingerprintOf(q, Ok(restarted.stack[0].args.value))
  {
    hide Explained, MountMatches, FingerprintOf, Acceptable, PlainValue;
    for i := 0 to |credentials|
      invariant t.Valid() && (t.stack != [] ==> t.stack[0].args.Some? && FingerprintOf(q, Ok(t.stack[0].args.value)))
    {
      var _ := t.NodePublishVolume(q, true, credentials[i]);
    }
    restarted := new Target(t.stack, t.durable, t.decode, false);
    o := restarted.NodePublishVolume(q, true, credentials[0]);
  }

  // ---------------------------------------------------------------- every run

  datatype Rpc =
    | Publish(q: Request, admissible: bool, credentials: string)
    | Unpublish(volumeId: string)
    | Restart

  /** What the kernel and the disk hold between two requests. */
  datatype Snapshot = Snapshot(stack: seq<Mount>, durable: Option<Fingerprint>)

  /** One request, whatever failed or crashed in it: there is never a second mount, a mount of the driver's
      has its arguments on disk, a mount that stays keeps them, a new one was made by a publish of those
      arguments, and success vouches for the request. */
  ghost predicate Follows(before: Snapshot, r: Rpc, o: Outcome, after: Snapshot) {
    && |after.stack| <= 1
    && (after.stack != [] && after.stack[0].args.Some? ==> after.durable == after.stack[0].args)
    && (before.stack != [] ==> after == before || (r.Unpublish? && after.stack == []))
    && (before.stack == [] && after.stack != [] ==>
          r.Publish? && after.stack[0].args.Some? && FingerprintOf(r.q, Ok(after.stack[0].args.value)))
    && (r.Publish? && o.Success? ==>
        after.stack != [] && after.durable.Some? && FingerprintOf(r.q, Ok(after.durable.value)))
    && (r.Unpublish? && o.Success? ==> after == Snapshot([], None))
  }

  ghost predicate Chronicle(rs: seq<Rpc>, outcomes: seq<Outcome>, history: seq<Snapshot>) {
    && |outcomes| == |rs| && |history| == |rs| + 1
    && forall i | 0 <= i < |rs| :: Follows(history[i], rs[i], outcomes[i], history[i + 1])
  }

  method ServeOne(t: Target, r: Rpc) returns (o: Outcome)
    requires t.Valid() && (r.Publish? ==> PlainValue(r.credentials))
    modifies t
    ensures t.Valid()
    ensures Follows(old(Snapshot(t.stack, t.durable)), r, o, Snapshot(t.stack, t.durable))
  {
    hide Explained, MountMatches, FingerprintOf, Acceptable, SameIdentity, PlainValue;
    match r
    case Publish(q, admissible, credentials) => o := t.NodePublishVolume(q, admissible, credentials);
    case Unpublish(volumeId) => o := t.NodeUnpublishVolume(volumeId);
    case Restart =>
      t.memory := None;
      o := Success;
  }

  /** Any publishes, unpublishes and restarts in any order, each failing or crashing anywhere. */
  method Serve(t: Target, rs: seq<Rpc>) returns (outcomes: seq<Outcome>, history: seq<Snapshot>)
    requires t.Valid() && forall r <- rs :: r.Publish? ==> PlainValue(r.credentials)
    modifies t
    ensures t.Valid() && Chronicle(rs, outcomes, history)
    ensures history[0] == old(Snapshot(t.stack, t.durable)) && history[|rs|] == Snapshot(t.stack, t.durable)
  {
    outcomes, history := [], [Snapshot(t.stack, t.durable)];
    hide Follows, PlainValue;
    for i := 0 to |rs|
      invariant t.Valid() && Chronicle(rs[..i], outcomes, history)
      invariant history[0] == old(Snapshot(t.stack, t.durable)) && history[i] == Snapshot(t.stack, t.durable)
    {
      var o := ServeOne(t, rs[i]);
      ChronicleGrows(rs[..i], outcomes, history, rs[i], o, Snapshot(t.stack, t.durable));
      assert rs[..i] + [rs[i]] == rs[..i + 1];
      outcomes, history := outcomes + [o], history + [Snapshot(t.stack, t.durable)];
    }
    assert rs[..|rs|] == rs;
  }

  lemma ChronicleGrows(rs: seq<Rpc>, outcomes: seq<Outcome>, history: seq<Snapshot>, r: Rpc, o: Outcome, now: Snapshot)
    requires Chronicle(rs, outcomes, history) && Follows(history[|rs|], r, o, now)
    ensures Chronicle(rs + [r], outcomes + [o], history + [now])
  {
    hide Follows;
  }

  /** As long as the target stays mounted it is the same mount with the same arguments on disk. */
  lemma {:induction false} MountStays(rs: seq<Rpc>, outcomes: seq<Outcome>, history: seq<Snapshot>, i: nat, j: nat)
    requires Chronicle(rs, outcomes, history) && i <= j <= |rs|
    requires forall k | i <= k <= j :: history[k].stack != []
    ensures history[j] == history[i]
    decreases j
  {
    if i < j {
      MountStays(rs, outcomes, history, i, j - 1);
      assert Follows(history[j - 1], rs[j - 1], outcomes[j - 1], history[j]);
    }
  }

  /** In every run, all publishes that succeed while the target stays mounted were asked for the same
      arguments, and a mount the driver made was made for them too. */
  lemma SuccessfulPublishesAgree(rs: seq<Rpc>, outcomes: seq<Outcome>, history: seq<Snapshot>, i: nat, j: nat)
    requires Chronicle(rs, outcomes, history) && i <= j < |rs|
    requires rs[i].Publish? && outcomes[i].Success? && rs[j].Publish? && outcomes[j].Success?
    requires forall k | i < k <= j :: history[k].stack != []
    ensures exists fp :: FingerprintOf(rs[i].q, Ok(fp)) && FingerprintOf(rs[j].q, Ok(fp))
                         && history[j + 1].durable == Some(fp)
                         && (history[j + 1].stack[0].args.Some? ==> history[j + 1].stack[0].args == Some(fp))
  {
    assert Follows(history[i], rs[i], outcomes[i], history[i + 1]);
    assert Follows(history[j], rs[j], outcomes[j], history[j + 1]);
    MountStays(rs, outcomes, history, i + 1, j + 1);
    hide FingerprintOf;
  }
}
