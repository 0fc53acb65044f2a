/** NFS exports: comparing with and patching towards a request. */
module NfsExports {
  import opened StrictClaim
  import opened Wrappers

  datatype NfsIdentity = NfsIdentity(idType: string, idValue: string)

  datatype Restriction = Restriction(
    hosts: seq<string>, privilegedPort: bool, readOnly: bool, authentication: string, mapping: string,
    mapToUser: Option<NfsIdentity>, mapToGroup: Option<NfsIdentity>)

  /** An export as stored; a request has the same writable fields. */
  datatype Export = Export(
    exportPath: string, fsPath: string, description: string, restrictions: seq<Restriction>, fields32Bit: seq<string>)

  /** Only the fields to change; `Some([])` clears a list. */
  datatype Patch = Patch(
    exportPath: Option<string>, description: Option<string>,
    restrictions: Option<seq<Restriction>>, fields32Bit: Option<seq<string>>)

  method EqualNFSRestrictions(a: seq<Restriction>, b: seq<Restriction>) returns (same: bool)
    ensures same <==> a == b
  {
    if |a| != |b| { return false; }
    for i := 0 to |a|
      invariant a[..i] == b[..i]
    {
      if a[i].hosts != b[i].hosts || a[i].(hosts := []) != b[i].(hosts := []) { return false; }
      assert a[i] == b[i];
    }
    return true;
  }

  function NfsExportPatch(current: Export, desired: Export): Patch {
    Patch(if current.exportPath != desired.exportPath then Some(desired.exportPath) else None,
          if current.description != desired.description then Some(desired.description) else None,
          if current.restrictions != desired.restrictions then Some(desired.restrictions) else None,
          if current.fields32Bit != desired.fields32Bit then Some(desired.fields32Bit) else None)
  }

  predicate Changed(p: Patch) {
    p.exportPath.Some? || p.description.Some? || p.restrictions.Some? || p.fields32Bit.Some?
  }

  /** What Core makes of a patch. */
  function Applied(current: Export, p: Patch): Export {
    Export(if p.exportPath.Some? then p.exportPath.value else current.exportPath, current.fsPath,
           if p.description.Some? then p.description.value else current.description,
           if p.restrictions.Some? then p.restrictions.value else current.restrictions,
           if p.fields32Bit.Some? then p.fields32Bit.value else current.fields32Bit)
  }

  /** There is something to patch exactly when a writable field differs, and one patch makes the export
      equal to the request in all of them without retargeting it. */
  lemma PatchReconciles(current: Export, desired: Export)
    ensures Changed(NfsExportPatch(current, desired)) <==> current != desired.(fsPath := current.fsPath)
    ensures Applied(current, NfsExportPatch(current, desired)) == desired.(fsPath := current.fsPath)
  {
  }

  function ExportKind(): Kind<Export, Export> {
    Kind((r: Export) => r.description, (r: Export) => r.fsPath, (q: Export) => q.description, (q: Export) => q.fsPath,
         (r: Export, q: Export) => Changed(NfsExportPatch(r, q)),
             (r: Export, q: Export) => Applied(r, NfsExportPatch(r, q)),
         (q: Export) => q)
  }

  /** So the claim loop settles every export request, with all its fields. */
  lemma ExportsAreCoherent(q: Export)
    ensures Coherent(ExportKind(), q)
    ensures forall r :: Settled(ExportKind(), r, q) <==> r == q
  {
    forall r { PatchReconciles(r, q); }
    PatchReconciles(q, q);
  }

  method ClaimNFSExport(reg: Registry<Export>, desired: Export) returns (r: Claimed<Export>)
    requires reg.Valid()
    modifies reg
    ensures reg.Valid()
    ensures r.Success? ==>
            r.value == desired && desired.exportPath in reg.store && reg.store[desired.exportPath].value == desired
    ensures old(reg.replies) <= reg.replies && (r.Error? ==> GaveUp(reg.replies[|old(reg.replies)|..]))
    ensures forall i | |old(reg.hits)| <= i < |reg.hits| ::
              reg.hits[i].description == desired.description && reg.hits[i].fsPath == desired.fsPath
    ensures reg.quiet && desired.exportPath in old(reg.store) && old(reg.store)[desired.exportPath].value == desired ==>
              r == Success(desired) && reg.store == old(reg.store) && reg.hits == old(reg.hits)
                  && reg.posts == old(reg.posts)
    // Undisturbed: a free name is taken, an own export that differs is patched, any other is left alone.
    ensures reg.quiet && desired.exportPath !in old(reg.store) ==>
              && r == Success(desired) && reg.posts == old(reg.posts) + 1 && reg.hits == old(reg.hits)
              && reg.store == old(reg.store)[desired.exportPath := Entry(desired, old(reg.next))]
    ensures reg.quiet && desired.exportPath in old(reg.store) ==>
              var before := old(reg.store)[desired.exportPath].value;
              && reg.posts == old(reg.posts)
              && (before.description == desired.description && before.fsPath == desired.fsPath && before != desired ==>
                    && r == Success(desired) && reg.hits == old(reg.hits) + [before]
                    && reg.store == old(reg.store)[desired.exportPath := Entry(desired, old(reg.next))])
              && (before.description != desired.description ==>
                    r == Conflict && reg.store == old(reg.store) && reg.hits == old(reg.hits))
              && (before.description == desired.description && before.fsPath != desired.fsPath ==>
                    r == Retargeted && reg.store == old(reg.store) && reg.hits == old(reg.hits))
  {
    ExportsAreCoherent(desired);
    r := Claim(reg, ExportKind(), desired.exportPath, desired);
    hide Coherent, Settled;
    if r.Success? { assert Settled(ExportKind(), r.value, desired); }
  }
}
