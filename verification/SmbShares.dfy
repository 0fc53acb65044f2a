/** SMB shares: comparing with and patching towards a request, when Core fills in what a request leaves
    out: the other identifiers of a trustee, and default modes. */
module SmbShares {
  import opened StrictClaim
  import opened Text
  import opened Wrappers

  datatype Identity = Identity(domain: string, authId: string, uid: Option<int>, gid: Option<int>, sid: string,
      name: string)

  datatype Permission = Permission(kind: string, trustee: Identity, rights: seq<string>)
  datatype NetworkPermission = NetworkPermission(kind: string, ranges: seq<string>, rights: seq<string>)

  datatype Share = Share(
    name: string, fsPath: string, description: string, permissions: seq<Permission>, network: seq<NetworkPermission>,
    accessBased: bool, fileMode: string, directoryMode: string, bytesPerSector: string, encrypted: bool)

  datatype Patch = Patch(
    name: Option<string>, description: Option<string>,
    permissions: Option<seq<Permission>>, network: Option<seq<NetworkPermission>>,
    accessBased: Option<bool>, fileMode: Option<string>, directoryMode: Option<string>, bytesPerSector: Option<string>,
    encrypted: Option<bool>)

  // ---------------------------------------------------------------- comparison

  predicate SmbModeEqual(current: string, desired: string, byDefault: string) {
    if desired == "" then current == "" || current == byDefault else current == desired
  }

  /** Trustees match on the strongest identifier the request gives. */
  predicate SmbTrusteeMatches(desired: Identity, current: Identity) {
    if desired.authId != "" then desired.authId == current.authId
    else if desired.sid != "" then desired.sid == current.sid
    else if desired.uid.Some? then desired.uid == current.uid
    else if desired.name != "" then
      EqualFold(desired.name, current.name) && (desired.domain == "" || EqualFold(desired.domain, current.domain))
    else desired == current
  }

  predicate PermissionMatches(d: Permission, c: Permission) {
    d.kind == c.kind && SmbTrusteeMatches(d.trustee, c.trustee) && d.rights == c.rights
  }

  predicate PermissionsMatch(desired: seq<Permission>, current: seq<Permission>) {
    |desired| == |current| && forall i | 0 <= i < |desired| :: PermissionMatches(desired[i], current[i])
  }

  method EqualSMBSharePermissions(desired: seq<Permission>, current: seq<Permission>) returns (same: bool)
    ensures same <==> PermissionsMatch(desired, current)
  {
    if |desired| != |current| { return false; }
    for i := 0 to |desired|
      invariant forall j | 0 <= j < i :: PermissionMatches(desired[j], current[j])
    {
      if desired[i].kind != current[i].kind || !SmbTrusteeMatches(desired[i].trustee, current[i].trustee)
         || desired[i].rights != current[i].rights {
        return false;
      }
    }
    return true;
  }

  function SmbSharePatch(current: Share, desired: Share): Patch {
    Patch(if current.name != desired.name then Some(desired.name) else None,
          if current.description != desired.description then Some(desired.description) else None,
          if !PermissionsMatch(desired.permissions, current.permissions) then Some(desired.permissions) else None,
          if current.network != desired.network then Some(desired.network) else None,
          if current.accessBased != desired.accessBased then Some(desired.accessBased) else None,
          if !SmbModeEqual(current.fileMode, desired.fileMode, "0644") then Some(desired.fileMode) else None,
          if !SmbModeEqual(current.directoryMode, desired.directoryMode, "0755") then Some(desired.directoryMode)
              else None,
          if !SmbModeEqual(current.bytesPerSector, desired.bytesPerSector, "512") then Some(desired.bytesPerSector)
              else None,
          if current.encrypted != desired.encrypted then Some(desired.encrypted) else None)
  }

  predicate Changed(p: Patch) {
    p.name.Some? || p.description.Some? || p.permissions.Some? || p.network.Some? || p.accessBased.Some?
    || p.fileMode.Some? || p.directoryMode.Some? || p.bytesPerSector.Some? || p.encrypted.Some?
  }

  // ---------------------------------------------------------------- Core's side

  type Canonical = Identity -> Identity

  /** Core keeps what a trustee names, up to the case of names, and fills in the rest. */
  ghost predicate Fills(canon: Canonical) {
    forall t: Identity ::
      && (t.authId != "" ==> canon(t).authId == t.authId) && (t.sid != "" ==> canon(t).sid == t.sid)
      && (t.uid.Some? ==> canon(t).uid == t.uid)
      && (t.name != "" ==> EqualFold(t.name, canon(t).name))
      && (t.name != "" && t.domain != "" ==> EqualFold(t.domain, canon(t).domain))
  }

  function StoredPermissions(ps: seq<Permission>, canon: Canonical): (r: seq<Permission>)
    ensures |r| == |ps|
    ensures forall i | 0 <= i < |ps| :: r[i] == Permission(ps[i].kind, canon(ps[i].trustee), ps[i].rights)
  {
    seq(|ps|, i requires 0 <= i < |ps| => Permission(ps[i].kind, canon(ps[i].trustee), ps[i].rights))
  }

  function StoredMode(mode: string, byDefault: string): string {
    if mode == "" then byDefault else mode
  }

  function Applied(current: Share, p: Patch, canon: Canonical): Share {
    Share(if p.name.Some? then p.name.value else current.name, current.fsPath,
          if p.description.Some? then p.description.value else current.description,
          if p.permissions.Some? then StoredPermissions(p.permissions.value, canon) else current.permissions,
          if p.network.Some? then p.network.value else current.network,
          if p.accessBased.Some? then p.accessBased.value else current.accessBased,
          if p.fileMode.Some? then StoredMode(p.fileMode.value, "0644") else current.fileMode,
          if p.directoryMode.Some? then StoredMode(p.directoryMode.value, "0755") else current.directoryMode,
          if p.bytesPerSector.Some? then StoredMode(p.bytesPerSector.value, "512") else current.bytesPerSector,
          if p.encrypted.Some? then p.encrypted.value else current.encrypted)
  }

  function CreatedFrom(q: Share, canon: Canonical): Share {
    q.(permissions := StoredPermissions(q.permissions, canon), fileMode := StoredMode(q.fileMode, "0644"),
       directoryMode := StoredMode(q.directoryMode, "0755"), bytesPerSector := StoredMode(q.bytesPerSector, "512"))
  }

  // ---------------------------------------------------------------- convergence

  predicate Identified(t: Identity) {
    t.authId != "" || t.sid != "" || t.uid.Some? || t.name != ""
  }

  lemma TrusteeSurvivesIff(t: Identity, canon: Canonical)
    requires Fills(canon)
    ensures SmbTrusteeMatches(t, canon(t)) <==> Identified(t) || canon(t) == t
  {
    hide EqualFold;
  }

  /** Every trustee of the request is recognisable in what Core stores for it. */
  predicate Recognisable(ps: seq<Permission>, canon: Canonical) {
    forall p <- ps :: Identified(p.trustee) || canon(p.trustee) == p.trustee
  }

  lemma StoredMatchIff(ps: seq<Permission>, canon: Canonical)
    requires Fills(canon)
    ensures PermissionsMatch(ps, StoredPermissions(ps, canon)) <==> Recognisable(ps, canon)
  {
    forall t { TrusteeSurvivesIff(t, canon); }
    hide SmbTrusteeMatches, Identified, Fills;
    var r := StoredPermissions(ps, canon);
    if PermissionsMatch(ps, r) {
      forall p | p in ps ensures Identified(p.trustee) || canon(p.trustee) == p.trustee {
        var i :| 0 <= i < |ps| && ps[i] == p;
        assert PermissionMatches(ps[i], r[i]);
      }
    }
  }

  lemma StoredModeEqual(current: string, mode: string, byDefault: string)
    requires byDefault != ""
    ensures SmbModeEqual(if SmbModeEqual(current, mode, byDefault) then current
            else StoredMode(mode, byDefault), mode, byDefault)
    ensures SmbModeEqual(StoredMode(mode, byDefault), mode, byDefault)
  {
  }

  /** Applying the computed patch leaves nothing to patch exactly when the permissions already matched or
      every trustee of the request is recognisable. */
  lemma NextDiffIsEmptyIff(current: Share, desired: Share, canon: Canonical)
    requires Fills(canon)
    ensures !Changed(SmbSharePatch(Applied(current, SmbSharePatch(current, desired), canon), desired))
            <==> PermissionsMatch(desired.permissions, current.permissions) || Recognisable(desired.permissions, canon)
  {
    StoredMatchIff(desired.permissions, canon);
    StoredModeEqual(current.fileMode, desired.fileMode, "0644");
    StoredModeEqual(current.directoryMode, desired.directoryMode, "0755");
    StoredModeEqual(current.bytesPerSector, desired.bytesPerSector, "512");
    hide SmbModeEqual, StoredMode, PermissionsMatch, Recognisable, StoredPermissions, Fills;
  }

  function ShareKind(canon: Canonical): Kind<Share, Share> {
    Kind((r: Share) => r.description, (r: Share) => r.fsPath, (q: Share) => q.description, (q: Share) => q.fsPath,
         (r: Share, q: Share) => Changed(SmbSharePatch(r, q)),
         (r: Share, q: Share) => Applied(r, SmbSharePatch(r, q), canon), (q: Share) => CreatedFrom(q, canon))
  }

  /** So the claim loop settles every share request whose trustees are recognisable. */
  lemma SharesAreCoherent(q: Share, canon: Canonical)
    requires Fills(canon) && Recognisable(q.permissions, canon)
    ensures Coherent(ShareKind(canon), q)
  {
    forall r { NextDiffIsEmptyIff(r, q, canon); }
    CreatedSettles(q, canon);
    hide SmbSharePatch, Applied, CreatedFrom, Recognisable, PermissionsMatch, Fills, Changed;
  }

  lemma CreatedSettles(q: Share, canon: Canonical)
    requires Fills(canon) && Recognisable(q.permissions, canon)
    ensures Settled(ShareKind(canon), CreatedFrom(q, canon), q)
  {
    StoredMatchIff(q.permissions, canon);
    StoredModeEqual("", q.fileMode, "0644");
    StoredModeEqual("", q.directoryMode, "0755");
    StoredModeEqual("", q.bytesPerSector, "512");
    hide SmbModeEqual, StoredMode, PermissionsMatch, Recognisable, StoredPermissions, Fills;
  }

  /** All but the permissions are as requested, up to defaults. */
  predicate RestAsRequested(r: Share, q: Share) {
    && r == q.(permissions := r.permissions, fileMode := r.fileMode, directoryMode := r.directoryMode,
        bytesPerSector := r.bytesPerSector)
    && SmbModeEqual(r.fileMode, q.fileMode, "0644")
    && SmbModeEqual(r.directoryMode, q.directoryMode, "0755") && SmbModeEqual(r.bytesPerSector, q.bytesPerSector, "512")
  }

  /** The share is as requested: equal but for the trustees' other identifiers and for defaults. */
  predicate AsRequested(r: Share, q: Share) {
    RestAsRequested(r, q) && PermissionsMatch(q.permissions, r.permissions)
  }

  /** What that means field by field: a trustee is the requested one by the first identifier the request gives,
      and only an empty mode or sector size may be the default instead. */
  lemma AsRequestedIff(r: Share, q: Share)
    ensures AsRequested(r, q) <==>
              && r.name == q.name && r.fsPath == q.fsPath && r.description == q.description
              && r.network == q.network && r.accessBased == q.accessBased && r.encrypted == q.encrypted
              && (r.fileMode == q.fileMode || (q.fileMode == "" && r.fileMode == "0644"))
              && (r.directoryMode == q.directoryMode || (q.directoryMode == "" && r.directoryMode == "0755"))
              && (r.bytesPerSector == q.bytesPerSector || (q.bytesPerSector == "" && r.bytesPerSector == "512"))
              && |r.permissions| == |q.permissions|
              && forall i | 0 <= i < |q.permissions| ::
                   && r.permissions[i].kind == q.permissions[i].kind
                   && r.permissions[i].rights == q.permissions[i].rights
                   && SameTrustee(q.permissions[i].trustee, r.permissions[i].trustee)
  {
    hide EqualFold;
    forall i | 0 <= i < |q.permissions| && |r.permissions| == |q.permissions|
      ensures PermissionMatches(q.permissions[i], r.permissions[i]) <==>
                && r.permissions[i].kind == q.permissions[i].kind && r.permissions[i].rights == q.permissions[i].rights
                && SameTrustee(q.permissions[i].trustee, r.permissions[i].trustee) {
    }
    hide PermissionMatches, SameTrustee;
  }

  /** The current trustee agrees in the first identifier the desired one gives: auth id, SID, UID or name,
      and in everything if it gives none of them. */
  predicate SameTrustee(desired: Identity, current: Identity) {
    && (desired.authId != "" ==> current.authId == desired.authId)
    && (desired.authId == "" && desired.sid != "" ==> current.sid == desired.sid)
    && (desired.authId == "" && desired.sid == "" && desired.uid.Some? ==> current.uid == desired.uid)
    && (desired.authId == "" && desired.sid == "" && desired.uid.None? && desired.name != "" ==>
          EqualFold(desired.name, current.name) && (desired.domain != "" ==> EqualFold(desired.domain, current.domain)))
    && (desired.authId == "" && desired.sid == "" && desired.uid.None? && desired.name == "" ==> current == desired)
  }

  /** Whatever a claim of any request ends with, Core has been told all of it: only the permissions may
      look different, and then they are what Core stores for the requested ones. */
  lemma ReachedIsTold(r: Share, q: Share, canon: Canonical)
    requires Reached(ShareKind(canon), r, q)
    ensures RestAsRequested(r, q)
    ensures PermissionsMatch(q.permissions, r.permissions) || r.permissions == StoredPermissions(q.permissions, canon)
  {
    hide PermissionsMatch, StoredPermissions;
    if r0 :| Own(ShareKind(canon), r0, q) && r == Applied(r0, SmbSharePatch(r0, q), canon) {
      StoredModeEqual(r0.fileMode, q.fileMode, "0644");
      StoredModeEqual(r0.directoryMode, q.directoryMode, "0755");
      StoredModeEqual(r0.bytesPerSector, q.bytesPerSector, "512");
      hide SmbModeEqual, StoredMode;
    } else if r == CreatedFrom(q, canon) {
      StoredModeEqual("", q.fileMode, "0644");
      StoredModeEqual("", q.directoryMode, "0755");
      StoredModeEqual("", q.bytesPerSector, "512");
      hide SmbModeEqual, StoredMode;
    } else {
      SettledIsAsRequested(r, q, canon);
    }
  }

  lemma SettledIsAsRequested(r: Share, q: Share, canon: Canonical)
    ensures Settled(ShareKind(canon), r, q) <==> AsRequested(r, q)
  {
    hide SmbModeEqual, PermissionsMatch;
  }

  /** The strict claim of any share request. */
  method ClaimSMBShare(reg: Registry<Share>, desired: Share, canon: Canonical) returns (r: Claimed<Share>)
    requires reg.Valid()
    modifies reg
    ensures reg.Valid()
    ensures r.Success? ==>
            desired.name in reg.store && reg.store[desired.name].value == r.value
                && RestAsRequested(r.value, desired)
    ensures r.Success? ==> PermissionsMatch(desired.permissions, r.value.permissions)
                           || r.value.permissions == StoredPermissions(desired.permissions, canon)
    ensures r.Success? && Fills(canon) && Recognisable(desired.permissions, canon) ==> AsRequested(r.value, desired)
    ensures old(reg.replies) <= reg.replies && (r.Error? ==> GaveUp(reg.replies[|old(reg.replies)|..]))
    ensures forall i | |old(reg.hits)| <= i < |reg.hits| ::
              reg.hits[i].description == desired.description && reg.hits[i].fsPath == desired.fsPath
    ensures reg.quiet && desired.name in old(reg.store) && AsRequested(old(reg.store)[desired.name].value, desired) ==>
              r.Success? && reg.store == old(reg.store) && reg.hits == old(reg.hits) && reg.posts == old(reg.posts)
    // Undisturbed: a free name is taken, an own share that differs is patched, any other is left alone.
    ensures reg.quiet && desired.name !in old(reg.store) ==>
              && r.Success? && reg.posts == old(reg.posts) + 1 && reg.hits == old(reg.hits)
              && reg.store == old(reg.store)[desired.name := Entry(r.value, old(reg.next))]
    ensures reg.quiet && desired.name in old(reg.store) ==>
              var before := old(reg.store)[desired.name].value;
              && reg.posts == old(reg.posts)
              && (before.description == desired.description && before.fsPath == desired.fsPath
                  && !AsRequested(before, desired) ==>
                    && r.Success? && reg.hits == old(reg.hits) + [before]
                    && reg.store == old(reg.store)[desired.name := Entry(r.value, old(reg.next))])
              && (before.description != desired.description ==>
                    r == Conflict && reg.store == old(reg.store) && reg.hits == old(reg.hits))
              && (before.description == desired.description && before.fsPath != desired.fsPath ==>
                    r == Retargeted && reg.store == old(reg.store) && reg.hits == old(reg.hits))
  {
    if desired.name in reg.store { SettledIsAsRequested(reg.store[desired.name].value, desired, canon); }
    if Fills(canon) && Recognisable(desired.permissions, canon) { SharesAreCoherent(desired, canon); }
    hide Fills, Recognisable, AsRequested, RestAsRequested, PermissionsMatch, Coherent, Reached;
    r := Claim(reg, ShareKind(canon), desired.name, desired);
    if r.Success? {
      ReachedIsTold(r.value, desired, canon);
      SettledIsAsRequested(r.value, desired, canon);
    }
    hide Settled;
  }

  // ---------------------------------------------------------------- a request that never settles

  /** The share after `n` claims that nobody disturbed. */
  function AfterClaims(q: Share, canon: Canonical, n: nat): Share {
    if n == 0 then CreatedFrom(q, canon)
    else var before := AfterClaims(q, canon, n - 1); Applied(before, SmbSharePatch(before, q), canon)
  }

  /** With an unrecognisable trustee every further claim finds something to patch. */
  lemma {:induction false} PatchedForEver(q: Share, canon: Canonical, n: nat)
    requires Fills(canon) && !Recognisable(q.permissions, canon)
    ensures AfterClaims(q, canon, n).permissions == StoredPermissions(q.permissions, canon)
    ensures Changed(SmbSharePatch(AfterClaims(q, canon, n), q))
  {
    StoredMatchIff(q.permissions, canon);
    if n > 0 { PatchedForEver(q, canon, n - 1); }
    hide Fills, Recognisable, PermissionsMatch, StoredPermissions;
  }

  const GROUP := Identity("", "", None, Some(100), "", "")
  const GROUP_SHARE := Share("s", "/s", "", [Permission("ALLOWED", GROUP, [])], [], false, "", "", "", false)

  /** Core gives the group its auth id and leaves everyone else alone. */
  function FillsGroup(): Canonical {
    (t: Identity) => if t == GROUP then t.(authId := "500") else t
  }

  /** One such request: its only trustee is a group given by its gid. */
  lemma GroupShareNeverSettles(n: nat)
    ensures Fills(FillsGroup()) && !Recognisable(GROUP_SHARE.permissions, FillsGroup())
    ensures Changed(SmbSharePatch(AfterClaims(GROUP_SHARE, FillsGroup(), n), GROUP_SHARE))
  {
    assert GROUP_SHARE.permissions[0].trustee == GROUP;
    assert forall t: string :: EqualFold(t, t);
    PatchedForEver(GROUP_SHARE, FillsGroup(), n);
  }
}
