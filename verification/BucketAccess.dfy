/** Granting and revoking access to a bucket.

    `Granted` and `Revoked` are what a successful call does to the cluster. Each driver method is
    proved against them for every pattern of failures: on success it has exactly that effect, and
    after a failure anywhere a retry still ends in the same state as an uninterrupted call. */
module BucketAccess {
  import P = PolicyStatements
  import A = AclGrants
  import opened S3Cluster
  import opened Wrappers
  import opened Text

  const USER_PREFIX := "cosi-"

  predicate IsDriverUser(name: string) {
    && |name| >= 5 && name[..5] == USER_PREFIX
    && (|name| == 37 || |name| == 17)
    && forall i | 5 <= i < |name| :: IsHex(name[i])
  }

  function PolicySid(username: string): string { USER_PREFIX + username }

  /** The bucket and its root are still the ones the handle was made for. */
  predicate RootVerified(s: S3, b: BucketHandle) {
    && b.root != "" && b.fileId != ""
    && b.name in s.buckets && s.buckets[b.name] != "" && PathsMatch(s.buckets[b.name], b.root)
    && FileAt(s, s.buckets[b.name]) == Some(b.fileId)
  }

  predicate AclTarget(s: S3, b: BucketHandle) {
    FileAt(s, b.root) == Some(b.fileId)
  }

  predicate PolicyTarget(s: S3, b: BucketHandle) {
    b.name in s.buckets && PathsMatch(s.buckets[b.name], b.root) && AclTarget(s, b)
  }

  /** Which targets are verified depends on buckets and directories alone. */
  lemma SameTargets(s: S3, t: S3, b: BucketHandle)
    requires s.buckets == t.buckets && s.files == t.files
    ensures RootVerified(s, b) <==> RootVerified(t, b)
    ensures PolicyTarget(s, b) <==> PolicyTarget(t, b)
    ensures AclTarget(s, b) <==> AclTarget(t, b)
  {
  }

  // ---------------------------------------------------------------- effects

  type Policies = map<string, P.Policy>
  type Acls = map<FileId, seq<A.Ace>>
  type Users = map<string, AuthId>
  type Keys = map<KeyId, AuthId>

  function Mutated(ps: Policies, bucket: string, op: P.Op): Policies {
    ps[bucket := P.Apply(op, PolicyOf(ps, bucket))]
  }

  /** Nothing is written when the ACL already is as wanted. */
  function Reconciled(acls: Acls, f: FileId, op: A.Op): Acls {
    if A.Settled(op, AclOf(acls, f)) then acls else acls[f := A.Apply(op, AclOf(acls, f))]
  }

  function WithoutUser(users: Users, id: AuthId): Users {
    map n | n in users && users[n] != id :: users[n]
  }

  /** The live user of that name still is the account's identity, and was minted by the driver. */
  predicate IsTarget(users: Users, a: Account) {
    a.username in users && users[a.username] == a.authId && IsDriverUser(a.username)
  }

  function RemoveOp(a: Account): P.Op { P.Remove(PolicySid(a.username), a.authId) }

  function RevokedPolicies(ps: Policies, target: bool, bucket: string, a: Account): Policies {
    if target then Mutated(ps, bucket, RemoveOp(a)) else ps
  }

  function RevokedAcls(acls: Acls, target: bool, f: FileId, id: AuthId): Acls {
    if target then Reconciled(acls, f, A.Revoke(id)) else acls
  }

  function RevokedUsers(users: Users, a: Account): Users {
    if IsTarget(users, a) then WithoutUser(users, a.authId) else users
  }

  /** What a successful revoke leaves. */
  function Revoked(s: S3, b: BucketHandle, a: Account): S3 {
    s.(keys := s.keys - Owned(s.keys, a.authId),
       policies := RevokedPolicies(s.policies, PolicyTarget(s, b), b.name, a),
       acls := RevokedAcls(s.acls, AclTarget(s, b), b.fileId, a.authId),
       users := RevokedUsers(s.users, a))
  }

  function UserId(s: S3, username: string): AuthId {
    if username in s.users then s.users[username] else FreshAuthId(s.nextUser)
  }

  function NextUser(s: S3, username: string): nat {
    if username in s.users then s.nextUser else s.nextUser + 1
  }

  /** What a successful grant leaves; nothing if the root is not the recorded one. */
  function Granted(s: S3, b: BucketHandle, username: string, actions: seq<string>, readOnly: bool): S3 {
    if RootVerified(s, b) then GrantedAs(s, b, username, UserId(s, username), actions, readOnly) else s
  }

  function GrantedAs(s: S3, b: BucketHandle, username: string, id: AuthId, actions: seq<string>, readOnly: bool): S3 {
    s.(users := s.users[username := id],
       nextUser := NextUser(s, username),
       keys := (s.keys - Owned(s.keys, id))[s.nextKey := id],
       nextKey := s.nextKey + 1,
       policies := Mutated(s.policies, b.name, UpsertOp(username, id, actions)),
       acls := Reconciled(s.acls, b.fileId, A.Grant(id, readOnly)))
  }

  function UpsertOp(username: string, id: AuthId, actions: seq<string>): P.Op {
    P.Upsert(PolicySid(username), id, actions)
  }

  // ---------------------------------------------------------------- revoking

  lemma KeysRemovedTwice(keys: Keys, id: AuthId, ks: set<KeyId>)
    requires ks <= Owned(keys, id)
    ensures (keys - ks) - Owned(keys - ks, id) == keys - Owned(keys, id)
  {
  }

  lemma RemoveMutatedTwice(ps: Policies, bucket: string, a: Account)
    ensures Mutated(Mutated(ps, bucket, RemoveOp(a)), bucket, RemoveOp(a)) == Mutated(ps, bucket, RemoveOp(a))
  {
    P.RemovedTwice(PolicyOf(ps, bucket).statements, PolicySid(a.username), a.authId);
  }

  lemma RevokeReconciledTwice(acls: Acls, f: FileId, id: AuthId)
    ensures Reconciled(Reconciled(acls, f, A.Revoke(id)), f, A.Revoke(id)) == Reconciled(acls, f, A.Revoke(id))
  {
    A.WithoutTwice(AclOf(acls, f), id, id);
  }

  /** Whatever part of a revoke already happened, revoking again ends in the same state. */
  lemma RevokedAfterPart(s: S3, t: S3, b: BucketHandle, a: Account, ks: set<KeyId>)
    requires ks <= Owned(s.keys, a.authId)
    requires t == s.(keys := t.keys, policies := t.policies, acls := t.acls, users := t.users)
    requires t.keys == s.keys - ks
    requires t.policies == s.policies || (PolicyTarget(s, b) && t.policies == Mutated(s.policies, b.name, RemoveOp(a)))
    requires t.acls == s.acls || (AclTarget(s, b) && t.acls == Reconciled(s.acls, b.fileId, A.Revoke(a.authId)))
    requires t.users == s.users || (IsTarget(s.users, a) && t.users == WithoutUser(s.users, a.authId))
    ensures Revoked(t, b, a) == Revoked(s, b, a)
  {
    KeysRemovedTwice(s.keys, a.authId, ks);
    RemoveMutatedTwice(s.policies, b.name, a);
    RevokeReconciledTwice(s.acls, b.fileId, a.authId);
    hide Mutated, Reconciled, Owned, IsDriverUser;
  }

  method DeleteKeys(c: Cluster, ks: set<KeyId>) returns (ok: bool)
    modifies c
    ensures exists done | done <= ks :: c.s == old(c.s).(keys := old(c.s).keys - done) && (ok ==> done == ks)
    ensures !ok ==> c.faulty
  {
    ghost var s0 := c.s;
    var todo := ks;
    assert s0.keys - (ks - todo) == s0.keys;
    while todo != {}
      invariant todo <= ks && c.s == s0.(keys := s0.keys - (ks - todo))
      decreases |todo|
    {
      var k :| k in todo;
      assert (s0.keys - (ks - todo)) - {k} == s0.keys - (ks - (todo - {k}));
      ok := c.Send(c.s.(keys := c.s.keys - {k}));
      if !ok {
        ghost var done := if c.s == s0.(keys := s0.keys - (ks - todo)) then ks - todo else ks - (todo - {k});
        assert done <= ks && c.s == s0.(keys := s0.keys - done);
        return false;
      }
      todo := todo - {k};
    }
    assert ks - todo == ks;
    return true;
  }

  /** The revoke RPC for a handle and account that carry immutable identities. A failure anywhere leaves
      a state from which revoking again ends exactly where an uninterrupted revoke would have. */
  method RevokeBucketAccess(c: Cluster, b: BucketHandle, a: Account) returns (ok: bool)
    modifies c
    ensures ok ==> c.s == Revoked(old(c.s), b, a)
    ensures ok && InPlace(old(c.s), b) ==> LostBucket(c.s, b, a)
    ensures !ok ==> c.faulty && Revoked(c.s, b, a) == Revoked(old(c.s), b, a)
  {
    ghost var s0 := c.s;
    hide Mutated, Reconciled, WithoutUser, IsDriverUser, InPlace, LostBucket;
    if InPlace(s0, b) { RevokeTakesBucket(s0, b, a); }
    var fault := c.Fault();
    if fault { return false; }
    var target := IsTarget(c.s.users, a);

    fault := c.Fault();
    if fault { return false; }
    ok := DeleteKeys(c, Owned(c.s.keys, a.authId));
    ghost var ks :| ks <= Owned(s0.keys, a.authId) && c.s == s0.(keys := s0.keys - ks)
        && (ok ==> ks == Owned(s0.keys, a.authId));
    RevokedAfterPart(s0, c.s, b, a, ks);
    if !ok { return false; }

    fault := c.Fault();
    if fault { return false; }
    var policyTarget, aclTarget := PolicyTarget(c.s, b), AclTarget(c.s, b);
    if policyTarget {
      ok := c.Send(c.s.(policies := Mutated(c.s.policies, b.name, RemoveOp(a))));
      RevokedAfterPart(s0, c.s, b, a, ks);
      if !ok { return false; }
    }
    if aclTarget {
      ok := c.Send(c.s.(acls := Reconciled(c.s.acls, b.fileId, A.Revoke(a.authId))));
      RevokedAfterPart(s0, c.s, b, a, ks);
      if !ok { return false; }
    }
    if target {
      ok := c.Send(c.s.(users := WithoutUser(c.s.users, a.authId)));
      RevokedAfterPart(s0, c.s, b, a, ks);
      if !ok { return false; }
    }
    return true;
  }

  // ---------------------------------------------------------------- what a revoke removes and spares

  lemma {:induction false} NoneDoomed(ss: seq<P.Statement>, sid: string, a: AuthId)
    ensures forall st <- P.Removed(ss, sid, a) :: !P.Doomed(st, sid, a)
  {
    if ss != [] { NoneDoomed(ss[1..], sid, a); }
  }

  lemma MutatedStatements(ps: Policies, bucket: string, a: Account, st: P.Statement)
    ensures var before := PolicyOf(ps, bucket).statements;
            var after := PolicyOf(Mutated(ps, bucket, RemoveOp(a)), bucket).statements;
            var sid := PolicySid(a.username);
            && (forall x <- P.OfSid(after, sid) :: !P.Doomed(x, sid, a.authId))
            && P.OtherSids(after, sid) == P.OtherSids(before, sid)
            && (P.OfSid(before, sid) == [st] && !P.Doomed(st, sid, a.authId) ==> P.OfSid(after, sid) == [st])
  {
    var ss := PolicyOf(ps, bucket).statements;
    P.RemovedParts(ss, PolicySid(a.username), a.authId, PolicySid(a.username));
    NoneDoomed(P.OfSid(ss, PolicySid(a.username)), PolicySid(a.username), a.authId);
  }

  lemma ReconciledEntries(acls: Acls, f: FileId, id: AuthId, g: FileId, other: AuthId)
    ensures var after := Reconciled(acls, f, A.Revoke(id));
            && A.Of(AclOf(after, f), id) == []
            && A.Without(AclOf(after, g), id) == A.Without(AclOf(acls, g), id)
            && (other != id ==> A.Of(AclOf(after, g), other) == A.Of(AclOf(acls, g), other))
  {
    A.OfWithout(AclOf(acls, f), id, id);
    A.OfWithout(AclOf(acls, f), id, other);
    A.WithoutNobody(AclOf(acls, f), id);
    A.WithoutTwice(AclOf(acls, f), id, id);
  }

  /** A revoke removes exactly its auth id's keys, statement, access entries and user. */
  lemma RevokeIsExact(s: S3, b: BucketHandle, a: Account, other: AuthId, f: FileId)
    requires PolicyTarget(s, b) && IsTarget(s.users, a) && other != a.authId
    ensures var t := Revoked(s, b, a);
            var before, after := PolicyOf(s.policies, b.name).statements, PolicyOf(t.policies, b.name).statements;
            var sid := PolicySid(a.username);
            && Owned(t.keys, a.authId) == {} && Owned(t.keys, other) == Owned(s.keys, other)
            && (forall st <- P.OfSid(after, sid) :: !P.Doomed(st, sid, a.authId))
            && P.OtherSids(after, sid) == P.OtherSids(before, sid)
            && A.Of(AclOf(t.acls, b.fileId), a.authId) == []
            && A.Without(AclOf(t.acls, f), a.authId) == A.Without(AclOf(s.acls, f), a.authId)
            && a.username !in t.users
            && (forall n <- s.users :: s.users[n] != a.authId ==> n in t.users && t.users[n] == s.users[n])
  {
    MutatedStatements(s.policies, b.name, a, P.Granted("", "", []));
    ReconciledEntries(s.acls, b.fileId, a.authId, f, other);
    hide Mutated, Reconciled, IsDriverUser;
  }

  /** A delayed revoke for an identity that a new user of the same name has replaced leaves the new
      user, its keys, its statement and its access entries as they were. */
  lemma StaleRevokeSparesReplacement(s: S3, b: BucketHandle, stale: Account, f: FileId, st: P.Statement)
    requires stale.username in s.users && s.users[stale.username] != stale.authId && stale.authId != ""
    requires P.OfSid(PolicyOf(s.policies, b.name).statements, PolicySid(stale.username)) == [st]
    requires st.principal == P.Principal(s.users[stale.username])
    ensures var t := Revoked(s, b, stale);
            var id := s.users[stale.username];
            && t.users == s.users && Owned(t.keys, id) == Owned(s.keys, id)
            && P.OfSid(PolicyOf(t.policies, b.name).statements, PolicySid(stale.username)) == [st]
            && A.Of(AclOf(t.acls, f), id) == A.Of(AclOf(s.acls, f), id)
  {
    var id := s.users[stale.username];
    PrincipalIsExact(id, stale.authId);
    MutatedStatements(s.policies, b.name, stale, st);
    ReconciledEntries(s.acls, b.fileId, stale.authId, f, id);
    hide Mutated, Reconciled, IsDriverUser;
  }

  lemma PrincipalIsExact(id: AuthId, other: AuthId)
    ensures P.PrincipalHas(P.Principal(id), other) <==> id == other
  {
    assert ("auth_id:" + id)[8..] == id && ("auth_id:" + other)[8..] == other;
  }

  // ---------------------------------------------------------------- granting

  lemma UpsertMutatedTwice(ps: Policies, bucket: string, username: string, id: AuthId, actions: seq<string>)
    ensures var op := UpsertOp(username, id, actions);
            Mutated(Mutated(ps, bucket, op), bucket, op) == Mutated(ps, bucket, op)
  {
    P.UpsertedTwice(PolicyOf(ps, bucket).statements, P.Granted(PolicySid(username), id, actions));
  }

  lemma GrantReconciledTwice(acls: Acls, f: FileId, id: AuthId, readOnly: bool)
    ensures var op := A.Grant(id, readOnly);
            Reconciled(Reconciled(acls, f, op), f, op) == Reconciled(acls, f, op)
  {
    A.ApplySettles(A.Grant(id, readOnly), AclOf(acls, f));
    hide A.Apply, A.Settled;
  }

  /** Equal but for which single access key `id` owns: secrets cannot be read back, so every grant mints one. */
  ghost predicate SameButKey(x: S3, y: S3, id: AuthId) {
    && x == y.(keys := x.keys, nextKey := x.nextKey)
    && x.keys - Owned(x.keys, id) == y.keys - Owned(y.keys, id)
    && (exists k :: Owned(x.keys, id) == {k}) && (exists k :: Owned(y.keys, id) == {k})
  }

  /** `t` is reached from `s` by some of a grant's writes, with any of the account's keys left or gone. */
  ghost predicate PartlyGranted(s: S3, t: S3, b: BucketHandle, username: string, actions: seq<string>, readOnly: bool) {
    var id := UserId(s, username);
    && t == s.(users := t.users, nextUser := t.nextUser, keys := t.keys, nextKey := t.nextKey,
               policies := t.policies, acls := t.acls)
    && ((t.users == s.users && t.nextUser == s.nextUser)
        || (t.users == s.users[username := id] && t.nextUser == NextUser(s, username)))
    && t.keys - Owned(t.keys, id) == s.keys - Owned(s.keys, id)
    && (t.policies == s.policies || t.policies == Mutated(s.policies, b.name, UpsertOp(username, id, actions)))
    && (t.acls == s.acls || t.acls == Reconciled(s.acls, b.fileId, A.Grant(id, readOnly)))
  }

  lemma PartlyGrantedUser(s: S3, t: S3, b: BucketHandle, username: string, actions: seq<string>, readOnly: bool)
    requires PartlyGranted(s, t, b, username, actions, readOnly)
    ensures var id := UserId(s, username);
            UserId(t, username) == id && t.users[username := id] == s.users[username := id]
            && NextUser(t, username) == NextUser(s, username)
  {
    hide Mutated, Reconciled, Owned;
  }

  /** Whatever part of a grant already happened, granting again ends in the same state. */
  lemma GrantedAfterPart(s: S3, t: S3, b: BucketHandle, username: string, actions: seq<string>, readOnly: bool)
    requires WellFormed(s) && WellFormed(t) && RootVerified(s, b)
    requires PartlyGranted(s, t, b, username, actions, readOnly)
    ensures SameButKey(Granted(t, b, username, actions, readOnly), Granted(s, b, username, actions, readOnly),
            UserId(s, username))
  {
    hide Mutated, Reconciled, Owned, WellFormed, RootVerified, UserId, NextUser;
    var id := UserId(s, username);
    PartlyGrantedUser(s, t, b, username, actions, readOnly);
    SameTargets(s, t, b);
    UpsertMutatedTwice(s.policies, b.name, username, id, actions);
    GrantReconciledTwice(s.acls, b.fileId, id, readOnly);
    GrantedKeys(s, id);
    GrantedKeys(t, id);
    GrantedFields(s, b, username, id, actions, readOnly);
    GrantedFields(t, b, username, id, actions, readOnly);
    hide GrantedAs;
  }

  lemma GrantedKeys(s: S3, id: AuthId)
    requires WellFormed(s)
    ensures var keys := (s.keys - Owned(s.keys, id))[s.nextKey := id];
            Owned(keys, id) == {s.nextKey} && keys - Owned(keys, id) == s.keys - Owned(s.keys, id)
  {
    var keys := (s.keys - Owned(s.keys, id))[s.nextKey := id];
    assert Owned(keys, id) == {s.nextKey};
    assert s.nextKey !in s.keys;
  }

  lemma GrantedStatements(ps: Policies, bucket: string, username: string, id: AuthId, actions: seq<string>)
    ensures var before := PolicyOf(ps, bucket).statements;
            var after := PolicyOf(Mutated(ps, bucket, UpsertOp(username, id, actions)), bucket).statements;
            var sid := PolicySid(username);
            && P.OfSid(after, sid) != [] && P.OfSid(after, sid)[0] == P.Granted(sid, id, actions)
            && P.OtherSids(after, sid) == P.OtherSids(before, sid)
  {
    P.ApplyOnSid(UpsertOp(username, id, actions), PolicyOf(ps, bucket), PolicySid(username));
    P.ApplyKeepsOtherSids(UpsertOp(username, id, actions), PolicyOf(ps, bucket));
    hide P.Apply, PolicySid;
  }

  lemma GrantedEntries(acls: Acls, f: FileId, id: AuthId, readOnly: bool, g: FileId, other: AuthId)
    ensures var after := Reconciled(acls, f, A.Grant(id, readOnly));
            && A.ExactGrant(AclOf(after, f), A.Desired(id, readOnly))
            && (other != id ==> A.Of(AclOf(after, g), other) == A.Of(AclOf(acls, g), other))
  {
    A.ApplySettles(A.Grant(id, readOnly), AclOf(acls, f));
    A.ApplyOnEntries(A.Grant(id, readOnly), AclOf(acls, f), other);
    hide A.Apply, A.ExactGrant;
  }

  /** After a grant the account's identity has exactly the new key, its Sid the new statement and its
      trustee exactly the desired entry; nobody else's keys, statements and entries change. */
  lemma GrantIsExact(s: S3, b: BucketHandle, username: string, actions: seq<string>, readOnly: bool, other: AuthId,
      f: FileId)
    requires WellFormed(s) && RootVerified(s, b) && other != UserId(s, username)
    ensures var id := UserId(s, username);
            var t := Granted(s, b, username, actions, readOnly);
            var before, after := PolicyOf(s.policies, b.name).statements, PolicyOf(t.policies, b.name).statements;
            var sid := PolicySid(username);
            && t.users == s.users[username := id]
            && Owned(t.keys, id) == {s.nextKey} && Owned(t.keys, other) == Owned(s.keys, other)
            && P.OfSid(after, sid) != [] && P.OfSid(after, sid)[0] == P.Granted(sid, id, actions)
            && P.OtherSids(after, sid) == P.OtherSids(before, sid)
            && A.ExactGrant(AclOf(t.acls, b.fileId), A.Desired(id, readOnly))
            && A.Of(AclOf(t.acls, f), other) == A.Of(AclOf(s.acls, f), other)
  {
    var id := UserId(s, username);
    GrantedKeys(s, id);
    OthersKeepKeys(s, id, other);
    hide Mutated, Reconciled, Owned, WellFormed, RootVerified, UserId, NextUser, PolicyOf, AclOf, PolicySid;
    GrantedFields(s, b, username, id, actions, readOnly);
    GrantedStatements(s.policies, b.name, username, id, actions);
    GrantedEntries(s.acls, b.fileId, id, readOnly, f, other);
    hide GrantedAs;
  }

  lemma OthersKeepKeys(s: S3, id: AuthId, other: AuthId)
    requires WellFormed(s) && other != id
    ensures Owned((s.keys - Owned(s.keys, id))[s.nextKey := id], other) == Owned(s.keys, other)
  {
    assert s.nextKey !in s.keys;
  }

  /** The bucket is still registered at the root the handle records, which still is the recorded directory. */
  predicate InPlace(s: S3, b: BucketHandle) {
    && b.name in s.buckets && TrimSlashes(s.buckets[b.name]) == TrimSlashes(b.root)
    && TrimSlashes(b.root) in s.files.dirs && s.files.dirs[TrimSlashes(b.root)] == b.fileId
  }

  /** The account's user is there, a statement allows it the actions, and its entries on the root allow what
      was asked for. */
  predicate HasBucket(s: S3, b: BucketHandle, a: Account, actions: seq<string>, readOnly: bool) {
    && a.username in s.users && s.users[a.username] == a.authId
    && P.Statement("cosi-" + a.username, "Allow", ["auth_id:" + a.authId], actions)
       in PolicyOf(s.policies, b.name).statements
    && A.HasAccess(AclOf(s.acls, b.fileId), a.authId, readOnly)
  }

  /** The account owns no key, no statement of its Sid names it, and the root has no entry for it. */
  predicate LostBucket(s: S3, b: BucketHandle, a: Account) {
    && (forall k <- s.keys :: s.keys[k] != a.authId)
    && (forall st <- PolicyOf(s.policies, b.name).statements ::
          !(st.sid == "cosi-" + a.username && ("auth_id:" + a.authId) in st.principal))
    && A.NoAccess(AclOf(s.acls, b.fileId), a.authId)
  }

  lemma {:induction false} OfSidIs(ss: seq<P.Statement>, sid: string)
    ensures forall st :: st in P.OfSid(ss, sid) <==> st in ss && st.sid == sid
  {
    if ss != [] {
      OfSidIs(ss[1..], sid);
      assert ss == [ss[0]] + ss[1..];
    }
  }

  lemma GrantedStatementAllows(sid: string, id: AuthId, actions: seq<string>)
    ensures P.Granted(sid, id, actions) == P.Statement(sid, "Allow", ["auth_id:" + id], actions)
  {
  }

  lemma GrantedStatementThere(ps: Policies, bucket: string, username: string, id: AuthId, actions: seq<string>)
    ensures P.Statement("cosi-" + username, "Allow", ["auth_id:" + id], actions)
            in PolicyOf(Mutated(ps, bucket, UpsertOp(username, id, actions)), bucket).statements
  {
    var sid := PolicySid(username);
    assert sid == "cosi-" + username;
    GrantedStatements(ps, bucket, username, id, actions);
    GrantedStatementAllows(sid, id, actions);
    var after := PolicyOf(Mutated(ps, bucket, UpsertOp(username, id, actions)), bucket).statements;
    OfSidIs(after, sid);
    hide PolicySid, P.OfSid, P.Granted, Mutated, PolicyOf;
    assert P.OfSid(after, sid)[0] in P.OfSid(after, sid);
  }

  lemma GrantedEntriesAllow(acls: Acls, f: FileId, id: AuthId, readOnly: bool)
    ensures A.HasAccess(AclOf(Reconciled(acls, f, A.Grant(id, readOnly)), f), id, readOnly)
  {
    hide Reconciled, A.HasAccess, A.ExactGrant, A.Desired, AclOf;
    GrantedEntries(acls, f, id, readOnly, f, id);
    A.ExactGrantGivesAccess(AclOf(Reconciled(acls, f, A.Grant(id, readOnly)), f), id, readOnly);
  }

  lemma GrantGivesBucket(s: S3, b: BucketHandle, username: string, actions: seq<string>, readOnly: bool)
    requires RootVerified(s, b)
    ensures InPlace(s, b)
    ensures HasBucket(Granted(s, b, username, actions, readOnly), b, Account(username, UserId(s, username)), actions,
            readOnly)
  {
    var id := UserId(s, username);
    assert InPlace(s, b);
    GrantedStatementThere(s.policies, b.name, username, id, actions);
    GrantedEntriesAllow(s.acls, b.fileId, id, readOnly);
    GrantedFields(s, b, username, id, actions, readOnly);
    hide RootVerified, UserId, NextUser, Owned, Mutated, Reconciled, PolicyOf, AclOf, A.HasAccess, GrantedAs;
  }

  lemma RevokeTakesBucket(s: S3, b: BucketHandle, a: Account)
    requires InPlace(s, b)
    ensures LostBucket(Revoked(s, b, a), b, a)
  {
    var sid := PolicySid(a.username);
    var t := Revoked(s, b, a);
    assert sid == "cosi-" + a.username;
    assert PolicyTarget(s, b) && AclTarget(s, b);
    assert forall k <- t.keys :: t.keys[k] != a.authId by { hide Mutated, Reconciled; }
    MutatedStatements(s.policies, b.name, a, P.Granted("", "", []));
    ReconciledEntries(s.acls, b.fileId, a.authId, b.fileId, a.authId);
    RevokedFields(s, b, a);
    hide Mutated, Reconciled, Owned, PolicyOf, AclOf, PolicyTarget, AclTarget, Revoked, InPlace, RevokedUsers,
         PolicySid;
    var after := PolicyOf(t.policies, b.name).statements;
    OfSidIs(after, sid);
    assert forall st <- after :: st.sid == sid ==> st in P.OfSid(after, sid);
    A.ExactGrantGivesAccess(AclOf(t.acls, b.fileId), a.authId, false);
    hide A.NoAccess, A.HasAccess, A.ExactGrant, A.Of, P.OfSid;
  }

  predicate HexDigits(h: string) {
    forall c <- h :: c in "0123456789abcdefABCDEF"
  }

  /** A revoke removes the live user of the account's name if and only if it still is the account's identity
      and has a name this driver makes up. Without such a user it removes none. */
  lemma RevokeDropsUserIff(s: S3, b: BucketHandle, a: Account)
    requires WellFormed(s)
    ensures Revoked(s, b, a).users == s.users || Revoked(s, b, a).users == s.users - {a.username}
    ensures a.username in s.users ==>
              (a.username !in Revoked(s, b, a).users
               <==> s.users[a.username] == a.authId
                    && exists h :: a.username == "cosi-" + h && (|h| == 32 || |h| == 12) && HexDigits(h))
  {
    MintedNameIff(a.username);
    hide Mutated, Reconciled, PolicyTarget, AclTarget, IsDriverUser, Owned, HexDigits;
    assert Revoked(s, b, a).users == RevokedUsers(s.users, a);
    if IsTarget(s.users, a) { assert WithoutUser(s.users, a.authId) == s.users - {a.username}; }
  }

  lemma MintedNameIff(name: string)
    ensures IsDriverUser(name) <==> exists h :: name == "cosi-" + h && (|h| == 32 || |h| == 12) && HexDigits(h)
  {
    if IsDriverUser(name) {
      var h := name[5..];
      assert name == "cosi-" + h;
      forall c | c in h ensures c in "0123456789abcdefABCDEF" {
        var i :| 0 <= i < |h| && h[i] == c;
        assert IsHex(name[i + 5]);
        HexIff(c);
      }
    }
    if h :| name == "cosi-" + h && (|h| == 32 || |h| == 12) && HexDigits(h) {
      forall i | 5 <= i < |name| ensures IsHex(name[i]) {
        assert name[i] == h[i - 5] && h[i - 5] in h;
        HexIff(name[i]);
      }
    }
  }

  lemma HexIff(c: char)
    ensures IsHex(c) <==> c in "0123456789abcdefABCDEF"
  {
    var s := "0123456789abcdefABCDEF";
    if '0' <= c <= '9' { assert s[c as int - '0' as int] == c; }
    if 'a' <= c <= 'f' { assert s[c as int - 'a' as int + 10] == c; }
    if 'A' <= c <= 'F' { assert s[c as int - 'A' as int + 16] == c; }
  }

  /** The grant RPC. It refuses a bucket whose root is no longer the recorded one without touching
      anything. On success the account owns exactly the returned key, its statement and its entry; after
      a failure anywhere, granting again ends where an uninterrupted grant would have, but for the key. */
  method GrantBucketAccess(c: Cluster, b: BucketHandle, username: string, actions: seq<string>, readOnly: bool)
    returns (ok: bool, account: Account, key: KeyId)
    requires WellFormed(c.s)
    modifies c
    ensures WellFormed(c.s)
    ensures !RootVerified(old(c.s), b) ==> !ok && c.s == old(c.s)
    ensures ok ==> c.s == Granted(old(c.s), b, username, actions, readOnly)
    ensures ok ==> InPlace(old(c.s), b) && HasBucket(c.s, b, account, actions, readOnly)
    ensures ok ==> account == Account(username, UserId(old(c.s), username)) && Owned(c.s.keys, account.authId) == {key}
    ensures !ok && RootVerified(old(c.s), b) ==>
              c.faulty && SameButKey(Granted(c.s, b, username, actions, readOnly),
                                     Granted(old(c.s), b, username, actions, readOnly), UserId(old(c.s), username))
  {
    account, key := Account(username, ""), 0;
    var fault := c.Fault();
    if RootVerified(c.s, b) && fault { GrantedAfterPart(c.s, c.s, b, username, actions, readOnly); }
    if fault || !RootVerified(c.s, b) { return false, account, key; }
    var id := UserId(c.s, username);
    ok, key := GrantVerified(c, b, username, id, actions, readOnly);
    if ok {
      account := Account(username, id);
      GrantGivesBucket(old(c.s), b, username, actions, readOnly);
    } else {
      GrantedAfterPart(old(c.s), c.s, b, username, actions, readOnly);
    }
  }

  /** The writes of a grant, once the root is verified. */
  method GrantVerified(c: Cluster, b: BucketHandle, username: string, id: AuthId, actions: seq<string>, readOnly: bool)
    returns (ok: bool, key: KeyId)
    requires WellFormed(c.s) && id == UserId(c.s, username)
    modifies c
    ensures WellFormed(c.s) && PartlyGranted(old(c.s), c.s, b, username, actions, readOnly)
    ensures ok ==> c.s == GrantedAs(old(c.s), b, username, id, actions, readOnly) && Owned(c.s.keys, id) == {key}
    ensures !ok ==> c.faulty
  {
    ghost var s0 := c.s;
    key := 0;
    ok := EnsureUser(c, username, id);
    if !ok { return false, key; }
    hide Mutated, Reconciled;
    ok := RotateKeys(c, id);
    if !ok { return false, key; }
    key := c.s.nextKey;
    ok := CreateKey(c, id);
    if !ok {
      var _ := RotateKeys(c, id);
      return false, key;
    }
    hide WellFormed, Owned, UserId;
    ok := c.Send(c.s.(policies := Mutated(c.s.policies, b.name, UpsertOp(username, id, actions))));
    if ok {
      ok := c.Send(c.s.(acls := Reconciled(c.s.acls, b.fileId, A.Grant(id, readOnly))));
    }
    if !ok {
      DropKey(c, id, key);
    }
  }

  method EnsureUser(c: Cluster, username: string, id: AuthId) returns (ok: bool)
    requires WellFormed(c.s) && id == UserId(c.s, username)
    modifies c
    ensures WellFormed(c.s) && 0 < |id|
    ensures c.s == old(c.s).(users := c.s.users, nextUser := c.s.nextUser)
    ensures ok ==>
            c.s.users == old(c.s).users[username := id] && c.s.nextUser == NextUser(old(c.s), username)
                && |id| <= c.s.nextUser
    ensures !ok ==> c.faulty && ((c.s.users == old(c.s).users && c.s.nextUser == old(c.s).nextUser)
                                 || (c.s.users == old(c.s).users[username := id]
                                     && c.s.nextUser == NextUser(old(c.s), username)))
  {
    if username !in c.s.users {
      ok := c.Send(c.s.(users := c.s.users[username := id], nextUser := c.s.nextUser + 1));
    } else {
      var fault := c.Fault();
      ok := !fault;
      assert c.s.users[username := id] == c.s.users;
    }
  }

  method CreateKey(c: Cluster, id: AuthId) returns (ok: bool)
    requires WellFormed(c.s) && |id| <= c.s.nextUser && Owned(c.s.keys, id) == {}
    modifies c
    ensures WellFormed(c.s) && c.s == old(c.s).(keys := c.s.keys, nextKey := c.s.nextKey)
    ensures c.s.keys - Owned(c.s.keys, id) == old(c.s).keys - Owned(old(c.s).keys, id)
    ensures ok ==> c.s.keys == old(c.s).keys[old(c.s).nextKey := id] && c.s.nextKey == old(c.s).nextKey + 1
                   && Owned(c.s.keys, id) == {old(c.s).nextKey}
    ensures !ok ==> c.faulty
  {
    AddedKey(c.s, id);
    ok := c.Send(c.s.(keys := c.s.keys[c.s.nextKey := id], nextKey := c.s.nextKey + 1));
  }

  /** Best-effort cleanup of the key of a grant that failed later on. */
  method DropKey(c: Cluster, id: AuthId, key: KeyId)
    requires WellFormed(c.s) && Owned(c.s.keys, id) == {key}
    modifies c
    ensures WellFormed(c.s) && c.s == old(c.s).(keys := c.s.keys)
    ensures c.s.keys - Owned(c.s.keys, id) == old(c.s).keys - Owned(old(c.s).keys, id)
  {
    DropOwnKey(c.s, id, key);
    var _ := c.Send(c.s.(keys := c.s.keys - {key}));
  }

  lemma AddedKey(s: S3, id: AuthId)
    requires WellFormed(s) && |id| <= s.nextUser && Owned(s.keys, id) == {}
    ensures WellFormed(s.(keys := s.keys[s.nextKey := id], nextKey := s.nextKey + 1))
    ensures Owned(s.keys[s.nextKey := id], id) == {s.nextKey}
    ensures s.keys[s.nextKey := id] - Owned(s.keys[s.nextKey := id], id) == s.keys - Owned(s.keys, id)
  {
    assert s.nextKey !in s.keys;
    assert forall k :: k in Owned(s.keys[s.nextKey := id], id) <==> k in Owned(s.keys, id) || k == s.nextKey;
  }

  lemma DropOwnKey(s: S3, id: AuthId, key: KeyId)
    requires WellFormed(s) && Owned(s.keys, id) == {key}
    ensures WellFormed(s.(keys := s.keys - {key}))
    ensures (s.keys - {key}) - Owned(s.keys - {key}, id) == s.keys - Owned(s.keys, id)
  {
    assert Owned(s.keys - {key}, id) == {};
  }

  method RotateKeys(c: Cluster, id: AuthId) returns (ok: bool)
    requires WellFormed(c.s)
    modifies c
    ensures WellFormed(c.s) && c.s == old(c.s).(keys := c.s.keys)
    ensures c.s.keys - Owned(c.s.keys, id) == old(c.s).keys - Owned(old(c.s).keys, id)
    ensures ok ==> c.s.keys == old(c.s).keys - Owned(old(c.s).keys, id) && Owned(c.s.keys, id) == {}
    ensures !ok ==> c.faulty
  {
    var fault := c.Fault();
    if fault { return false; }
    ghost var s0 := c.s;
    ok := DeleteKeys(c, Owned(c.s.keys, id));
    ghost var ks :| ks <= Owned(s0.keys, id) && c.s == s0.(keys := s0.keys - ks) && (ok ==> ks == Owned(s0.keys, id));
    assert Owned(s0.keys - ks, id) == Owned(s0.keys, id) - ks;
  }

  // ---------------------------------------------------------------- other accounts in between

  datatype Rpc =
    | GrantRpc(bucket: BucketHandle, username: string, actions: seq<string>, readOnly: bool)
    | RevokeRpc(bucket: BucketHandle, account: Account)

  function Perform(s: S3, r: Rpc): S3 {
    match r
    case GrantRpc(b, u, actions, ro) => Granted(s, b, u, actions, ro)
    case RevokeRpc(b, a) => Revoked(s, b, a)
  }

  function PerformAll(s: S3, rs: seq<Rpc>): S3
    decreases |rs|
  {
    if rs == [] then s else Perform(PerformAll(s, rs[..|rs| - 1]), rs[|rs| - 1])
  }

  /** The RPC concerns another account. */
  predicate Apart(r: Rpc, a: Account) {
    match r
    case GrantRpc(_, u, _, _) => u != a.username
    case RevokeRpc(_, other) => other.authId != a.authId
  }

  /** The account's identity was allocated before now, and only ever under its own name. */
  ghost predicate Minted(s: S3, a: Account) {
    |a.authId| <= s.nextUser && forall n <- s.users :: s.users[n] == a.authId ==> n == a.username
  }

  lemma MutatedCommute(ps: Policies, b: string, c: string, a: Account, op: P.Op)
    requires op.Remove? || (op.Upsert? && op.sid != PolicySid(a.username))
    ensures Mutated(Mutated(ps, b, op), c, RemoveOp(a)) == Mutated(Mutated(ps, c, RemoveOp(a)), b, op)
  {
    if b == c {
      var p := PolicyOf(ps, b);
      match op
      case Upsert(sid, id, acts) =>
        P.RemovedUpsertedCommute(p.statements, P.Granted(sid, id, acts), PolicySid(a.username), a.authId);
      case Remove(sid, id) =>
        P.RemovedCommute(p.statements, PolicySid(a.username), a.authId, sid, id);
      case DenyByDefault =>
    }
  }

  lemma ReconciledApart(acls: Acls, f: FileId, g: FileId, x: A.Op, y: A.Op)
    requires f != g
    ensures Reconciled(Reconciled(acls, f, x), g, y) == Reconciled(Reconciled(acls, g, y), f, x)
  {
    hide A.Apply, A.Settled;
    assert AclOf(Reconciled(acls, f, x), g) == AclOf(acls, g);
    assert AclOf(Reconciled(acls, g, y), f) == AclOf(acls, f);
  }

  lemma ReconciledTogether(acls: Acls, f: FileId, x: A.Op, y: A.Op)
    requires var acl := AclOf(acls, f);
             && A.Apply(x, A.Apply(y, acl)) == A.Apply(y, A.Apply(x, acl))
             && (A.Settled(x, A.Apply(y, acl)) <==> A.Settled(x, acl))
             && (A.Settled(y, A.Apply(x, acl)) <==> A.Settled(y, acl))
    ensures Reconciled(Reconciled(acls, f, x), f, y) == Reconciled(Reconciled(acls, f, y), f, x)
  {
    hide A.Apply, A.Settled;
  }

  lemma ReconciledCommute(acls: Acls, f: FileId, g: FileId, id: AuthId, op: A.Op)
    requires op.trustee != id
    ensures Reconciled(Reconciled(acls, f, op), g, A.Revoke(id)) == Reconciled(Reconciled(acls, g, A.Revoke(id)), f, op)
  {
    hide A.Apply, A.Settled, Reconciled;
    if f == g {
      A.RevokeCommutes(op, AclOf(acls, f), id);
      ReconciledTogether(acls, f, op, A.Revoke(id));
    } else {
      ReconciledApart(acls, f, g, op, A.Revoke(id));
    }
  }

  lemma UsersCommute(users: Users, a: Account, name: string, id: AuthId)
    requires name != a.username && id != a.authId && (name in users ==> users[name] != a.authId)
    ensures RevokedUsers(users[name := id], a) == RevokedUsers(users, a)[name := id]
  {
    hide IsDriverUser;
  }

  lemma GrantedKeysCommute(keys: Keys, next: KeyId, id: AuthId, other: AuthId)
    requires id != other && next !in keys
    ensures var granted := (keys - Owned(keys, other))[next := other];
            granted - Owned(granted, id)
                == ((keys - Owned(keys, id)) - Owned(keys - Owned(keys, id), other))[next := other]
  {
  }

  /** The identity a grant settles on is the same before and after revoking another account. */
  lemma SameUserId(s: S3, b: BucketHandle, a: Account, username: string)
    requires Minted(s, a) && username != a.username
    ensures UserId(s, username) != a.authId
    ensures UserId(Revoked(s, b, a), username) == UserId(s, username)
    ensures NextUser(Revoked(s, b, a), username) == NextUser(s, username)
    ensures username in s.users ==> s.users[username] != a.authId
  {
    hide Mutated, Reconciled, IsDriverUser, PolicyTarget, AclTarget;
  }

  lemma GrantedAsCommutes(s: S3, b: BucketHandle, a: Account, bucket: BucketHandle, username: string, id: AuthId,
                          actions: seq<string>, readOnly: bool)
    requires username != a.username && id != a.authId && s.nextKey !in s.keys
    requires username in s.users ==> s.users[username] != a.authId
    requires NextUser(Revoked(s, b, a), username) == NextUser(s, username)
    ensures Revoked(GrantedAs(s, bucket, username, id, actions, readOnly), b, a)
            == GrantedAs(Revoked(s, b, a), bucket, username, id, actions, readOnly)
  {
    hide Mutated, Reconciled, Owned, PolicyTarget, AclTarget, NextUser, RevokedPolicies, RevokedAcls, RevokedUsers,
         PolicySid, Revoked, GrantedAs;
    var g := GrantedAs(s, bucket, username, id, actions, readOnly);
    GrantedFields(s, bucket, username, id, actions, readOnly);
    GrantedFields(Revoked(s, b, a), bucket, username, id, actions, readOnly);
    RevokedFields(g, b, a);
    RevokedFields(s, b, a);
    SidsDiffer(username, a.username);
    PoliciesCommute(s.policies, PolicyTarget(s, b), b.name, a, bucket.name, UpsertOp(username, id, actions));
    AclsCommute(s.acls, AclTarget(s, b), b.fileId, a.authId, bucket.fileId, A.Grant(id, readOnly));
    UsersCommute(s.users, a, username, id);
    GrantedKeysCommute(s.keys, s.nextKey, a.authId, id);
    SameTargets(s, g, b);
  }

  lemma RevokedFields(s: S3, b: BucketHandle, a: Account)
    ensures var t := Revoked(s, b, a);
            && t.keys == s.keys - Owned(s.keys, a.authId) && t.users == RevokedUsers(s.users, a)
            && t.policies == RevokedPolicies(s.policies, PolicyTarget(s, b), b.name, a)
            && t.acls == RevokedAcls(s.acls, AclTarget(s, b), b.fileId, a.authId)
            && t == s.(keys := t.keys, policies := t.policies, acls := t.acls, users := t.users)
  {
    hide Owned, RevokedUsers, RevokedPolicies, RevokedAcls, PolicyTarget, AclTarget;
  }

  lemma GrantedFields(s: S3, b: BucketHandle, username: string, id: AuthId, actions: seq<string>, readOnly: bool)
    ensures var t := GrantedAs(s, b, username, id, actions, readOnly);
            && t.users == s.users[username := id] && t.nextUser == NextUser(s, username)
            && t.keys == (s.keys - Owned(s.keys, id))[s.nextKey := id] && t.nextKey == s.nextKey + 1
            && t.policies == Mutated(s.policies, b.name, UpsertOp(username, id, actions))
            && t.acls == Reconciled(s.acls, b.fileId, A.Grant(id, readOnly))
            && t == s.(users := t.users, nextUser := t.nextUser, keys := t.keys, nextKey := t.nextKey,
                policies := t.policies, acls := t.acls)
  {
    hide Owned, Mutated, Reconciled, NextUser;
  }

  lemma SidsDiffer(u: string, v: string)
    requires u != v
    ensures PolicySid(u) != PolicySid(v)
  {
    assert PolicySid(u)[5..] == u && PolicySid(v)[5..] == v;
  }

  lemma PoliciesCommute(ps: Policies, target: bool, bucket: string, a: Account, c: string, op: P.Op)
    requires op.Remove? || (op.Upsert? && op.sid != PolicySid(a.username))
    ensures RevokedPolicies(Mutated(ps, c, op), target, bucket, a)
            == Mutated(RevokedPolicies(ps, target, bucket, a), c, op)
  {
    if target { MutatedCommute(ps, c, bucket, a, op); }
    hide Mutated;
  }

  lemma AclsCommute(acls: Acls, target: bool, f: FileId, id: AuthId, g: FileId, op: A.Op)
    requires op.trustee != id
    ensures RevokedAcls(Reconciled(acls, g, op), target, f, id) == Reconciled(RevokedAcls(acls, target, f, id), g, op)
  {
    if target { ReconciledCommute(acls, g, f, id, op); }
    hide Reconciled;
  }

  lemma RevokeCommutesWithGrant(s: S3, b: BucketHandle, a: Account, r: Rpc)
    requires WellFormed(s) && Minted(s, a) && r.GrantRpc? && Apart(r, a)
    ensures Revoked(Perform(s, r), b, a) == Perform(Revoked(s, b, a), r)
  {
    assert s.nextKey !in s.keys;
    SameUserId(s, b, a, r.username);
    GrantedAsCommutes(s, b, a, r.bucket, r.username, UserId(s, r.username), r.actions, r.readOnly);
    SameTargets(s, Revoked(s, b, a), r.bucket);
    hide Mutated, Reconciled, Owned, IsTarget, WellFormed, Minted, RootVerified, UserId, WithoutUser, GrantedAs,
         Revoked;
  }

  lemma RevokeCommutesWithRevoke(s: S3, b: BucketHandle, a: Account, r: Rpc)
    requires r.RevokeRpc? && Apart(r, a)
    ensures Revoked(Perform(s, r), b, a) == Perform(Revoked(s, b, a), r)
  {
    MutatedCommute(s.policies, r.bucket.name, b.name, a, RemoveOp(r.account));
    ReconciledCommute(s.acls, r.bucket.fileId, b.fileId, a.authId, A.Revoke(r.account.authId));
    SameTargets(s, Perform(s, r), b);
    SameTargets(s, Revoked(s, b, a), r.bucket);
    KeysAndUsersCommute(s.keys, s.users, a, r.account);
    hide Mutated, Reconciled, Owned, IsTarget, RootVerified, PolicyTarget, AclTarget, WithoutUser;
  }

  lemma KeysAndUsersCommute(keys: Keys, users: Users, a: Account, b: Account)
    requires a.authId != b.authId
    ensures var ka, kb := keys - Owned(keys, a.authId), keys - Owned(keys, b.authId);
            kb - Owned(kb, a.authId) == ka - Owned(ka, b.authId)
    ensures WithoutUser(WithoutUser(users, a.authId), b.authId) == WithoutUser(WithoutUser(users, b.authId), a.authId)
    ensures IsTarget(WithoutUser(users, a.authId), b) <==> IsTarget(users, b)
    ensures IsTarget(WithoutUser(users, b.authId), a) <==> IsTarget(users, a)
  {
    var x, y := a.authId, b.authId;
    assert Owned(keys - Owned(keys, y), x) == Owned(keys, x);
    assert Owned(keys - Owned(keys, x), y) == Owned(keys, y);
    hide IsDriverUser;
  }

  lemma PerformKeeps(s: S3, a: Account, r: Rpc)
    requires WellFormed(s) && Minted(s, a) && Apart(r, a)
    ensures WellFormed(Perform(s, r)) && Minted(Perform(s, r), a)
  {
    hide Mutated, Reconciled, IsDriverUser, RootVerified, PolicyTarget, AclTarget;
  }

  /** Revoking one account commutes with any grants and revokes of others. */
  lemma {:induction false} RevokeCommutes(s: S3, b: BucketHandle, a: Account, rs: seq<Rpc>)
    requires WellFormed(s) && Minted(s, a) && forall r <- rs :: Apart(r, a)
    ensures Revoked(PerformAll(s, rs), b, a) == PerformAll(Revoked(s, b, a), rs)
    ensures WellFormed(PerformAll(s, rs)) && Minted(PerformAll(s, rs), a)
    decreases |rs|
  {
    if rs != [] {
      var front, r := rs[..|rs| - 1], rs[|rs| - 1];
      RevokeCommutes(s, b, a, front);
      PerformKeeps(PerformAll(s, front), a, r);
      if r.GrantRpc? {
        RevokeCommutesWithGrant(PerformAll(s, front), b, a, r);
      } else {
        RevokeCommutesWithRevoke(PerformAll(s, front), b, a, r);
      }
    }
  }

  /** Nobody else holds the name, its statement, or an entry for the next identity. */
  ghost predicate Unused(s: S3, b: BucketHandle, username: string) {
    && username !in s.users
    && P.OfSid(PolicyOf(s.policies, b.name).statements, PolicySid(username)) == []
    && A.Of(AclOf(s.acls, b.fileId), FreshAuthId(s.nextUser)) == []
  }

  /** The same users, keys, statements and access entries. */
  ghost predicate SameAccess(s: S3, t: S3) {
    && s.users == t.users && s.keys == t.keys && s.buckets == t.buckets && s.files == t.files
    && (forall x :: PolicyOf(s.policies, x).statements == PolicyOf(t.policies, x).statements)
    && (forall f :: AclOf(s.acls, f) == AclOf(t.acls, f))
  }

  lemma PoliciesRestored(ps: Policies, bucket: string, a: Account, actions: seq<string>)
    requires P.OfSid(PolicyOf(ps, bucket).statements, PolicySid(a.username)) == []
    ensures forall x ::
            PolicyOf(Mutated(Mutated(ps, bucket, UpsertOp(a.username, a.authId, actions)), bucket, RemoveOp(a)),
                x).statements
                        == PolicyOf(ps, x).statements
  {
    var ss := PolicyOf(ps, bucket).statements;
    P.RemoveAfterUpsert(ss, PolicySid(a.username), a.authId, actions);
    P.RemovedUnchanged(ss, PolicySid(a.username), a.authId);
  }

  lemma AclRestored(acl: seq<A.Ace>, id: AuthId, readOnly: bool)
    requires A.Of(acl, id) == []
    ensures !A.Settled(A.Grant(id, readOnly), acl)
    ensures var granted := A.Apply(A.Grant(id, readOnly), acl);
            !A.Settled(A.Revoke(id), granted) && A.Apply(A.Revoke(id), granted) == acl
  {
    A.WithoutNobody(acl, id);
    A.ApplyKeepsOthers(A.Grant(id, readOnly), acl);
    A.ApplyOnEntries(A.Grant(id, readOnly), acl, id);
    A.WithoutNobody(A.Apply(A.Grant(id, readOnly), acl), id);
  }

  lemma AclsRestored(acls: Acls, f: FileId, id: AuthId, readOnly: bool)
    requires A.Of(AclOf(acls, f), id) == []
    ensures forall g ::
            AclOf(Reconciled(Reconciled(acls, f, A.Grant(id, readOnly)), f, A.Revoke(id)), g) == AclOf(acls, g)
  {
    AclRestored(AclOf(acls, f), id, readOnly);
    hide A.Apply, A.Settled;
  }

  lemma KeysRestored(keys: Keys, next: KeyId, id: AuthId)
    requires Owned(keys, id) == {} && next !in keys
    ensures var granted := (keys - Owned(keys, id))[next := id];
            granted - Owned(granted, id) == keys
  {
  }

  lemma UsersRestored(users: Users, a: Account)
    requires a.username !in users && IsDriverUser(a.username) && forall n <- users :: users[n] != a.authId
    ensures RevokedUsers(users[a.username := a.authId], a) == users
  {
    hide IsDriverUser;
  }

  lemma FreshOwnsNothing(s: S3)
    requires WellFormed(s)
    ensures Owned(s.keys, FreshAuthId(s.nextUser)) == {} && s.nextKey !in s.keys
    ensures forall n <- s.users :: s.users[n] != FreshAuthId(s.nextUser)
  {
  }

  lemma RevokeAfterGrant(s: S3, b: BucketHandle, username: string, actions: seq<string>, readOnly: bool)
    requires WellFormed(s) && RootVerified(s, b) && Unused(s, b, username) && IsDriverUser(username)
    ensures SameAccess(s, Revoked(Granted(s, b, username, actions, readOnly), b,
            Account(username, FreshAuthId(s.nextUser))))
  {
    var id := FreshAuthId(s.nextUser);
    var a := Account(username, id);
    var g := GrantedAs(s, b, username, id, actions, readOnly);
    assert g == Granted(s, b, username, actions, readOnly) by { hide GrantedAs, RootVerified; }
    assert PolicyTarget(s, b) && AclTarget(s, b);
    FreshOwnsNothing(s);
    PoliciesRestored(s.policies, b.name, a, actions);
    AclsRestored(s.acls, b.fileId, id, readOnly);
    KeysRestored(s.keys, s.nextKey, id);
    UsersRestored(s.users, a);
    hide Granted, GrantedAs, Revoked, WellFormed, Unused, Owned, IsDriverUser, Mutated, Reconciled, RootVerified,
         PolicyTarget, AclTarget, RevokedUsers, PolicyOf, AclOf, NextUser;
    GrantedFields(s, b, username, id, actions, readOnly);
    RevokedFields(g, b, a);
    SameTargets(s, g, b);
  }

  /** The law of the driver: grant an account, let any other accounts be granted and revoked, revoke it.
      What remains is what the other RPCs make of a state with the same access as before the grant. */
  lemma RevokeUndoesGrant(s: S3, b: BucketHandle, username: string, actions: seq<string>, readOnly: bool, rs: seq<Rpc>)
    requires WellFormed(s) && RootVerified(s, b) && Unused(s, b, username) && IsDriverUser(username)
    requires forall r <- rs :: Apart(r, Account(username, FreshAuthId(s.nextUser)))
    ensures var a := Account(username, FreshAuthId(s.nextUser));
            var granted := Granted(s, b, username, actions, readOnly);
            && SameAccess(s, Revoked(granted, b, a))
            && Revoked(PerformAll(granted, rs), b, a) == PerformAll(Revoked(granted, b, a), rs)
  {
    RevokeAfterGrant(s, b, username, actions, readOnly);
    var granted := Granted(s, b, username, actions, readOnly);
    assert WellFormed(granted) && Minted(granted, Account(username, FreshAuthId(s.nextUser))) by {
      hide Mutated, Reconciled, IsDriverUser, RootVerified;
    }
    RevokeCommutes(granted, b, Account(username, FreshAuthId(s.nextUser)), rs);
  }
}
