/** Grants and revokes of different accounts, interleaved call by call.

    An RPC is the list of its writes. The driver takes no lock across accounts, so the writes of a
    revoke can come anywhere between those of other accounts' grants and revokes. */
module AccessInterleaving {
  import P = PolicyStatements
  import A = AclGrants
  import opened BucketAccess
  import opened S3Cluster

  /** One write of a grant or revoke, as Core carries it out. */
  datatype Write =
    | AddUser(name: string)
    | DropUser(id: AuthId)
    | AddKey(owner: AuthId)
    | DropOwnedKey(key: KeyId, owner: AuthId)
    | WritePolicy(bucket: string, policyOp: P.Op)
    | WriteAcl(file: FileId, aclOp: A.Op)

  /** A key goes if it is the owner's. */
  function Dropped(keys: Keys, k: KeyId, owner: AuthId): Keys {
    if k in keys && keys[k] == owner then keys - {k} else keys
  }

  function Written(s: S3, w: Write): S3 {
    match w
    case AddUser(n) => s.(users := s.users[n := UserId(s, n)], nextUser := NextUser(s, n))
    case DropUser(id) => s.(users := WithoutUser(s.users, id))
    case AddKey(owner) => s.(keys := s.keys[s.nextKey := owner], nextKey := s.nextKey + 1)
    case DropOwnedKey(k, owner) => s.(keys := Dropped(s.keys, k, owner))
    case WritePolicy(bucket, op) => s.(policies := Mutated(s.policies, bucket, op))
    case WriteAcl(f, op) => s.(acls := Reconciled(s.acls, f, op))
  }

  function WrittenAll(s: S3, ws: seq<Write>): S3
    decreases |ws|
  {
    if ws == [] then s else Written(WrittenAll(s, ws[..|ws| - 1]), ws[|ws| - 1])
  }

  lemma {:induction false} WrittenAppend(s: S3, a: seq<Write>, b: seq<Write>)
    ensures WrittenAll(s, a + b) == WrittenAll(WrittenAll(s, a), b)
    decreases |b|
  {
    if b == [] {
      assert a + b == a;
    } else {
      assert (a + b)[..|a + b| - 1] == a + b[..|b| - 1];
      WrittenAppend(s, a, b[..|b| - 1]);
    }
  }

  // ---------------------------------------------------------------- RPCs as their writes

  function Drops(keys: seq<KeyId>, owner: AuthId): (ws: seq<Write>)
    ensures |ws| == |keys| && forall i | 0 <= i < |keys| :: ws[i] == DropOwnedKey(keys[i], owner)
  {
    seq(|keys|, i requires 0 <= i < |keys| => DropOwnedKey(keys[i], owner))
  }

  /** `order` is the order in which the keys were listed. */
  ghost predicate Listed(order: seq<KeyId>, ks: set<KeyId>) {
    forall k :: k in order <==> k in ks
  }

  function RevokeWrites(s: S3, b: BucketHandle, a: Account, order: seq<KeyId>): seq<Write> {
    Drops(order, a.authId)
    + (if PolicyTarget(s, b) then [WritePolicy(b.name, RemoveOp(a))] else [])
    + (if AclTarget(s, b) then [WriteAcl(b.fileId, A.Revoke(a.authId))] else [])
    + (if IsTarget(s.users, a) then [DropUser(a.authId)] else [])
  }

  function GrantWrites(b: BucketHandle, username: string, id: AuthId, actions: seq<string>, readOnly: bool,
      order: seq<KeyId>): seq<Write> {
    [AddUser(username)] + Drops(order, id)
    + [AddKey(id), WritePolicy(b.name, UpsertOp(username, id, actions)), WriteAcl(b.fileId, A.Grant(id, readOnly))]
  }

  lemma {:induction false} KeysDropped(s: S3, keys: seq<KeyId>, owner: AuthId)
    ensures var t := WrittenAll(s, Drops(keys, owner));
            && t == s.(keys := t.keys)
            && (forall k :: k in t.keys <==> k in s.keys && !(k in keys && s.keys[k] == owner))
            && (forall k <- t.keys :: t.keys[k] == s.keys[k])
    decreases |keys|
  {
    if keys != [] {
      var n := |keys| - 1;
      KeysDropped(s, keys[..n], owner);
      assert Drops(keys, owner)[..n] == Drops(keys[..n], owner);
      KeyDropped(WrittenAll(s, Drops(keys[..n], owner)), keys[n], owner);
      assert forall k :: k in keys <==> k in keys[..n] || k == keys[n];
      hide Written;
    }
  }

  lemma KeyDropped(s: S3, key: KeyId, owner: AuthId)
    ensures var t := Written(s, DropOwnedKey(key, owner));
            && t == s.(keys := t.keys)
            && (forall k :: k in t.keys <==> k in s.keys && !(k == key && s.keys[k] == owner))
            && (forall k <- t.keys :: t.keys[k] == s.keys[k])
  {
  }

  lemma AllKeysDropped(s: S3, order: seq<KeyId>, owner: AuthId)
    requires Listed(order, Owned(s.keys, owner))
    ensures WrittenAll(s, Drops(order, owner)) == s.(keys := s.keys - Owned(s.keys, owner))
  {
    KeysDropped(s, order, owner);
    hide WrittenAll;
    assert WrittenAll(s, Drops(order, owner)).keys == s.keys - Owned(s.keys, owner);
  }

  lemma WrittenOne(s: S3, w: Write)
    ensures WrittenAll(s, [w]) == Written(s, w)
  {
    assert [w][..0] == [];
  }

  lemma PolicyWritten(s: S3, target: bool, bucket: string, a: Account)
    ensures WrittenAll(s, if target then [WritePolicy(bucket, RemoveOp(a))] else [])
            == s.(policies := RevokedPolicies(s.policies, target, bucket, a))
  {
    WrittenOne(s, WritePolicy(bucket, RemoveOp(a)));
    hide Mutated;
  }

  lemma AclWritten(s: S3, target: bool, f: FileId, id: AuthId)
    ensures WrittenAll(s, if target then [WriteAcl(f, A.Revoke(id))] else [])
            == s.(acls := RevokedAcls(s.acls, target, f, id))
  {
    WrittenOne(s, WriteAcl(f, A.Revoke(id)));
    hide Reconciled;
  }

  lemma UserWritten(s: S3, a: Account)
    ensures WrittenAll(s, if IsTarget(s.users, a) then [DropUser(a.authId)] else [])
            == s.(users := RevokedUsers(s.users, a))
  {
    WrittenOne(s, DropUser(a.authId));
    hide IsTarget, WithoutUser;
  }

  lemma RevokeIsItsWrites(s: S3, b: BucketHandle, a: Account, order: seq<KeyId>)
    requires Listed(order, Owned(s.keys, a.authId))
    ensures WrittenAll(s, RevokeWrites(s, b, a, order)) == Revoked(s, b, a)
  {
    var keys := Drops(order, a.authId);
    var policy := if PolicyTarget(s, b) then [WritePolicy(b.name, RemoveOp(a))] else [];
    var acl := if AclTarget(s, b) then [WriteAcl(b.fileId, A.Revoke(a.authId))] else [];
    var user := if IsTarget(s.users, a) then [DropUser(a.authId)] else [];
    assert RevokeWrites(s, b, a, order) == keys + policy + acl + user;
    hide Written, Owned, PolicyTarget, AclTarget, IsTarget, Drops, RevokedPolicies, RevokedAcls, RevokedUsers,
         RevokeWrites, Revoked, Listed;
    WrittenAppend(s, keys + policy + acl, user);
    WrittenAppend(s, keys + policy, acl);
    WrittenAppend(s, keys, policy);
    AllKeysDropped(s, order, a.authId);
    hide WrittenAll;
    var s1 := s.(keys := s.keys - Owned(s.keys, a.authId));
    PolicyWritten(s1, PolicyTarget(s, b), b.name, a);
    var s2 := s1.(policies := RevokedPolicies(s1.policies, PolicyTarget(s, b), b.name, a));
    AclWritten(s2, AclTarget(s, b), b.fileId, a.authId);
    var s3 := s2.(acls := RevokedAcls(s2.acls, AclTarget(s, b), b.fileId, a.authId));
    UserWritten(s3, a);
    RevokedFields(s, b, a);
  }

  lemma GrantStarts(s: S3, username: string, order: seq<KeyId>)
    requires Listed(order, Owned(s.keys, UserId(s, username)))
    ensures var id := UserId(s, username);
            WrittenAll(s, [AddUser(username)] + Drops(order, id))
            == s.(users := s.users[username := id], nextUser := NextUser(s, username),
                keys := s.keys - Owned(s.keys, id))
  {
    var id := UserId(s, username);
    WrittenAppend(s, [AddUser(username)], Drops(order, id));
    WrittenOne(s, AddUser(username));
    hide WrittenAll, Owned, UserId, NextUser, Drops, Listed;
    AllKeysDropped(Written(s, AddUser(username)), order, id);
  }

  lemma WrittenThree(s: S3, x: Write, y: Write, z: Write)
    ensures WrittenAll(s, [x, y, z]) == Written(Written(Written(s, x), y), z)
  {
    hide Written;
    assert [x, y, z] == [x] + [y] + [z];
    WrittenAppend(s, [x] + [y], [z]);
    WrittenAppend(s, [x], [y]);
    WrittenOne(s, x);
    WrittenOne(Written(s, x), y);
    WrittenOne(Written(Written(s, x), y), z);
    hide WrittenAll;
  }

  lemma GrantIsItsWrites(s: S3, b: BucketHandle, username: string, actions: seq<string>, readOnly: bool,
      order: seq<KeyId>)
    requires RootVerified(s, b) && Listed(order, Owned(s.keys, UserId(s, username)))
    ensures WrittenAll(s, GrantWrites(b, username, UserId(s, username), actions, readOnly, order))
            == Granted(s, b, username, actions, readOnly)
  {
    var id := UserId(s, username);
    var start := [AddUser(username)] + Drops(order, id);
    var key, policy, acl := AddKey(id), WritePolicy(b.name, UpsertOp(username, id, actions)),
        WriteAcl(b.fileId, A.Grant(id, readOnly));
    var s1 := s.(users := s.users[username := id], nextUser := NextUser(s, username),
        keys := s.keys - Owned(s.keys, id));
    assert Granted(s, b, username, actions, readOnly) == GrantedAs(s, b, username, id, actions, readOnly);
    GrantStarts(s, username, order);
    WrittenAppend(s, start, [key, policy, acl]);
    WrittenThree(s1, key, policy, acl);
    GrantEndsWith(s1, b, username, id, actions, readOnly);
    hide Owned, RootVerified, UserId, NextUser, Drops, Mutated, Reconciled, Listed, WrittenAll, Written, Granted;
  }

  lemma GrantEndsWith(s: S3, b: BucketHandle, username: string, id: AuthId, actions: seq<string>, readOnly: bool)
    ensures Written(Written(Written(s, AddKey(id)), WritePolicy(b.name, UpsertOp(username, id, actions))),
            WriteAcl(b.fileId, A.Grant(id, readOnly)))
            == s.(keys := s.keys[s.nextKey := id], nextKey := s.nextKey + 1,
                  policies := Mutated(s.policies, b.name, UpsertOp(username, id, actions)),
                  acls := Reconciled(s.acls, b.fileId, A.Grant(id, readOnly)))
  {
    hide Mutated, Reconciled;
  }

  // ---------------------------------------------------------------- whose write it is

  /** What the revoke of `a` writes. */
  predicate Mine(w: Write, a: Account) {
    match w
    case DropUser(id) => id == a.authId
    case DropOwnedKey(_, owner) => owner == a.authId
    case WritePolicy(_, op) => op == RemoveOp(a)
    case WriteAcl(_, op) => op == A.Revoke(a.authId)
    case _ => false
  }

  /** What grants and revokes of other accounts write. */
  predicate Others(w: Write, a: Account) {
    match w
    case AddUser(n) => n != a.username
    case DropUser(id) => id != a.authId
    case AddKey(owner) => owner != a.authId
    case DropOwnedKey(_, owner) => owner != a.authId
    case WritePolicy(_, op) => !Mine(w, a) && (op.Remove? || (op.Upsert? && op.sid != PolicySid(a.username)))
    case WriteAcl(_, op) => op.trustee != a.authId
  }

  function OnlyMine(ws: seq<Write>, a: Account): seq<Write>
    decreases |ws|
  {
    if ws == [] then []
    else
      var front, last := OnlyMine(ws[..|ws| - 1], a), ws[|ws| - 1];
      if Mine(last, a) then front + [last] else front
  }

  function OnlyOthers(ws: seq<Write>, a: Account): seq<Write>
    decreases |ws|
  {
    if ws == [] then []
    else
      var front, last := OnlyOthers(ws[..|ws| - 1], a), ws[|ws| - 1];
      if Mine(last, a) then front else front + [last]
  }

  // ---------------------------------------------------------------- one write past another

  lemma DroppedUserCommutes(s: S3, a: Account, name: string)
    requires Minted(s, a) && name != a.username
    ensures var dropped := s.(users := WithoutUser(s.users, a.authId));
            && UserId(dropped, name) == UserId(s, name) && NextUser(dropped, name) == NextUser(s, name)
            && WithoutUser(s.users[name := UserId(s, name)], a.authId) == dropped.users[name := UserId(s, name)]
  {
  }

  lemma UserWriteCommutes(s: S3, x: Write, y: Write, a: Account)
    requires Minted(s, a) && Mine(x, a) && Others(y, a) && x.DropUser?
    ensures Written(Written(s, x), y) == Written(Written(s, y), x)
  {
    if y.AddUser? { DroppedUserCommutes(s, a, y.name); }
    if y.DropUser? {
      assert WithoutUser(WithoutUser(s.users, x.id), y.id) == WithoutUser(WithoutUser(s.users, y.id), x.id);
    }
    hide WithoutUser, UserId, NextUser, Minted, Mutated, Reconciled;
  }

  lemma DroppedKeysCommute(keys: Keys, k: KeyId, owner: AuthId, j: KeyId, other: AuthId)
    requires owner != other
    ensures Dropped(Dropped(keys, k, owner), j, other) == Dropped(Dropped(keys, j, other), k, owner)
    ensures Dropped(keys, k, owner)[j := other] == Dropped(keys[j := other], k, owner)
  {
    assert (keys - {k}) - {j} == (keys - {j}) - {k};
    if k == j { assert (keys - {k})[j := other] == keys[j := other]; }
  }

  lemma KeyWriteCommutes(s: S3, x: Write, y: Write, a: Account)
    requires Mine(x, a) && Others(y, a) && x.DropOwnedKey?
    ensures Written(Written(s, x), y) == Written(Written(s, y), x)
  {
    if y.AddKey? { DroppedKeysCommute(s.keys, x.key, x.owner, s.nextKey, y.owner); }
    if y.DropOwnedKey? { DroppedKeysCommute(s.keys, x.key, x.owner, y.key, y.owner); }
    hide Mutated, Reconciled, WithoutUser, Dropped;
  }

  lemma DocumentWriteCommutes(s: S3, x: Write, y: Write, a: Account)
    requires Mine(x, a) && Others(y, a) && (x.WritePolicy? || x.WriteAcl?)
    ensures Written(Written(s, x), y) == Written(Written(s, y), x)
  {
    hide Mutated, Reconciled, WithoutUser;
    if x.WritePolicy? && y.WritePolicy? { MutatedCommute(s.policies, y.bucket, x.bucket, a, y.policyOp); }
    if x.WriteAcl? && y.WriteAcl? { ReconciledCommute(s.acls, y.file, x.file, a.authId, y.aclOp); }
  }

  lemma WritesCommute(s: S3, x: Write, y: Write, a: Account)
    requires Minted(s, a) && Mine(x, a) && Others(y, a)
    ensures Written(Written(s, x), y) == Written(Written(s, y), x)
  {
    match x
    case DropUser(_) => UserWriteCommutes(s, x, y, a);
    case DropOwnedKey(_, _) => KeyWriteCommutes(s, x, y, a);
    case WritePolicy(_, _) => DocumentWriteCommutes(s, x, y, a);
    case WriteAcl(_, _) => DocumentWriteCommutes(s, x, y, a);
    hide Written;
  }

  /** What the revoke decides by does not depend on other accounts' writes. */
  ghost predicate SameFor(s: S3, t: S3, a: Account) {
    && t.buckets == s.buckets && t.files == s.files
    && Owned(t.keys, a.authId) == Owned(s.keys, a.authId) && (IsTarget(t.users, a) <==> IsTarget(s.users, a))
  }

  /** The account's identity is taken and keys are numbered in order. */
  ghost predicate Settled(s: S3, a: Account) {
    Minted(s, a) && forall k <- s.keys :: k < s.nextKey
  }

  lemma OneOtherKeeps(s: S3, w: Write, a: Account)
    requires Settled(s, a) && Others(w, a)
    ensures Settled(Written(s, w), a) && SameFor(s, Written(s, w), a)
  {
    hide Mutated, Reconciled, IsDriverUser;
  }

  lemma OneOfMineKeeps(s: S3, w: Write, a: Account)
    requires Settled(s, a) && Mine(w, a)
    ensures Settled(Written(s, w), a)
  {
    hide Mutated, Reconciled;
  }

  lemma {:induction false} OthersKeep(s: S3, ws: seq<Write>, a: Account)
    requires Settled(s, a) && forall w <- ws :: Others(w, a)
    ensures Settled(WrittenAll(s, ws), a) && SameFor(s, WrittenAll(s, ws), a)
    decreases |ws|
  {
    if ws != [] {
      OthersKeep(s, ws[..|ws| - 1], a);
      OneOtherKeeps(WrittenAll(s, ws[..|ws| - 1]), ws[|ws| - 1], a);
      hide Settled, Written, Owned, IsTarget;
    }
  }

  /** A write of another account moves in front of any number of the revoke's. */
  lemma {:induction false} MovesInFront(s: S3, mine: seq<Write>, y: Write, a: Account)
    requires Settled(s, a) && (forall x <- mine :: Mine(x, a)) && Others(y, a)
    ensures Written(WrittenAll(s, mine), y) == WrittenAll(Written(s, y), mine)
    ensures Settled(WrittenAll(s, mine), a)
    decreases |mine|
  {
    if mine != [] {
      var front, x := mine[..|mine| - 1], mine[|mine| - 1];
      MovesInFront(s, front, y, a);
      WritesCommute(WrittenAll(s, front), x, y, a);
      OneOfMineKeeps(WrittenAll(s, front), x, a);
      hide Written, Mine, Others;
    }
  }

  lemma {:induction false} OnlyOthersAre(ws: seq<Write>, a: Account)
    requires forall w <- ws :: Mine(w, a) || Others(w, a)
    ensures (forall w <- OnlyOthers(ws, a) :: Others(w, a)) && (forall w <- OnlyMine(ws, a) :: Mine(w, a))
    decreases |ws|
  {
    if ws != [] {
      OnlyOthersAre(ws[..|ws| - 1], a);
      hide Mine, Others;
    }
  }

  lemma {:induction false} Untangled(s: S3, ws: seq<Write>, a: Account)
    requires Settled(s, a) && forall w <- ws :: Mine(w, a) || Others(w, a)
    ensures WrittenAll(s, ws) == WrittenAll(WrittenAll(s, OnlyOthers(ws, a)), OnlyMine(ws, a))
    decreases |ws|
  {
    if ws != [] {
      var front, w := ws[..|ws| - 1], ws[|ws| - 1];
      Untangled(s, front, a);
      OnlyOthersAre(front, a);
      var others, mine := OnlyOthers(front, a), OnlyMine(front, a);
      var t := WrittenAll(s, others);
      OthersKeep(s, others, a);
      WrittenOne(WrittenAll(t, mine), w);
      if Mine(w, a) {
        WrittenAppend(t, mine, [w]);
      } else {
        MovesInFront(t, mine, w, a);
        WrittenOne(t, w);
        WrittenAppend(s, others, [w]);
      }
      hide Written, Mine, Others, Settled;
    }
  }

  /** However the writes of a revoke fall between those of other accounts' grants and revokes, the outcome
      is that of the other writes alone, in their order, followed by the whole revoke. */
  lemma InterleavedRevoke(s: S3, b: BucketHandle, a: Account, order: seq<KeyId>, ws: seq<Write>)
    requires Settled(s, a) && (forall w <- ws :: Mine(w, a) || Others(w, a))
    requires Listed(order, Owned(s.keys, a.authId)) && OnlyMine(ws, a) == RevokeWrites(s, b, a, order)
    ensures WrittenAll(s, ws) == Revoked(WrittenAll(s, OnlyOthers(ws, a)), b, a)
  {
    Untangled(s, ws, a);
    OnlyOthersAre(ws, a);
    var t := WrittenAll(s, OnlyOthers(ws, a));
    OthersKeep(s, OnlyOthers(ws, a), a);
    SameTargets(s, t, b);
    assert RevokeWrites(t, b, a, order) == RevokeWrites(s, b, a, order);
    hide WrittenAll, Settled, Mine, Others, RevokeWrites, OnlyMine, OnlyOthers, Revoked, Owned;
    RevokeIsItsWrites(t, b, a, order);
  }
}
