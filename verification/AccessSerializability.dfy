/** Any number of accounts, their grants and revokes interleaved call by call.

    Core allocates auth ids and key ids in the order of the calls, so an interleaving and a sequential
    order agree at best up to these. `Effect` therefore carries the ids Core allocated. What an
    interleaving leaves for one account is what that account's own effects leave, so it is the same as
    in any sequential order; only the order of statements and entries of different accounts can be one
    that no sequential order produces. */
module AccessSerializability {
  import P = PolicyStatements
  import A = AclGrants
  import I = AccessInterleaving
  import opened BucketAccess
  import opened S3Cluster

  datatype Effect =
    | MintUser(name: string, id: AuthId)
    | DropUser(id: AuthId)
    | MintKey(key: KeyId, owner: AuthId)
    | DropOwnedKey(key: KeyId, owner: AuthId)
    | WritePolicy(bucket: string, policyOp: P.Op)
    | WriteAcl(file: FileId, aclOp: A.Op)

  function Done(s: S3, e: Effect): S3 {
    match e
    case MintUser(n, id) => s.(users := s.users[n := id])
    case DropUser(id) => s.(users := WithoutUser(s.users, id))
    case MintKey(k, owner) => s.(keys := s.keys[k := owner])
    case DropOwnedKey(k, owner) => s.(keys := I.Dropped(s.keys, k, owner))
    case WritePolicy(bucket, op) => s.(policies := Mutated(s.policies, bucket, op))
    case WriteAcl(f, op) => s.(acls := Reconciled(s.acls, f, op))
  }

  function DoneAll(s: S3, es: seq<Effect>): S3
    decreases |es|
  {
    if es == [] then s else Done(DoneAll(s, es[..|es| - 1]), es[|es| - 1])
  }

  // ---------------------------------------------------------------- the ids Core allocates

  function Resolved(s: S3, w: I.Write): Effect {
    match w
    case AddUser(n) => MintUser(n, UserId(s, n))
    case DropUser(id) => DropUser(id)
    case AddKey(owner) => MintKey(s.nextKey, owner)
    case DropOwnedKey(k, owner) => DropOwnedKey(k, owner)
    case WritePolicy(bucket, op) => WritePolicy(bucket, op)
    case WriteAcl(f, op) => WriteAcl(f, op)
  }

  function ResolvedAll(s: S3, ws: seq<I.Write>): seq<Effect>
    decreases |ws|
  {
    if ws == [] then []
    else ResolvedAll(s, ws[..|ws| - 1]) + [Resolved(I.WrittenAll(s, ws[..|ws| - 1]), ws[|ws| - 1])]
  }

  ghost predicate SameButCounters(s: S3, t: S3) {
    t == s.(nextUser := t.nextUser, nextKey := t.nextKey)
  }

  lemma ResolvedDoes(s: S3, t: S3, w: I.Write)
    requires SameButCounters(s, t)
    ensures SameButCounters(I.Written(s, w), Done(t, Resolved(s, w)))
  {
    hide Mutated, Reconciled, WithoutUser, I.Dropped, UserId, NextUser;
  }

  /** Writing is carrying out the effects with the ids that were allocated on the way. */
  lemma {:induction false} WritesAreEffects(s: S3, ws: seq<I.Write>)
    ensures SameButCounters(I.WrittenAll(s, ws), DoneAll(s, ResolvedAll(s, ws)))
    decreases |ws|
  {
    if ws != [] {
      var front, last := ws[..|ws| - 1], ws[|ws| - 1];
      WritesAreEffects(s, front);
      ResolvedDoes(I.WrittenAll(s, front), DoneAll(s, ResolvedAll(s, front)), last);
      assert ResolvedAll(s, ws)[..|ws| - 1] == ResolvedAll(s, front) by { SameLength(s, front); }
      hide Done, I.Written, SameButCounters, Resolved;
    }
  }

  lemma {:induction false} SameLength(s: S3, ws: seq<I.Write>)
    ensures |ResolvedAll(s, ws)| == |ws|
    decreases |ws|
  {
    if ws != [] { SameLength(s, ws[..|ws| - 1]); }
  }

  // ---------------------------------------------------------------- whose effect it is

  predicate Of(e: Effect, a: Account) {
    match e
    case MintUser(n, id) => n == a.username && id == a.authId
    case DropUser(id) => id == a.authId
    case MintKey(_, owner) => owner == a.authId
    case DropOwnedKey(_, owner) => owner == a.authId
    case WritePolicy(_, op) => P.Touches(op, PolicySid(a.username))
    case WriteAcl(_, op) => op.trustee == a.authId
  }

  function OnlyOf(es: seq<Effect>, a: Account): seq<Effect>
    decreases |es|
  {
    if es == [] then []
    else
      var front, last := OnlyOf(es[..|es| - 1], a), es[|es| - 1];
      if Of(last, a) then front + [last] else front
  }

  predicate Distinct(accounts: set<Account>) {
    forall a, b | a in accounts && b in accounts && a != b :: a.username != b.username && a.authId != b.authId
  }

  /** Every effect is that of one of the accounts. */
  predicate Belong(es: seq<Effect>, accounts: set<Account>) {
    forall e <- es :: exists a | a in accounts :: Of(e, a)
  }

  /** What belongs to one account: its user, keys, statements and access entries. */
  ghost predicate SameFor(s: S3, t: S3, a: Account) {
    && SameUser(s.users, t.users, a.username) && Owned(s.keys, a.authId) == Owned(t.keys, a.authId)
    && SameStatements(s.policies, t.policies, PolicySid(a.username)) && SameEntries(s.acls, t.acls, a.authId)
  }

  predicate SameUser(u: Users, v: Users, name: string) {
    (name in u <==> name in v) && (name in u ==> u[name] == v[name])
  }

  ghost predicate SameStatements(p: Policies, q: Policies, sid: string) {
    forall b :: P.OfSid(PolicyOf(p, b).statements, sid) == P.OfSid(PolicyOf(q, b).statements, sid)
  }

  ghost predicate SameEntries(p: Acls, q: Acls, id: AuthId) {
    forall f :: A.Of(AclOf(p, f), id) == A.Of(AclOf(q, f), id)
  }

  // ---------------------------------------------------------------- one effect

  lemma MutatedOnSid(p: Policies, bucket: string, op: P.Op, sid: string)
    ensures forall b :: P.OfSid(PolicyOf(Mutated(p, bucket, op), b).statements, sid)
                        == if b == bucket then P.AfterOp(op, sid, P.OfSid(PolicyOf(p, b).statements, sid))
                           else P.OfSid(PolicyOf(p, b).statements, sid)
  {
    P.ApplyOnSid(op, PolicyOf(p, bucket), sid);
    hide P.Apply, P.AfterOp, P.OfSid;
  }

  /** The entries one operation leaves an account with: none but its own trustee's are concerned, and a grant
      keeps an entry that already is the desired one. */
  function AfterReconciling(op: A.Op, t: string, entries: seq<A.Ace>): seq<A.Ace> {
    if op.Grant? && op.trustee == t && |entries| == 1 && A.SameAce(entries[0], A.Desired(t, op.readOnly)) then entries
    else A.AfterOp(op, t, entries)
  }

  lemma ReconciledAclOn(acl: seq<A.Ace>, op: A.Op, t: string)
    ensures A.Of(if A.Settled(op, acl) then acl else A.Apply(op, acl), t) == AfterReconciling(op, t, A.Of(acl, t))
  {
    A.ApplyOnEntries(op, acl, t);
    A.WithoutNobody(acl, op.trustee);
    hide A.Apply, A.Of, A.Without, A.SameAce;
  }

  lemma ReconciledOn(p: Acls, file: FileId, op: A.Op, t: string)
    ensures forall f :: A.Of(AclOf(Reconciled(p, file, op), f), t)
                        == if f == file then AfterReconciling(op, t, A.Of(AclOf(p, f), t)) else A.Of(AclOf(p, f), t)
  {
    ReconciledAclOn(AclOf(p, file), op, t);
    hide A.Apply, A.Of, A.Settled, AfterReconciling;
  }

  /** An account's own effect depends on nothing but what belongs to it. */
  lemma OwnEffect(s: S3, t: S3, e: Effect, a: Account)
    requires Of(e, a) && SameFor(s, t, a)
    ensures SameFor(Done(s, e), Done(t, e), a)
  {
    hide Mutated, Reconciled, PolicyOf, AclOf;
    match e
    case WritePolicy(b, op) =>
      MutatedOnSid(s.policies, b, op, PolicySid(a.username));
      MutatedOnSid(t.policies, b, op, PolicySid(a.username));
      hide P.AfterOp, P.OfSid, SameUser, SameEntries, Owned;
    case WriteAcl(f, op) =>
      ReconciledOn(s.acls, f, op, a.authId);
      ReconciledOn(t.acls, f, op, a.authId);
      hide AfterReconciling, A.Of, SameUser, SameStatements, Owned;
    case DropOwnedKey(k, owner) =>
      DroppedOwned(s.keys, k, owner);
      DroppedOwned(t.keys, k, owner);
      hide Owned, I.Dropped, SameUser, SameStatements, SameEntries;
    case MintKey(k, owner) =>
      MintedOwned(s.keys, k, owner);
      MintedOwned(t.keys, k, owner);
      hide Owned, SameUser, SameStatements, SameEntries;
    case _ => hide SameStatements, SameEntries, Owned;
  }

  lemma DroppedOwned(keys: Keys, k: KeyId, owner: AuthId)
    ensures Owned(I.Dropped(keys, k, owner), owner) == Owned(keys, owner) - {k}
  {
  }

  lemma MintedOwned(keys: Keys, k: KeyId, owner: AuthId)
    ensures Owned(keys[k := owner], owner) == Owned(keys, owner) + {k}
  {
  }

  /** The ids in use are the accounts' own, and a key to be minted is new or has been minted for its owner. */
  ghost predicate Allocated(s: S3, accounts: set<Account>, es: seq<Effect>) {
    && (forall a, n | a in accounts && n in s.users && s.users[n] == a.authId :: n == a.username)
    && (forall e, k | e in es && e.MintKey? && k in s.keys && k == e.key :: s.keys[k] == e.owner)
    && (forall e, f | e in es && f in es && e.MintKey? && f.MintKey? && e.key == f.key :: e.owner == f.owner)
  }

  lemma AllocatedStays(s: S3, accounts: set<Account>, es: seq<Effect>, e: Effect)
    requires Allocated(s, accounts, es) && e in es && Distinct(accounts) && Belong(es, accounts)
    ensures Allocated(Done(s, e), accounts, es)
  {
    var b :| b in accounts && Of(e, b);
    hide Mutated, Reconciled;
  }

  /** An effect of another account touches nothing that belongs to this one. */
  lemma OtherEffect(s: S3, accounts: set<Account>, es: seq<Effect>, e: Effect, a: Account, b: Account)
    requires Allocated(s, accounts, es) && e in es && Distinct(accounts)
    requires a in accounts && b in accounts && a != b && Of(e, b)
    ensures SameFor(s, Done(s, e), a)
  {
    hide Mutated, Reconciled, PolicyOf, AclOf;
    SidsDiffer(a.username, b.username);
    match e
    case WritePolicy(bucket, op) =>
      MutatedOnSid(s.policies, bucket, op, PolicySid(a.username));
      hide P.OfSid, Allocated;
    case WriteAcl(f, op) =>
      ReconciledOn(s.acls, f, op, a.authId);
      hide A.Of, Allocated;
    case MintKey(k, owner) =>
      assert k in s.keys ==> s.keys[k] == owner;
      assert Owned(s.keys[k := owner], a.authId) == Owned(s.keys, a.authId);
    case DropOwnedKey(k, owner) =>
      assert Owned(I.Dropped(s.keys, k, owner), a.authId) == Owned(s.keys, a.authId);
    case _ =>
  }

  lemma NotBoth(accounts: set<Account>, e: Effect, a: Account, b: Account)
    requires Distinct(accounts) && a in accounts && b in accounts && Of(e, a) && Of(e, b)
    ensures a == b
  {
    if a.username != b.username { SidsDiffer(a.username, b.username); }
  }

  // ---------------------------------------------------------------- any interleaving

  lemma {:induction false} AllocatedAlways(s: S3, accounts: set<Account>, es: seq<Effect>, done: seq<Effect>)
    requires Allocated(s, accounts, es) && Distinct(accounts) && Belong(es, accounts) && forall e <- done :: e in es
    ensures Allocated(DoneAll(s, done), accounts, es)
    decreases |done|
  {
    if done != [] {
      AllocatedAlways(s, accounts, es, done[..|done| - 1]);
      AllocatedStays(DoneAll(s, done[..|done| - 1]), accounts, es, done[|done| - 1]);
      hide Allocated, Done, Belong, Distinct;
    }
  }

  lemma {:induction false} IsolatedSoFar(s: S3, accounts: set<Account>, es: seq<Effect>, done: seq<Effect>, a: Account)
    requires Allocated(s, accounts, es) && Distinct(accounts) && Belong(es, accounts) && a in accounts
    requires forall e <- done :: e in es
    ensures SameFor(DoneAll(s, done), DoneAll(s, OnlyOf(done, a)), a)
    decreases |done|
  {
    if done != [] {
      var front, e := done[..|done| - 1], done[|done| - 1];
      IsolatedSoFar(s, accounts, es, front, a);
      var now, own := DoneAll(s, front), DoneAll(s, OnlyOf(front, a));
      if Of(e, a) {
        OwnEffect(now, own, e, a);
        assert (OnlyOf(front, a) + [e])[..|OnlyOf(front, a)|] == OnlyOf(front, a);
      } else {
        assert e in done && e in es;
        var b :| b in accounts && Of(e, b);
        AllocatedAlways(s, accounts, es, front);
        OtherEffect(now, accounts, es, e, a, b);
        hide SameFor;
        SameForChain(now, Done(now, e), own, a);
      }
      hide SameFor, Done, Allocated, Belong, Distinct;
    }
  }

  lemma SameForChain(s: S3, t: S3, r: S3, a: Account)
    requires SameFor(s, t, a) && SameFor(s, r, a)
    ensures SameFor(t, r, a)
  {
    hide A.Of, P.OfSid, Owned, PolicyOf, AclOf, PolicySid;
  }

  lemma {:induction false} KeysInOrder(s: S3, ws: seq<I.Write>)
    ensures s.nextKey <= I.WrittenAll(s, ws).nextKey
    ensures forall e <- ResolvedAll(s, ws) :: e.MintKey? ==> s.nextKey <= e.key < I.WrittenAll(s, ws).nextKey
    ensures forall e, f | e in ResolvedAll(s, ws) && f in ResolvedAll(s, ws) && e.MintKey? && f.MintKey?
            && e.key == f.key ::
              e.owner == f.owner
    decreases |ws|
  {
    if ws != [] {
      KeysInOrder(s, ws[..|ws| - 1]);
      hide Mutated, Reconciled, WithoutUser, I.Dropped, UserId, NextUser;
    }
  }

  /** What Core allocates on the way never collides. */
  lemma ResolvedIsAllocated(s: S3, accounts: set<Account>, ws: seq<I.Write>)
    requires forall k <- s.keys :: k < s.nextKey
    requires forall a, n | a in accounts && n in s.users && s.users[n] == a.authId :: n == a.username
    ensures Allocated(s, accounts, ResolvedAll(s, ws))
  {
    KeysInOrder(s, ws);
    hide ResolvedAll, I.WrittenAll;
  }

  /** One account's effects after the other's, in the given order. */
  function Sequential(es: seq<Effect>, order: seq<Account>): seq<Effect>
    decreases |order|
  {
    if order == [] then [] else Sequential(es, order[..|order| - 1]) + OnlyOf(es, order[|order| - 1])
  }

  lemma {:induction false} OnlyOfAppend(es: seq<Effect>, fs: seq<Effect>, a: Account)
    ensures OnlyOf(es + fs, a) == OnlyOf(es, a) + OnlyOf(fs, a)
    decreases |fs|
  {
    if fs == [] {
      assert es + fs == es;
    } else {
      assert (es + fs)[..|es + fs| - 1] == es + fs[..|fs| - 1];
      OnlyOfAppend(es, fs[..|fs| - 1], a);
      hide Of;
    }
  }

  lemma {:induction false} OnlyOfIs(es: seq<Effect>, a: Account)
    ensures forall e :: e in OnlyOf(es, a) <==> e in es && Of(e, a)
    decreases |es|
  {
    if es != [] {
      OnlyOfIs(es[..|es| - 1], a);
      assert es == es[..|es| - 1] + [es[|es| - 1]];
      hide Of;
    }
  }

  lemma {:induction false} AllOrNone(es: seq<Effect>, a: Account)
    ensures (forall e <- es :: Of(e, a)) ==> OnlyOf(es, a) == es
    ensures (forall e <- es :: !Of(e, a)) ==> OnlyOf(es, a) == []
    decreases |es|
  {
    if es != [] {
      AllOrNone(es[..|es| - 1], a);
      assert es == es[..|es| - 1] + [es[|es| - 1]];
      hide Of;
    }
  }

  lemma OnlyOfOther(accounts: set<Account>, es: seq<Effect>, a: Account, b: Account)
    requires Distinct(accounts) && a in accounts && b in accounts
    ensures OnlyOf(OnlyOf(es, b), a) == if a == b then OnlyOf(es, a) else []
  {
    OnlyOfIs(es, b);
    forall e | e in OnlyOf(es, b) && Of(e, a) ensures a == b { NotBoth(accounts, e, a, b); }
    AllOrNone(OnlyOf(es, b), a);
    hide Of, Distinct, OnlyOf;
  }

  /** In a sequential order of all accounts each account has the same effects, in the same order. */
  lemma {:induction false} SequentialKeeps(accounts: set<Account>, es: seq<Effect>, order: seq<Account>, a: Account)
    requires Distinct(accounts) && a in accounts && (forall b <- order :: b in accounts)
    requires forall i, j | 0 <= i < j < |order| :: order[i] != order[j]
    ensures OnlyOf(Sequential(es, order), a) == if a in order then OnlyOf(es, a) else []
    decreases |order|
  {
    if order != [] {
      var front, b := order[..|order| - 1], order[|order| - 1];
      assert order == front + [b];
      assert a in order <==> a in front || a == b;
      SequentialKeeps(accounts, es, front, a);
      OnlyOfAppend(Sequential(es, front), OnlyOf(es, b), a);
      OnlyOfOther(accounts, es, a, b);
      assert a == b ==> a !in front;
      hide OnlyOf, Of, Distinct;
    }
  }

  lemma {:induction false} SequentialIsPart(es: seq<Effect>, order: seq<Account>)
    ensures forall e <- Sequential(es, order) :: e in es
    decreases |order|
  {
    if order != [] {
      SequentialIsPart(es, order[..|order| - 1]);
      OnlyOfIs(es, order[|order| - 1]);
      hide OnlyOf;
    }
  }

  lemma {:induction false} NoneOf(accounts: set<Account>, es: seq<Effect>, order: seq<Account>, a: Account)
    requires Distinct(accounts) && a in accounts && a !in order && (forall b <- order :: b in accounts)
    requires forall e <- es :: exists b | b in order :: Of(e, b)
    ensures OnlyOf(es, a) == []
  {
    forall e | e in es ensures !Of(e, a) {
      var b :| b in order && Of(e, b);
      if Of(e, a) { NotBoth(accounts, e, a, b); }
    }
    AllOrNone(es, a);
  }

  /** Any interleaving of the grants and revokes of different accounts leaves every account, one of theirs or
      any other, with what the sequential order leaves it with, whichever that is. */
  lemma Serializable(s: S3, accounts: set<Account>, es: seq<Effect>, order: seq<Account>, a: Account)
    requires Allocated(s, accounts, es) && Distinct(accounts) && a in accounts
    requires forall e <- es :: exists b | b in order :: Of(e, b)
    requires (forall b <- order :: b in accounts) && forall i, j | 0 <= i < j < |order| :: order[i] != order[j]
    ensures SameFor(DoneAll(s, es), DoneAll(s, Sequential(es, order)), a)
  {
    assert Belong(es, accounts) by {
      forall e | e in es ensures exists b | b in accounts :: Of(e, b) { var b :| b in order && Of(e, b); }
    }
    var fs := Sequential(es, order);
    SequentialIsPart(es, order);
    SequentialKeeps(accounts, es, order, a);
    if a !in order { NoneOf(accounts, es, order, a); }
    hide Allocated, Distinct, Belong, SameFor, Sequential, OnlyOf, DoneAll, Of;
    IsolatedSoFar(s, accounts, es, es, a);
    IsolatedSoFar(s, accounts, es, fs, a);
    SameForBack(DoneAll(s, es), DoneAll(s, fs), DoneAll(s, OnlyOf(es, a)), a);
  }

  lemma SameForBack(s: S3, t: S3, r: S3, a: Account)
    requires SameFor(s, r, a) && SameFor(t, r, a)
    ensures SameFor(s, t, a)
  {
    hide A.Of, P.OfSid, Owned, PolicyOf, AclOf, PolicySid;
  }

  /** However the effects of several accounts are interleaved, each account is left with what its own effects
      alone would have left it with; one that has none is left as it was. */
  lemma EachAccountIsIsolated(s: S3, accounts: set<Account>, es: seq<Effect>, a: Account)
    requires Allocated(s, accounts, es) && Distinct(accounts) && Belong(es, accounts) && a in accounts
    ensures SameFor(DoneAll(s, es), DoneAll(s, OnlyOf(es, a)), a)
  {
    IsolatedSoFar(s, accounts, es, es, a);
  }

  // ---------------------------------------------------------------- the order of the lists

  /** Two grants on one bucket, whose statements are written in one order and whose entries in the other. */
  function Crossed(bucket: string, f: FileId, a: Account, b: Account): seq<Effect> {
    [WritePolicy(bucket, UpsertOp(a.username, a.authId, [])), WritePolicy(bucket, UpsertOp(b.username, b.authId, [])),
     WriteAcl(f, A.Grant(b.authId, false)), WriteAcl(f, A.Grant(a.authId, false))]
  }

  lemma PoliciesDone(s: S3, bucket: string, a: Account, b: Account)
    requires PolicyOf(s.policies, bucket).statements == [] && a.username != b.username
    ensures var t := Done(Done(s, WritePolicy(bucket, UpsertOp(a.username, a.authId, []))),
                          WritePolicy(bucket, UpsertOp(b.username, b.authId, [])));
            && PolicyOf(t.policies, bucket).statements
               == [P.Granted(PolicySid(a.username), a.authId, []), P.Granted(PolicySid(b.username), b.authId, [])]
            && t == s.(policies := t.policies)
  {
    SidsDiffer(a.username, b.username);
    var ga := P.Granted(PolicySid(a.username), a.authId, []);
    P.UpsertedAt([ga], P.Granted(PolicySid(b.username), b.authId, []), 1);
    hide PolicySid;
  }

  lemma AclsDone(s: S3, f: FileId, a: AuthId, b: AuthId)
    requires AclOf(s.acls, f) == [] && a != b
    ensures var t := Done(Done(s, WriteAcl(f, A.Grant(a, false))), WriteAcl(f, A.Grant(b, false)));
            AclOf(t.acls, f) == [A.Desired(a, false), A.Desired(b, false)] && t == s.(acls := t.acls)
  {
    var d, e := A.Desired(a, false), A.Desired(b, false);
    assert [d][..0] == [] && A.Of([], b) == [] && A.Without([], a) == [];
    assert A.Of([d], b) == [] && A.Without([d], b) == [d];
    hide A.SameAce, A.Of, A.Without, A.Desired;
  }

  lemma DoneFour(s: S3, w: Effect, x: Effect, y: Effect, z: Effect)
    ensures DoneAll(s, [w, x, y, z]) == Done(Done(Done(Done(s, w), x), y), z)
  {
    assert [w, x, y, z] == [] + [w] + [x] + [y] + [z];
    DoneMore(s, [], w);
    DoneMore(s, [] + [w], x);
    DoneMore(s, [] + [w] + [x], y);
    DoneMore(s, [] + [w] + [x] + [y], z);
    assert DoneAll(s, []) == s;
    hide Done, DoneAll;
  }

  lemma DoneMore(s: S3, es: seq<Effect>, e: Effect)
    ensures DoneAll(s, es + [e]) == Done(DoneAll(s, es), e)
  {
    assert (es + [e])[..|es|] == es;
  }

  lemma OnlyOfMore(es: seq<Effect>, e: Effect, a: Account)
    ensures OnlyOf(es + [e], a) == OnlyOf(es, a) + (if Of(e, a) then [e] else [])
  {
    assert (es + [e])[..|es|] == es;
  }

  lemma OnlyOfFour(w: Effect, x: Effect, y: Effect, z: Effect, a: Account)
    ensures OnlyOf([w, x, y, z], a)
            == (if Of(w, a) then [w] else []) + (if Of(x, a) then [x] else []) + (if Of(y, a) then [y] else [])
               + (if Of(z, a) then [z] else [])
  {
    assert [w, x, y, z] == [] + [w] + [x] + [y] + [z];
    OnlyOfMore([], w, a);
    OnlyOfMore([] + [w], x, a);
    OnlyOfMore([] + [w] + [x], y, a);
    OnlyOfMore([] + [w] + [x] + [y], z, a);
    assert OnlyOf([], a) == [];
    hide OnlyOf, Of;
  }

  /** The one respect in which no sequential order does: interleaved grants can leave the statements in the
      order of one sequential run and the entries in that of the other. */
  lemma ListOrderIsNotSerial(s: S3, bucket: string, f: FileId, a: Account, b: Account)
    requires PolicyOf(s.policies, bucket).statements == [] && AclOf(s.acls, f) == []
    requires a.username != b.username && a.authId != b.authId
    ensures var crossed := Crossed(bucket, f, a, b);
            && DoneAll(s, crossed) != DoneAll(s, OnlyOf(crossed, a) + OnlyOf(crossed, b))
            && DoneAll(s, crossed) != DoneAll(s, OnlyOf(crossed, b) + OnlyOf(crossed, a))
  {
    var pa, pb := WritePolicy(bucket, UpsertOp(a.username, a.authId, [])),
        WritePolicy(bucket, UpsertOp(b.username, b.authId, []));
    var ea, eb := WriteAcl(f, A.Grant(a.authId, false)), WriteAcl(f, A.Grant(b.authId, false));
    CrossedParts(bucket, f, a, b);
    DoneFour(s, pa, pb, eb, ea);
    DoneFour(s, pa, ea, pb, eb);
    DoneFour(s, pb, eb, pa, ea);
    PolicyAclSwap(Done(s, pa), bucket, UpsertOp(b.username, b.authId, []), f, A.Grant(a.authId, false));
    PolicyAclSwap(Done(s, pb), bucket, UpsertOp(a.username, a.authId, []), f, A.Grant(b.authId, false));
    PoliciesDone(s, bucket, a, b);
    PoliciesDone(s, bucket, b, a);
    AclsDone(Done(Done(s, pa), pb), f, b.authId, a.authId);
    AclsDone(Done(Done(s, pa), pb), f, a.authId, b.authId);
    AclsDone(Done(Done(s, pb), pa), f, b.authId, a.authId);
    SidsDiffer(a.username, b.username);
    assert A.Desired(a.authId, false).trustee != A.Desired(b.authId, false).trustee;
    hide Done, DoneAll, OnlyOf, A.Desired, PolicySid, Crossed;
  }

  lemma CrossedParts(bucket: string, f: FileId, a: Account, b: Account)
    requires a.username != b.username && a.authId != b.authId
    ensures var pa, pb := WritePolicy(bucket, UpsertOp(a.username, a.authId, [])),
            WritePolicy(bucket, UpsertOp(b.username, b.authId, []));
            var ea, eb := WriteAcl(f, A.Grant(a.authId, false)), WriteAcl(f, A.Grant(b.authId, false));
            && OnlyOf(Crossed(bucket, f, a, b), a) + OnlyOf(Crossed(bucket, f, a, b), b) == [pa, ea, pb, eb]
            && OnlyOf(Crossed(bucket, f, a, b), b) + OnlyOf(Crossed(bucket, f, a, b), a) == [pb, eb, pa, ea]
  {
    SidsDiffer(a.username, b.username);
    var es := Crossed(bucket, f, a, b);
    OnlyOfFour(es[0], es[1], es[2], es[3], a);
    OnlyOfFour(es[0], es[1], es[2], es[3], b);
    hide PolicySid, OnlyOf;
  }

  lemma PolicyAclSwap(s: S3, bucket: string, op: P.Op, f: FileId, aclOp: A.Op)
    ensures Done(Done(s, WriteAcl(f, aclOp)), WritePolicy(bucket, op))
            == Done(Done(s, WritePolicy(bucket, op)), WriteAcl(f, aclOp))
  {
    hide Mutated, Reconciled;
  }
}
