/** Granting and revoking directory access: the ACL as one document of the ETag loop. */
module AclGrants {
  import opened EtagClient
  import opened EtagLoop

  datatype Ace = Ace(kind: string, flags: seq<string>, trustee: string, rights: seq<string>)

  datatype Op = Grant(trustee: string, readOnly: bool) | Revoke(trustee: string)

  const RIGHTS_RW := ["READ", "READ_EA", "READ_ATTR", "READ_ACL", "WRITE_EA", "WRITE_ATTR", "EXECUTE", "MODIFY",
                      "EXTEND", "DELETE_CHILD", "SYNCHRONIZE"]
  const RIGHTS_RO := ["READ", "READ_EA", "READ_ATTR", "READ_ACL", "EXECUTE", "SYNCHRONIZE"]
  const INHERIT := ["OBJECT_INHERIT", "CONTAINER_INHERIT"]
  const GRANT_ATTEMPTS := 4

  function Desired(trustee: string, readOnly: bool): Ace {
    Ace("ALLOWED", INHERIT, trustee, if readOnly then RIGHTS_RO else RIGHTS_RW)
  }

  /** The entries of one trustee, in order. */
  function Of(aces: seq<Ace>, t: string): seq<Ace>
    decreases |aces|
  {
    if aces == [] then []
    else Of(aces[..|aces| - 1], t) + (if aces[|aces| - 1].trustee == t then [aces[|aces| - 1]] else [])
  }

  /** The entries of everyone else, in order. */
  function Without(aces: seq<Ace>, t: string): (r: seq<Ace>)
    ensures |r| <= |aces|
    ensures forall a <- r :: a in aces && a.trustee != t
    decreases |aces|
  {
    if aces == [] then []
    else Without(aces[..|aces| - 1], t) + (if aces[|aces| - 1].trustee == t then [] else [aces[|aces| - 1]])
  }

  /** Lists that agree up to order, as comparing sorted copies finds out. */
  predicate SameStrings(left: seq<string>, right: seq<string>) {
    multiset(left) == multiset(right)
  }

  predicate SameAce(a: Ace, desired: Ace) {
    a.kind == desired.kind && a.trustee == desired.trustee
    && SameStrings(a.flags, desired.flags) && SameStrings(a.rights, desired.rights)
  }

  /** The trustee has exactly one entry and it is the desired one. */
  predicate ExactGrant(aces: seq<Ace>, desired: Ace) {
    |Of(aces, desired.trustee)| == 1 && SameAce(Of(aces, desired.trustee)[0], desired)
  }

  function Apply(op: Op, aces: seq<Ace>): seq<Ace> {
    match op
    case Grant(t, ro) => Without(aces, t) + [Desired(t, ro)]
    case Revoke(t) => Without(aces, t)
  }

  predicate Settled(op: Op, aces: seq<Ace>) {
    match op
    case Grant(t, ro) => ExactGrant(aces, Desired(t, ro))
    case Revoke(t) => |Without(aces, t)| == |aces|
  }

  function OnNoAcl(op: Op): OnMissing<seq<Ace>> {
    if op.Grant? then GiveUp else NothingToDo
  }

  function AclLoop(): Loop<seq<Ace>, Op> {
    Loop(Apply, Settled, OnNoAcl, [], GRANT_ATTEMPTS)
  }

  // ---------------------------------------------------------------- the loops inside one attempt

  lemma OfPrefix(aces: seq<Ace>, i: nat, t: string)
    requires i < |aces|
    ensures Of(aces[..i + 1], t) == Of(aces[..i], t) + (if aces[i].trustee == t then [aces[i]] else [])
    ensures Without(aces[..i + 1], t) == Without(aces[..i], t) + (if aces[i].trustee == t then [] else [aces[i]])
  {
    assert aces[..i + 1][..i] == aces[..i];
  }

  /** Scans with a running count and stops at the first entry that cannot be the grant. */
  method HasExactTrusteeGrant(aces: seq<Ace>, desired: Ace) returns (found: bool)
    ensures found == ExactGrant(aces, desired)
  {
    var matches := 0;
    var i := 0;
    assert aces[..|aces|] == aces && Of(aces[..0], desired.trustee) == [];
    hide Of, SameStrings;
    while i < |aces|
      invariant 0 <= i <= |aces|
      invariant matches == |Of(aces[..i], desired.trustee)| <= 1
      invariant matches == 1 ==> ExactGrant(aces[..i], desired)
    {
      var ace := aces[i];
      OfPrefix(aces, i, desired.trustee);
      if ace.trustee == desired.trustee {
        matches := matches + 1;
        if matches > 1 || !SameAce(ace, desired) {
          CannotBecomeExact(aces, i + 1, desired);
          return false;
        }
      }
      i := i + 1;
    }
    return matches == 1;
  }

  lemma CannotBecomeExact(aces: seq<Ace>, i: nat, desired: Ace)
    requires i <= |aces| && |Of(aces[..i], desired.trustee)| >= 1 && !ExactGrant(aces[..i], desired)
    ensures !ExactGrant(aces, desired)
  {
    OfGrows(aces, i, desired.trustee);
  }

  lemma {:induction false} OfGrows(aces: seq<Ace>, i: nat, t: string)
    requires i <= |aces|
    ensures Of(aces[..i], t) <= Of(aces, t)
    decreases |aces|
  {
    if i == |aces| {
      assert aces[..i] == aces;
    } else {
      assert aces[..|aces| - 1][..i] == aces[..i];
      OfGrows(aces[..|aces| - 1], i, t);
    }
  }

  method AppendInPlace(aces: array<Ace>, n: nat, ace: Ace)
    requires n < aces.Length
    modifies aces
    ensures aces[..n + 1] == old(aces[..n]) + [ace]
    ensures forall k | n < k < aces.Length :: aces[k] == old(aces[k])
  {
    aces[n] := ace;
  }

  /** The filter writes its result over the front of the slice it reads. */
  method FilterInPlace(aces: array<Ace>, t: string) returns (n: nat)
    modifies aces
    ensures n <= aces.Length && aces[..n] == Without(old(aces[..]), t)
  {
    ghost var before := aces[..];
    n := 0;
    var i := 0;
    assert before[..0] == [] && before[..aces.Length] == before && Without(before[..0], t) == [];
    hide Without;
    while i < aces.Length
      invariant 0 <= n <= i <= aces.Length
      invariant aces[..n] == Without(before[..i], t)
      invariant forall k | i <= k < aces.Length :: aces[k] == before[k]
    {
      var ace := aces[i];
      OfPrefix(before, i, t);
      if ace.trustee != t {
        AppendInPlace(aces, n, ace);
        n := n + 1;
      }
      i := i + 1;
    }
  }

  // ---------------------------------------------------------------- one operation

  lemma {:induction false} OfConcat(a: seq<Ace>, b: seq<Ace>, t: string)
    ensures Of(a + b, t) == Of(a, t) + Of(b, t)
    decreases |b|
  {
    if b == [] {
      assert a + b == a;
    } else {
      assert (a + b)[..|a + b| - 1] == a + b[..|b| - 1];
      OfConcat(a, b[..|b| - 1], t);
    }
  }

  lemma {:induction false} WithoutConcat(a: seq<Ace>, b: seq<Ace>, t: string)
    ensures Without(a + b, t) == Without(a, t) + Without(b, t)
    decreases |b|
  {
    if b == [] {
      assert a + b == a;
    } else {
      assert (a + b)[..|a + b| - 1] == a + b[..|b| - 1];
      WithoutConcat(a, b[..|b| - 1], t);
    }
  }

  /** Removing one trustee's entries leaves every other trustee's entries in content and order. */
  lemma {:induction false} OfWithout(aces: seq<Ace>, t: string, u: string)
    ensures Of(Without(aces, t), u) == if u == t then [] else Of(aces, u)
    decreases |aces|
  {
    if aces != [] {
      var front, last := aces[..|aces| - 1], aces[|aces| - 1];
      OfWithout(front, t, u);
      OfConcat(Without(front, t), if last.trustee == t then [] else [last], u);
    }
  }

  lemma {:induction false} WithoutTwice(aces: seq<Ace>, t: string, u: string)
    ensures Without(Without(aces, t), u) == Without(Without(aces, u), t)
    ensures Without(Without(aces, t), t) == Without(aces, t)
    decreases |aces|
  {
    if aces != [] {
      var front, last := aces[..|aces| - 1], aces[|aces| - 1];
      WithoutTwice(front, t, u);
      WithoutConcat(Without(front, t), if last.trustee == t then [] else [last], u);
      WithoutConcat(Without(front, u), if last.trustee == u then [] else [last], t);
      WithoutConcat(Without(front, t), if last.trustee == t then [] else [last], t);
    }
  }

  lemma {:induction false} CountsAddUp(aces: seq<Ace>, t: string)
    ensures |Of(aces, t)| + |Without(aces, t)| == |aces|
    decreases |aces|
  {
    if aces != [] { CountsAddUp(aces[..|aces| - 1], t); }
  }

  lemma {:induction false} NothingToDrop(aces: seq<Ace>, t: string)
    requires |Without(aces, t)| == |aces|
    ensures Without(aces, t) == aces
    decreases |aces|
  {
    if aces != [] {
      var front, last := aces[..|aces| - 1], aces[|aces| - 1];
      assert last.trustee != t;
      assert Without(aces, t) == Without(front, t) + [last];
      NothingToDrop(front, t);
      hide Without;
      assert aces == front + [last];
    }
  }

  lemma WithoutNobody(aces: seq<Ace>, t: string)
    ensures |Without(aces, t)| == |aces| <==> Of(aces, t) == []
    ensures Of(aces, t) == [] ==> Without(aces, t) == aces
  {
    CountsAddUp(aces, t);
    hide Of, Without;
    if |Without(aces, t)| == |aces| { NothingToDrop(aces, t); }
  }

  /** What one operation does to one trustee's entries. */
  function AfterOp(op: Op, t: string, entries: seq<Ace>): seq<Ace> {
    if op.trustee != t then entries else if op.Grant? then [Desired(t, op.readOnly)] else []
  }

  lemma ApplyOnEntries(op: Op, aces: seq<Ace>, t: string)
    ensures Of(Apply(op, aces), t) == AfterOp(op, t, Of(aces, t))
  {
    OfWithout(aces, op.trustee, t);
    if op.Grant? {
      OfConcat(Without(aces, op.trustee), [Desired(op.trustee, op.readOnly)], t);
      assert [Desired(op.trustee, op.readOnly)][..0] == [];
    }
  }

  /** The entries of everyone but the operation's trustee keep their content and their order. */
  lemma ApplyKeepsOthers(op: Op, aces: seq<Ace>)
    ensures Without(Apply(op, aces), op.trustee) == Without(aces, op.trustee)
  {
    WithoutTwice(aces, op.trustee, op.trustee);
    if op.Grant? {
      WithoutConcat(Without(aces, op.trustee), [Desired(op.trustee, op.readOnly)], op.trustee);
      assert [Desired(op.trustee, op.readOnly)][..0] == [];
    }
  }

  /** An operation finds its own effect settled. */
  lemma ApplySettles(op: Op, aces: seq<Ace>)
    ensures Settled(op, Apply(op, aces))
  {
    ApplyOnEntries(op, aces, op.trustee);
    WithoutNobody(Apply(op, aces), op.trustee);
  }

  /** A revoke commutes with any operation on another trustee, and neither settles the other. */
  lemma RevokeCommutes(op: Op, aces: seq<Ace>, t: string)
    requires op.trustee != t
    ensures Apply(op, Apply(Revoke(t), aces)) == Apply(Revoke(t), Apply(op, aces))
    ensures Settled(op, Apply(Revoke(t), aces)) <==> Settled(op, aces)
    ensures Settled(Revoke(t), Apply(op, aces)) <==> Settled(Revoke(t), aces)
  {
    WithoutTwice(aces, t, op.trustee);
    OfWithout(aces, t, op.trustee);
    ApplyOnEntries(op, aces, t);
    WithoutNobody(aces, t);
    WithoutNobody(aces, op.trustee);
    WithoutNobody(Without(aces, t), op.trustee);
    WithoutNobody(Apply(op, aces), t);
    if op.Grant? {
      var d := [Desired(op.trustee, op.readOnly)];
      WithoutConcat(Without(aces, op.trustee), d, t);
      assert d[..0] == [] && Without(d, t) == d;
    }
  }

  // ---------------------------------------------------------------- what the entries allow

  const WRITE_RIGHTS := {"WRITE_EA", "WRITE_ATTR", "MODIFY", "EXTEND", "DELETE_CHILD"}

  /** The entry lets its trustee read the directory and everything below, and write it unless `readOnly`. */
  predicate Allows(a: Ace, readOnly: bool) {
    && a.kind == "ALLOWED" && "OBJECT_INHERIT" in a.flags && "CONTAINER_INHERIT" in a.flags
    && "READ" in a.rights && "EXECUTE" in a.rights
    && (readOnly ==> forall r <- WRITE_RIGHTS :: r !in a.rights)
    && (!readOnly ==> forall r <- WRITE_RIGHTS :: r in a.rights)
  }

  /** The trustee has an entry, and each of its entries allows just that. */
  predicate HasAccess(aces: seq<Ace>, t: string, readOnly: bool) {
    (exists a <- aces :: a.trustee == t) && forall a <- aces :: a.trustee == t ==> Allows(a, readOnly)
  }

  predicate NoAccess(aces: seq<Ace>, t: string) {
    forall a <- aces :: a.trustee != t
  }

  lemma {:induction false} OfIs(aces: seq<Ace>, t: string)
    ensures forall a :: a in Of(aces, t) <==> a in aces && a.trustee == t
    decreases |aces|
  {
    if aces != [] {
      OfIs(aces[..|aces| - 1], t);
      assert aces == aces[..|aces| - 1] + [aces[|aces| - 1]];
    }
  }

  lemma SameAceAllows(a: Ace, t: string, readOnly: bool)
    requires SameAce(a, Desired(t, readOnly))
    ensures Allows(a, readOnly)
  {
    var d := Desired(t, readOnly);
    DesiredAllows(t, readOnly);
    SameMembers(a.flags, d.flags);
    SameMembers(a.rights, d.rights);
    hide Allows, Desired, SameStrings;
    AllowsAlike(a, d, readOnly);
  }

  lemma SameMembers(left: seq<string>, right: seq<string>)
    requires SameStrings(left, right)
    ensures forall x :: x in left <==> x in right
  {
    assert forall x :: x in left <==> x in multiset(left);
    assert forall x :: x in right <==> x in multiset(right);
  }

  lemma AllowsAlike(a: Ace, d: Ace, readOnly: bool)
    requires a.kind == d.kind && (forall x :: x in a.flags <==> x in d.flags)
             && (forall x :: x in a.rights <==> x in d.rights)
    requires Allows(d, readOnly)
    ensures Allows(a, readOnly)
  {
  }

  lemma DesiredAllows(t: string, readOnly: bool)
    ensures Allows(Desired(t, readOnly), readOnly)
  {
    var d := Desired(t, readOnly);
    assert d.flags[0] == "OBJECT_INHERIT" && d.flags[1] == "CONTAINER_INHERIT" && d.rights[0] == "READ";
    if readOnly {
      assert d.rights[4] == "EXECUTE";
    } else {
      assert d.rights[6] == "EXECUTE" && d.rights[4] == "WRITE_EA" && d.rights[5] == "WRITE_ATTR";
      assert d.rights[7] == "MODIFY" && d.rights[8] == "EXTEND" && d.rights[9] == "DELETE_CHILD";
    }
  }

  /** The desired entry gives the access asked for, and no entry gives none. */
  lemma ExactGrantGivesAccess(aces: seq<Ace>, t: string, readOnly: bool)
    ensures ExactGrant(aces, Desired(t, readOnly)) ==> HasAccess(aces, t, readOnly)
    ensures Of(aces, t) == [] ==> NoAccess(aces, t)
  {
    OfIs(aces, t);
    hide Of, Allows, SameAce, Desired;
    if ExactGrant(aces, Desired(t, readOnly)) {
      assert Desired(t, readOnly).trustee == t by { DesiredTrustee(t, readOnly); }
      var a := Of(aces, t)[0];
      assert a in Of(aces, t);
      SameAceAllows(a, t, readOnly);
    }
  }

  lemma DesiredTrustee(t: string, readOnly: bool)
    ensures Desired(t, readOnly).trustee == t
  {
  }

  // ---------------------------------------------------------------- every run

  /** The entries of `t` after a log of operations: the last operation on `t` decides. */
  function EntriesAfter(entries: seq<Ace>, log: seq<Op>, t: string): seq<Ace>
    decreases |log|
  {
    if log == [] then entries else AfterOp(log[|log| - 1], t, EntriesAfter(entries, log[..|log| - 1], t))
  }

  lemma {:induction false} FoldOnEntries(aces: seq<Ace>, log: seq<Op>, t: string)
    ensures Of(Fold(AclLoop(), aces, log), t) == EntriesAfter(Of(aces, t), log, t)
    decreases |log|
  {
    if log != [] {
      FoldOnEntries(aces, log[..|log| - 1], t);
      ApplyOnEntries(log[|log| - 1], Fold(AclLoop(), aces, log[..|log| - 1]), t);
    }
  }

  lemma {:induction false} LastOpDecides(entries: seq<Ace>, log: seq<Op>, t: string, i: nat)
    requires i < |log| && log[i].trustee == t && forall j | i < j < |log| :: log[j].trustee != t
    ensures EntriesAfter(entries, log, t) == if log[i].Grant? then [Desired(t, log[i].readOnly)] else []
    decreases |log|
  {
    if i < |log| - 1 {
      LastOpDecides(entries, log[..|log| - 1], t, i);
    }
  }

  lemma {:induction false} Untouched(entries: seq<Ace>, log: seq<Op>, t: string)
    requires forall op <- log :: op.trustee != t
    ensures EntriesAfter(entries, log, t) == entries
    decreases |log|
  {
    if log != [] { Untouched(entries, log[..|log| - 1], t); }
  }

  /** In any interleaving of grants and revokes, with conflicts, replays and lost responses: a trustee
      whose last committed operation is a grant has exactly the desired entry, one whose last committed
      operation is a revoke has none, and one that no committed operation names keeps its entries. */
  lemma AclFollowsLastCommit(s: State<seq<Ace>, Op>, events: seq<Event<Op>>, t: string)
    requires Initial(s)
    ensures var log, after := Run(AclLoop(), s, events).log, Value(AclLoop(), Run(AclLoop(), s, events).doc);
            forall i | 0 <= i < |log| && log[i].trustee == t && (forall j | i < j < |log| :: log[j].trustee != t) ::
              if log[i].Grant? then HasAccess(after, t, log[i].readOnly) else NoAccess(after, t)
    ensures var now := Run(AclLoop(), s, events);
            var before, after := Value(AclLoop(), s.doc), Value(AclLoop(), now.doc);
            && (forall i | 0 <= i < |now.log| && now.log[i].trustee == t
                && (forall j | i < j < |now.log| :: now.log[j].trustee != t) ::
                  Of(after, t) == if now.log[i].Grant? then [Desired(t, now.log[i].readOnly)] else [])
            && ((forall op <- now.log :: op.trustee != t) ==> Of(after, t) == Of(before, t))
  {
    var now := Run(AclLoop(), s, events);
    var before := Value(AclLoop(), s.doc);
    DocumentIsFoldOfLog(AclLoop(), s, events);
    FoldOnEntries(before, now.log, t);
    forall i | 0 <= i < |now.log| && now.log[i].trustee == t
        && (forall j | i < j < |now.log| :: now.log[j].trustee != t)
      ensures var after := Value(AclLoop(), now.doc);
              && Of(after, t) == (if now.log[i].Grant? then [Desired(t, now.log[i].readOnly)] else [])
              && if now.log[i].Grant? then HasAccess(after, t, now.log[i].readOnly) else NoAccess(after, t)
    {
      LastOpDecides(Of(before, t), now.log, t, i);
      LastEntriesGiveAccess(Value(AclLoop(), now.doc), now.log[i], t);
    }
    if forall op <- now.log :: op.trustee != t { Untouched(Of(before, t), now.log, t); }
  }

  lemma LastEntriesGiveAccess(aces: seq<Ace>, op: Op, t: string)
    requires op.trustee == t && Of(aces, t) == if op.Grant? then [Desired(t, op.readOnly)] else []
    ensures if op.Grant? then HasAccess(aces, t, op.readOnly) else NoAccess(aces, t)
  {
    hide HasAccess, NoAccess, Desired, Of;
    DesiredTrustee(t, op.Grant? && op.readOnly);
    ExactGrantGivesAccess(aces, t, op.Grant? && op.readOnly);
  }

  /** At the point where a successful grant took effect the trustee had exactly one entry, equal to the
      desired one up to the order of its flags and rights; at that of a revoke, none. */
  lemma SuccessfulCallHasItsEffect(s: State<seq<Ace>, Op>, events: seq<Event<Op>>, p: Pid)
    requires Initial(s)
    requires p in Run(AclLoop(), s, events).clients && Run(AclLoop(), s, events).clients[p].pc.Succeeded?
    ensures var now := Run(AclLoop(), s, events);
            var c := now.clients[p];
            && c.start <= c.pc.at <= |now.log| && (c.pc.wrote ==> c.pc.at < |now.log|)
            && var acl := Witnessed(AclLoop(), Value(AclLoop(), s.doc), now.log, c.pc);
            if c.op.Grant? then
              ExactGrant(acl, Desired(c.op.trustee, c.op.readOnly)) && HasAccess(acl, c.op.trustee, c.op.readOnly)
            else Of(acl, c.op.trustee) == [] && NoAccess(acl, c.op.trustee)
  {
    SuccessHasOnePoint(AclLoop(), s, events, p);
    var now := Run(AclLoop(), s, events);
    var c := now.clients[p];
    var before := Fold(AclLoop(), Value(AclLoop(), s.doc), now.log[..c.pc.at]);
    hide Settled, HasAccess, NoAccess, ExactGrant, Desired, Of, Run;
    if c.pc.wrote { ApplySettles(c.op, before); }
    SettledHasEffect(c.op, Witnessed(AclLoop(), Value(AclLoop(), s.doc), now.log, c.pc));
  }

  lemma SettledHasEffect(op: Op, aces: seq<Ace>)
    requires Settled(op, aces)
    ensures if op.Grant? then
              ExactGrant(aces, Desired(op.trustee, op.readOnly)) && HasAccess(aces, op.trustee, op.readOnly)
            else Of(aces, op.trustee) == [] && NoAccess(aces, op.trustee)
  {
    SettledGivesAccess(op, aces);
    WithoutNobody(aces, op.trustee);
    hide HasAccess, NoAccess, Of, Without, ExactGrant, Desired;
  }

  /** In every run a grant or revoke gives up for conflicts only after four changes of the ACL were committed. */
  lemma GivingUpTakesFourCommits(s: State<seq<Ace>, Op>, events: seq<Event<Op>>, e: Event<Op>)
    requires Initial(s) && AlwaysTruthful(AclLoop(), s, events) && Truthful(Run(AclLoop(), s, events), e)
    requires Exhausts(AclLoop(), Run(AclLoop(), s, events), e)
    ensures |Step(AclLoop(), Run(AclLoop(), s, events), e).log| >= Run(AclLoop(), s, events).clients[e.pid].start + 4
  {
    GivingUpTakesCommits(AclLoop(), s, events, e);
    hide Run;
  }

  // ---------------------------------------------------------------- the loops themselves

  lemma AclAfterRead(op: Op, attempt: nat, doc: Document<seq<Ace>>, committed: nat)
    ensures AfterRead(AclLoop(), op, attempt, doc, committed)
            == if doc.Missing? then (if op.Grant? then Failed else NoDocument)
               else if Settled(op, doc.value) then Succeeded(false, committed)
               else Writing(attempt, IfMatch(doc.version), Apply(op, doc.value))
    ensures AclLoop().attempts == GRANT_ATTEMPTS
  {
  }

  /** What one attempt makes of the ACL it read. */
  method Granting(aces: seq<Ace>, trustee: string, readOnly: bool) returns (found: bool, next: seq<Ace>)
    ensures found == Settled(Grant(trustee, readOnly), aces)
    ensures !found ==> next == Apply(Grant(trustee, readOnly), aces)
  {
    found := HasExactTrusteeGrant(aces, Desired(trustee, readOnly));
    if found { return true, aces; }
    var kept := WithoutTrustee(aces, trustee);
    next := kept + [Desired(trustee, readOnly)];
  }

  lemma SettledGivesAccess(op: Op, aces: seq<Ace>)
    ensures Settled(op, aces) ==>
              if op.Grant? then HasAccess(aces, op.trustee, op.readOnly) else NoAccess(aces, op.trustee)
  {
    WithoutNobody(aces, op.trustee);
    ExactGrantGivesAccess(aces, op.trustee, op.Grant? && op.readOnly);
    hide HasAccess, NoAccess, Of, Without, ExactGrant, Desired;
  }

  /** One attempt of the grant loop. */
  method GrantOnce(core: Core<seq<Ace>, Op>, me: Pid, trustee: string, readOnly: bool, attempt: nat)
      returns (ok: bool, again: bool)
    requires core.Valid() && core.l == AclLoop() && core.At(me, Grant(trustee, readOnly), Reading(attempt))
    modifies core
    ensures core.Valid() && old(core.trace) <= core.trace
    ensures !again ==> core.Finished(me, Grant(trustee, readOnly), ok)
    ensures ok ==> core.state.doc.Stored? && HasAccess(core.state.doc.value, trustee, readOnly)
    ensures again ==>
            core.At(me, Grant(trustee, readOnly), if attempt + 1 < GRANT_ATTEMPTS then Reading(attempt + 1)
                else Failed)
  {
    var op := Grant(trustee, readOnly);
    hide Settled, Apply, AclLoop, AfterRead;
    var fault, current := core.Get(me);
    AclAfterRead(op, attempt, current, |core.state.log|);
    if fault || current.Missing? { return false, false; }
    var found, next := Granting(current.value, trustee, readOnly);
    SettledGivesAccess(Grant(trustee, readOnly), current.value);
    if found { return true, false; }
    SettledGivesAccess(Grant(trustee, readOnly), next);
    ApplySettles(Grant(trustee, readOnly), current.value);
    hide HasAccess;
    var report := core.Send(me, next);
    return report.Ok?, report.Conflict?;
  }

  /** The grant loop, run by `me` while others change the ACL. Falling back to a mode change is refused
      because it could not be undone. Otherwise the loop is an execution of the state machine, so the
      results above hold of it. */
  method GrantDirectoryAccess(core: Core<seq<Ace>, Op>, me: Pid, trustee: string, readOnly: bool, fallbackChmod: bool)
    returns (ok: bool)
    requires core.Valid() && core.l == AclLoop() && me !in core.state.clients
    modifies core
    ensures core.Valid() && old(core.trace) <= core.trace
    ensures trustee == "" || fallbackChmod ==> !ok && core.trace == old(core.trace)
    ensures trustee != "" && !fallbackChmod ==> core.Finished(me, Grant(trustee, readOnly), ok)
    ensures ok ==> core.state.doc.Stored? && HasAccess(core.state.doc.value, trustee, readOnly)
  {
    if trustee == "" || fallbackChmod { return false; }
    core.Start(me, Grant(trustee, readOnly));
    hide HasAccess;
    for attempt := 0 to GRANT_ATTEMPTS
      invariant core.Valid() && old(core.trace) <= core.trace
      invariant core.At(me, Grant(trustee, readOnly), if attempt < GRANT_ATTEMPTS then Reading(attempt) else Failed)
    {
      var done, again := GrantOnce(core, me, trustee, readOnly, attempt);
      if !again { return done; }
    }
    return false;
  }

  /** The revoke loop. */
  method RevokeDirectoryAccess(core: Core<seq<Ace>, Op>, me: Pid, trustee: string) returns (ok: bool)
    requires core.Valid() && core.l == AclLoop() && me !in core.state.clients
    modifies core
    ensures core.Valid() && old(core.trace) <= core.trace
    ensures trustee == "" ==> ok && core.trace == old(core.trace)
    ensures trustee != "" ==> core.Finished(me, Revoke(trustee), ok)
    ensures ok && trustee != "" && core.state.doc.Stored? ==> NoAccess(core.state.doc.value, trustee)
  {
    if trustee == "" { return true; }
    var op := Revoke(trustee);
    hide Without, AclLoop, AfterRead;
    core.Start(me, op);
    var attempt := 0;
    while attempt < GRANT_ATTEMPTS
      invariant 0 <= attempt <= GRANT_ATTEMPTS
      invariant core.Valid() && old(core.trace) <= core.trace
      invariant core.At(me, op, if attempt < GRANT_ATTEMPTS then Reading(attempt) else Failed)
    {
      var fault, current := core.Get(me);
      AclAfterRead(op, attempt, current, |core.state.log|);
      if fault { return false; }
      if current.Missing? { return true; }
      var kept := WithoutTrustee(current.value, trustee);
      SettledGivesAccess(op, current.value);
      if |kept| == |current.value| { return true; }
      var report := core.Send(me, kept);
      if report.Ok? { return true; }
      if report.Fault? { return false; }
      attempt := attempt + 1;
    }
    return false;
  }

  method WithoutTrustee(aces: seq<Ace>, trustee: string) returns (kept: seq<Ace>)
    ensures kept == Without(aces, trustee)
  {
    var dst := new Ace[|aces|](i requires 0 <= i < |aces| => aces[i]);
    assert dst[..] == aces;
    var n := FilterInPlace(dst, trustee);
    kept := dst[..n];
  }
}
