/** Bucket policies: statements merged by Sid, and the policy as one document of the ETag loop. */
module PolicyStatements {
  import opened EtagClient
  import opened EtagLoop

  /** `principal` is the list under "Qumulo", empty when the principal has another shape. */
  datatype Statement = Statement(sid: string, effect: string, principal: seq<string>, actions: seq<string>)

  datatype Policy = Policy(version: string, statements: seq<Statement>)

  const VERSION := "2012-10-17"
  const POLICY_ATTEMPTS := 8

  datatype Op =
    | Upsert(sid: string, authId: string, actions: seq<string>)
    | Remove(sid: string, authId: string)
    | DenyByDefault

  function EmptyPolicy(): Policy { Policy(VERSION, []) }

  function Principal(authId: string): seq<string> { ["auth_id:" + authId] }

  predicate PrincipalHas(principal: seq<string>, authId: string) {
    ("auth_id:" + authId) in principal
  }

  function Granted(sid: string, authId: string, actions: seq<string>): Statement {
    Statement(sid, "Allow", Principal(authId), actions)
  }

  /** Dropped by a removal of `sid` for `authId`; an empty authId drops whatever carries the Sid. */
  predicate Doomed(s: Statement, sid: string, authId: string) {
    s.sid == sid && (authId == "" || PrincipalHas(s.principal, authId))
  }

  /** Replaces the first statement with the same Sid, or appends. */
  function Upserted(ss: seq<Statement>, s: Statement): seq<Statement> {
    if ss == [] then [s]
    else if ss[0].sid == s.sid then [s] + ss[1..]
    else [ss[0]] + Upserted(ss[1..], s)
  }

  lemma {:induction false} UpsertedAt(ss: seq<Statement>, s: Statement, i: nat)
    requires i <= |ss| && (forall j | 0 <= j < i :: ss[j].sid != s.sid) && (i < |ss| ==> ss[i].sid == s.sid)
    ensures Upserted(ss, s) == if i < |ss| then ss[i := s] else ss + [s]
  {
    if i > 0 { UpsertedAt(ss[1..], s, i - 1); }
  }

  function Removed(ss: seq<Statement>, sid: string, authId: string): seq<Statement> {
    if ss == [] then []
    else if Doomed(ss[0], sid, authId) then Removed(ss[1..], sid, authId)
    else [ss[0]] + Removed(ss[1..], sid, authId)
  }

  /** One step of the removal loop: `dst` holds the survivors before position i. */
  lemma MoveKept(dst: seq<Statement>, ss: seq<Statement>, i: nat, sid: string, authId: string)
    requires i < |ss|
    ensures dst + Removed(ss[i..], sid, authId)
            == (if Doomed(ss[i], sid, authId) then dst else dst + [ss[i]]) + Removed(ss[i + 1..], sid, authId)
  {
    assert ss[i..][1..] == ss[i + 1..];
  }

  /** The statements with one Sid, in order. */
  function OfSid(ss: seq<Statement>, sid: string): seq<Statement> {
    if ss == [] then []
    else if ss[0].sid == sid then [ss[0]] + OfSid(ss[1..], sid)
    else OfSid(ss[1..], sid)
  }

  /** The statements with any other Sid, in order. */
  function OtherSids(ss: seq<Statement>, sid: string): seq<Statement> {
    if ss == [] then []
    else if ss[0].sid == sid then OtherSids(ss[1..], sid)
    else [ss[0]] + OtherSids(ss[1..], sid)
  }

  ghost predicate UniqueSids(ss: seq<Statement>) {
    forall sid :: |OfSid(ss, sid)| <= 1
  }

  // ---------------------------------------------------------------- the document in memory

  class PolicyDocument {
    var version: string
    var statements: seq<Statement>

    constructor (p: Policy)
      ensures Contents() == p
    {
      version, statements := p.version, p.statements;
    }

    function Contents(): Policy
      reads this
    {
      Policy(version, statements)
    }

    method UpsertStatement(sid: string, authId: string, actions: seq<string>)
      modifies this
      ensures Contents() == Apply(Upsert(sid, authId, actions), old(Contents()))
    {
      var stmt := Granted(sid, authId, actions);
      if version == "" {
        version := VERSION;
      }
      var i := 0;
      while i < |statements|
        invariant 0 <= i <= |statements|
        invariant statements == old(statements) && version == (if old(version) == "" then VERSION else old(version))
        invariant forall j | 0 <= j < i :: statements[j].sid != sid
      {
        if statements[i].sid == sid {
          UpsertedAt(statements, stmt, i);
          statements := statements[i := stmt];
          return;
        }
        i := i + 1;
      }
      UpsertedAt(statements, stmt, i);
      statements := statements + [stmt];
    }

    method RemoveStatementForAuthId(sid: string, authId: string)
      modifies this
      ensures Contents() == Apply(Remove(sid, authId), old(Contents()))
    {
      var dst := [];
      ghost var kept := Removed(statements, sid, authId);
      assert statements[0..] == statements && Removed(statements[|statements|..], sid, authId) == [];
      hide Removed;
      for i := 0 to |statements|
        invariant statements == old(statements) && version == old(version)
        invariant kept == dst + Removed(statements[i..], sid, authId)
      {
        var s := statements[i];
        MoveKept(dst, statements, i, sid, authId);
        if s.sid != sid || (authId != "" && !PrincipalHas(s.principal, authId)) {
          dst := dst + [s];
        }
      }
      statements := dst;
    }
  }

  // ---------------------------------------------------------------- one operation

  function Apply(op: Op, p: Policy): Policy {
    match op
    case Upsert(sid, authId, actions) =>
      Policy(if p.version == "" then VERSION else p.version, Upserted(p.statements, Granted(sid, authId, actions)))
    case Remove(sid, authId) => p.(statements := Removed(p.statements, sid, authId))
    case DenyByDefault => if |p.statements| > 0 then p else EmptyPolicy()
  }

  /** Only the deny-by-default check ever finds nothing to write. */
  predicate Settled(op: Op, p: Policy) {
    op.DenyByDefault? && |p.statements| > 0
  }

  /** A 404 is read as an empty policy with an empty ETag, and the PUT carries no precondition. */
  function OnNoPolicy(op: Op): OnMissing<Policy> {
    PutBlind(Apply(op, EmptyPolicy()))
  }

  function PolicyLoop(): Loop<Policy, Op> {
    Loop(Apply, Settled, OnNoPolicy, EmptyPolicy(), POLICY_ATTEMPTS)
  }

  predicate Touches(op: Op, sid: string) {
    !op.DenyByDefault? && op.sid == sid
  }

  /** What one operation does to the statements of one Sid. */
  function AfterOp(op: Op, sid: string, ss: seq<Statement>): seq<Statement> {
    if !Touches(op, sid) then ss
    else match op
      case Upsert(_, a, acts) => [Granted(sid, a, acts)] + (if ss == [] then [] else ss[1..])
      case Remove(_, a) => Removed(ss, sid, a)
      case DenyByDefault => ss
  }

  lemma {:induction false} UpsertedParts(ss: seq<Statement>, s: Statement, sid: string)
    ensures OfSid(Upserted(ss, s), sid) ==
            if sid != s.sid then OfSid(ss, sid)
            else [s] + (if OfSid(ss, sid) == [] then [] else OfSid(ss, sid)[1..])
    ensures OtherSids(Upserted(ss, s), s.sid) == OtherSids(ss, s.sid)
  {
    if ss == [] {
    } else if ss[0].sid == s.sid {
      assert Upserted(ss, s)[1..] == ss[1..];
    } else {
      UpsertedParts(ss[1..], s, sid);
      assert Upserted(ss, s)[1..] == Upserted(ss[1..], s);
    }
  }

  lemma {:induction false} RemovedParts(ss: seq<Statement>, sid: string, a: string, other: string)
    ensures OfSid(Removed(ss, sid, a), other) == if other != sid then OfSid(ss, other)
            else Removed(OfSid(ss, sid), sid, a)
    ensures OtherSids(Removed(ss, sid, a), sid) == OtherSids(ss, sid)
  {
    if ss != [] {
      RemovedParts(ss[1..], sid, a, other);
      var rest := Removed(ss[1..], sid, a);
      if !Doomed(ss[0], sid, a) { assert Removed(ss, sid, a)[1..] == rest; }
      if ss[0].sid == sid { assert OfSid(ss, sid)[1..] == OfSid(ss[1..], sid); }
    }
  }

  lemma ApplyOnSid(op: Op, p: Policy, sid: string)
    ensures OfSid(Apply(op, p).statements, sid) == AfterOp(op, sid, OfSid(p.statements, sid))
  {
    match op
    case Upsert(t, a, acts) => UpsertedParts(p.statements, Granted(t, a, acts), sid);
    case Remove(t, a) => RemovedParts(p.statements, t, a, sid);
    case DenyByDefault =>
  }

  lemma {:induction false} RemovedIsShorter(ss: seq<Statement>, sid: string, a: string)
    ensures |Removed(ss, sid, a)| <= |ss|
  {
    if ss != [] { RemovedIsShorter(ss[1..], sid, a); }
  }

  /** No operation ever duplicates a Sid. */
  lemma ApplyKeepsUniqueSids(op: Op, p: Policy)
    requires UniqueSids(p.statements)
    ensures UniqueSids(Apply(op, p).statements)
  {
    forall sid ensures |OfSid(Apply(op, p).statements, sid)| <= 1 {
      ApplyOnSid(op, p, sid);
      if op.Remove? { RemovedIsShorter(OfSid(p.statements, sid), op.sid, op.authId); }
    }
  }

  /** The other Sids' statements keep their content and their order. */
  lemma ApplyKeepsOtherSids(op: Op, p: Policy)
    requires !op.DenyByDefault?
    ensures OtherSids(Apply(op, p).statements, op.sid) == OtherSids(p.statements, op.sid)
  {
    match op
    case Upsert(t, a, acts) => UpsertedParts(p.statements, Granted(t, a, acts), t);
    case Remove(t, a) => RemovedParts(p.statements, t, a, t);
  }

  lemma {:induction false} UpsertedUnchanged(ss: seq<Statement>, s: Statement)
    ensures Upserted(ss, s) == ss <==> OfSid(ss, s.sid) != [] && OfSid(ss, s.sid)[0] == s
  {
    if ss != [] {
      if ss[0].sid == s.sid {
        assert ss == [ss[0]] + ss[1..];
        assert Upserted(ss, s)[0] == s;
      } else {
        UpsertedUnchanged(ss[1..], s);
        assert ss == [ss[0]] + ss[1..];
        assert Upserted(ss, s)[1..] == Upserted(ss[1..], s);
      }
    }
  }

  lemma {:induction false} RemovedUnchanged(ss: seq<Statement>, sid: string, a: string)
    ensures Removed(ss, sid, a) == ss <==> Removed(OfSid(ss, sid), sid, a) == OfSid(ss, sid)
  {
    if ss != [] {
      RemovedUnchanged(ss[1..], sid, a);
      RemovedIsShorter(ss[1..], sid, a);
      var mine := OfSid(ss, sid);
      if ss[0].sid == sid {
        assert mine[1..] == OfSid(ss[1..], sid);
        RemovedIsShorter(mine[1..], sid, a);
      }
      if !Doomed(ss[0], sid, a) {
        assert ss == [ss[0]] + ss[1..];
        assert Removed(ss, sid, a)[1..] == Removed(ss[1..], sid, a);
        if ss[0].sid == sid {
          assert mine == [mine[0]] + mine[1..];
          assert Removed(mine, sid, a)[1..] == Removed(mine[1..], sid, a);
        }
      }
    }
  }

  lemma {:induction false} RemovedTwice(ss: seq<Statement>, sid: string, a: string)
    ensures Removed(Removed(ss, sid, a), sid, a) == Removed(ss, sid, a)
  {
    if ss != [] {
      RemovedTwice(ss[1..], sid, a);
      if !Doomed(ss[0], sid, a) { assert Removed(ss, sid, a)[1..] == Removed(ss[1..], sid, a); }
    }
  }

  lemma UpsertedTwice(ss: seq<Statement>, s: Statement)
    ensures Upserted(Upserted(ss, s), s) == Upserted(ss, s)
  {
    UpsertedParts(ss, s, s.sid);
    UpsertedUnchanged(Upserted(ss, s), s);
  }

  /** Operations on different Sids commute. */
  lemma {:induction false} RemovedUpsertedCommute(ss: seq<Statement>, s: Statement, sid: string, a: string)
    requires s.sid != sid
    ensures Removed(Upserted(ss, s), sid, a) == Upserted(Removed(ss, sid, a), s)
  {
    if ss == [] {
    } else if ss[0].sid == s.sid {
      assert Upserted(ss, s)[1..] == ss[1..];
      assert Removed(ss, sid, a)[1..] == Removed(ss[1..], sid, a);
    } else {
      RemovedUpsertedCommute(ss[1..], s, sid, a);
      assert Upserted(ss, s)[1..] == Upserted(ss[1..], s);
      if !Doomed(ss[0], sid, a) { assert Removed(ss, sid, a)[1..] == Removed(ss[1..], sid, a); }
    }
  }

  lemma {:induction false} RemovedCommute(ss: seq<Statement>, sid: string, a: string, other: string, b: string)
    ensures Removed(Removed(ss, sid, a), other, b) == Removed(Removed(ss, other, b), sid, a)
  {
    if ss != [] {
      RemovedCommute(ss[1..], sid, a, other, b);
      if !Doomed(ss[0], sid, a) { assert Removed(ss, sid, a)[1..] == Removed(ss[1..], sid, a); }
      if !Doomed(ss[0], other, b) { assert Removed(ss, other, b)[1..] == Removed(ss[1..], other, b); }
    }
  }

  /** Revoking an account right after granting it leaves what revoking it at once would have left,
      exactly when the grant did not replace a statement belonging to someone else. */
  lemma {:induction false} RemoveAfterUpsert(ss: seq<Statement>, sid: string, a: string, acts: seq<string>)
    ensures Removed(Upserted(ss, Granted(sid, a, acts)), sid, a) == Removed(ss, sid, a)
            <==> OfSid(ss, sid) == [] || Doomed(OfSid(ss, sid)[0], sid, a)
  {
    var s := Granted(sid, a, acts);
    assert Doomed(s, sid, a) by { assert Principal(a)[0] == "auth_id:" + a; }
    if ss == [] {
      assert Upserted(ss, s)[1..] == [];
    } else if ss[0].sid == sid {
      assert Upserted(ss, s)[1..] == ss[1..];
      RemovedIsShorter(ss[1..], sid, a);
    } else {
      RemoveAfterUpsert(ss[1..], sid, a, acts);
      var u := Upserted(ss, s);
      assert u[1..] == Upserted(ss[1..], s);
      assert Removed(u, sid, a) == [ss[0]] + Removed(u[1..], sid, a);
      assert Removed(u, sid, a)[1..] == Removed(u[1..], sid, a);
      assert Removed(ss, sid, a)[1..] == Removed(ss[1..], sid, a);
    }
  }

  // ---------------------------------------------------------------- every run

  function EntriesAfter(ss: seq<Statement>, log: seq<Op>, sid: string): seq<Statement>
    decreases |log|
  {
    if log == [] then ss else AfterOp(log[|log| - 1], sid, EntriesAfter(ss, log[..|log| - 1], sid))
  }

  lemma {:induction false} FoldOnSid(p: Policy, log: seq<Op>, sid: string)
    ensures OfSid(Fold(PolicyLoop(), p, log).statements, sid) == EntriesAfter(OfSid(p.statements, sid), log, sid)
    decreases |log|
  {
    if log != [] {
      FoldOnSid(p, log[..|log| - 1], sid);
      ApplyOnSid(log[|log| - 1], Fold(PolicyLoop(), p, log[..|log| - 1]), sid);
    }
  }

  lemma {:induction false} FoldKeepsUniqueSids(p: Policy, log: seq<Op>)
    requires UniqueSids(p.statements)
    ensures UniqueSids(Fold(PolicyLoop(), p, log).statements)
    decreases |log|
  {
    if log != [] {
      FoldKeepsUniqueSids(p, log[..|log| - 1]);
      ApplyKeepsUniqueSids(log[|log| - 1], Fold(PolicyLoop(), p, log[..|log| - 1]));
    }
  }

  lemma {:induction false} UpsertDecides(ss: seq<Statement>, log: seq<Op>, sid: string, i: nat)
    requires i < |log| && log[i].Upsert? && log[i].sid == sid && forall j | i < j < |log| :: !Touches(log[j], sid)
    ensures EntriesAfter(ss, log, sid) != []
            && EntriesAfter(ss, log, sid)[0] == Granted(sid, log[i].authId, log[i].actions)
    decreases |log|
  {
    if i < |log| - 1 { UpsertDecides(ss, log[..|log| - 1], sid, i); }
  }

  lemma {:induction false} RemoveDecides(ss: seq<Statement>, log: seq<Op>, sid: string, i: nat)
    requires i < |log| && log[i].Remove? && log[i].sid == sid && forall j | i < j < |log| :: !Touches(log[j], sid)
    ensures Removed(EntriesAfter(ss, log, sid), sid, log[i].authId) == EntriesAfter(ss, log, sid)
    decreases |log|
  {
    if i < |log| - 1 {
      RemoveDecides(ss, log[..|log| - 1], sid, i);
    } else {
      RemovedTwice(EntriesAfter(ss, log[..i], sid), sid, log[i].authId);
    }
  }

  /** What must hold of one Sid's statements when `op` was the last committed operation on that Sid. */
  predicate Reflects(mine: seq<Statement>, op: Op) {
    match op
    case Upsert(sid, a, acts) => mine == [Granted(sid, a, acts)]
    case Remove(sid, a) => forall st <- mine :: !Doomed(st, sid, a)
    case DenyByDefault => true
  }

  /** Position of the last committed operation on `sid`. */
  predicate LastOn(log: seq<Op>, sid: string, i: nat) {
    i < |log| && Touches(log[i], sid) && forall j | i < j < |log| :: !Touches(log[j], sid)
  }

  /** What an operation asks of a policy, in the policy's own terms. A grant: the first statement with its Sid
      allows exactly its actions to exactly its account. A removal: no statement with its Sid names its account,
      or none has the Sid if no account is given. Deny by default: nothing. */
  predicate InForce(ss: seq<Statement>, op: Op) {
    if op.Upsert? then
      exists i | 0 <= i < |ss| ::
        ss[i] == Statement(op.sid, "Allow", ["auth_id:" + op.authId], op.actions)
        && forall j | 0 <= j < i :: ss[j].sid != op.sid
    else op.Remove? ==>
           forall st <- ss :: st.sid == op.sid ==> op.authId != "" && ("auth_id:" + op.authId) !in st.principal
  }

  lemma {:induction false} FirstOfSid(ss: seq<Statement>, sid: string)
    ensures OfSid(ss, sid) != [] ==> exists i | 0 <= i < |ss| ::
              ss[i] == OfSid(ss, sid)[0] && forall j | 0 <= j < i :: ss[j].sid != sid
  {
    if ss != [] && ss[0].sid != sid && OfSid(ss, sid) != [] {
      FirstOfSid(ss[1..], sid);
      var i :| 0 <= i < |ss| - 1 && ss[1..][i] == OfSid(ss, sid)[0] && forall j | 0 <= j < i :: ss[1..][j].sid != sid;
      assert ss[i + 1] == OfSid(ss, sid)[0];
      assert forall j | 0 < j < i + 1 :: ss[j] == ss[1..][j - 1];
    }
  }

  /** The statements of a Sid are those that carry it, and the others those that do not. */
  lemma {:induction false} OfSidIs(ss: seq<Statement>, sid: string, st: Statement)
    ensures st in OfSid(ss, sid) <==> st in ss && st.sid == sid
    ensures st in OtherSids(ss, sid) <==> st in ss && st.sid != sid
  {
    if ss != [] { OfSidIs(ss[1..], sid, st); }
  }

  lemma ReflectedIsInForce(ss: seq<Statement>, op: Op)
    requires !op.DenyByDefault? && Reflects(OfSid(ss, op.sid), op)
    ensures InForce(ss, op)
  {
    FirstOfSid(ss, op.sid);
    forall st | st in ss && st.sid == op.sid ensures st in OfSid(ss, op.sid) { OfSidIs(ss, op.sid, st); }
    hide OfSid;
  }

  lemma ApplyPutsInForce(op: Op, p: Policy)
    ensures InForce(Apply(op, p).statements, op)
    ensures op.DenyByDefault? ==> Apply(op, p) == if p.statements == [] then Policy("2012-10-17", []) else p
    ensures op.Upsert? ==> Apply(op, p).version == if p.version == "" then "2012-10-17" else p.version
  {
    if op.Upsert? {
      ApplyOnSid(op, p, op.sid);
      FirstOfSid(Apply(op, p).statements, op.sid);
    }
    if op.Remove? {
      forall st | st in Removed(p.statements, op.sid, op.authId) ensures !Doomed(st, op.sid, op.authId) {
        NoneDoomed(p.statements, op.sid, op.authId, st);
      }
    }
  }

  lemma {:induction false} NoneDoomed(ss: seq<Statement>, sid: string, a: string, st: Statement)
    ensures st in Removed(ss, sid, a) <==> st in ss && !Doomed(st, sid, a)
  {
    if ss != [] { NoneDoomed(ss[1..], sid, a, st); }
  }

  /** No committed statement is lost: in every run that starts from a stored policy, the Sid of the last
      committed upsert carries exactly that statement, one removed for an account carries no statement
      of that account, and Sids stay unique. */
  lemma NoCommittedStatementIsLost(s: State<Policy, Op>, events: seq<Event<Op>>, sid: string)
    requires Initial(s) && s.doc.Stored? && UniqueSids(s.doc.value.statements)
    ensures var now := Run(PolicyLoop(), s, events);
            var ss := Value(PolicyLoop(), now.doc).statements;
            && UniqueSids(ss)
            && (forall i: nat | LastOn(now.log, sid, i) ::
                Reflects(OfSid(ss, sid), now.log[i]) && InForce(ss, now.log[i]))
  {
    var now := Run(PolicyLoop(), s, events);
    DocumentIsFoldOfLog(PolicyLoop(), s, events);
    FoldOnSid(s.doc.value, now.log, sid);
    FoldKeepsUniqueSids(s.doc.value, now.log);
    var mine := OfSid(Value(PolicyLoop(), now.doc).statements, sid);
    assert |mine| <= 1;
    forall i: nat | LastOn(now.log, sid, i) ensures Reflects(mine, now.log[i]) {
      match now.log[i]
      case Upsert(_, a, acts) => UpsertDecides(OfSid(s.doc.value.statements, sid), now.log, sid, i);
      case Remove(_, a) => RemoveDecides(OfSid(s.doc.value.statements, sid), now.log, sid, i);
      case DenyByDefault =>
    }
    forall i: nat | LastOn(now.log, sid, i) ensures InForce(Value(PolicyLoop(), now.doc).statements, now.log[i]) {
      ReflectedIsInForce(Value(PolicyLoop(), now.doc).statements, now.log[i]);
    }
  }

  /** At the point where a successful mutation took effect the policy was as it asked for. */
  lemma SuccessfulMutationHasItsEffect(s: State<Policy, Op>, events: seq<Event<Op>>, p: Pid)
    requires Initial(s) && s.doc.Stored?
    requires p in Run(PolicyLoop(), s, events).clients && Run(PolicyLoop(), s, events).clients[p].pc.Succeeded?
    ensures var now := Run(PolicyLoop(), s, events);
            var c := now.clients[p];
            && c.start <= c.pc.at <= |now.log| && (c.pc.wrote ==> c.pc.at < |now.log|)
            && InForce(Witnessed(PolicyLoop(), s.doc.value, now.log, c.pc).statements, c.op)
  {
    SuccessHasOnePoint(PolicyLoop(), s, events, p);
    var now := Run(PolicyLoop(), s, events);
    var c := now.clients[p];
    var before := Fold(PolicyLoop(), s.doc.value, now.log[..c.pc.at]);
    hide Run, InForce, Fold, Apply, Initial;
    if c.pc.wrote { ApplyPutsInForce(c.op, before); }
    hide Settled;
    if !c.pc.wrote { assert InForce(before.statements, c.op) by { SettledInForce(c.op, before); } }
  }

  lemma SettledInForce(op: Op, p: Policy)
    requires Settled(op, p)
    ensures InForce(p.statements, op)
  {
  }

  /** A retry after a write that was committed but not reported changes nothing, whatever other Sids'
      operations were committed in between. */
  lemma ReapplyingACommittedWriteIsANoOp(p: Policy, log: seq<Op>, i: nat)
    requires i < |log| && !log[i].DenyByDefault?
    requires forall j | i < j < |log| :: !Touches(log[j], log[i].sid)
    ensures Apply(log[i], Fold(PolicyLoop(), p, log)) == Fold(PolicyLoop(), p, log)
  {
    var sid := log[i].sid;
    var now := Fold(PolicyLoop(), p, log);
    FoldOnSid(p, log, sid);
    match log[i]
    case Upsert(_, a, acts) =>
      UpsertSetsVersion(p, log, i);
      UpsertDecides(OfSid(p.statements, sid), log, sid, i);
      UpsertedUnchanged(now.statements, Granted(sid, a, acts));
    case Remove(_, a) =>
      RemoveDecides(OfSid(p.statements, sid), log, sid, i);
      RemovedUnchanged(now.statements, sid, a);
  }

  lemma {:induction false} UpsertSetsVersion(p: Policy, log: seq<Op>, i: nat)
    requires i < |log| && log[i].Upsert?
    ensures Fold(PolicyLoop(), p, log).version != ""
    decreases |log|
  {
    if i < |log| - 1 { UpsertSetsVersion(p, log[..|log| - 1], i); }
  }

  /** In every run a mutation gives up for conflicts only after eight changes of the policy were committed. */
  lemma GivingUpTakesEightCommits(s: State<Policy, Op>, events: seq<Event<Op>>, e: Event<Op>)
    requires Initial(s) && AlwaysTruthful(PolicyLoop(), s, events) && Truthful(Run(PolicyLoop(), s, events), e)
    requires Exhausts(PolicyLoop(), Run(PolicyLoop(), s, events), e)
    ensures |Step(PolicyLoop(), Run(PolicyLoop(), s, events), e).log| >= Run(PolicyLoop(), s,
            events).clients[e.pid].start + 8
  {
    GivingUpTakesCommits(PolicyLoop(), s, events, e);
    hide Run;
  }

  // ---------------------------------------------------------------- the loop itself

  /** What the callback passed to the loop does to the policy it read. */
  method Mutate(p: Policy, op: Op) returns (same: bool, next: Policy)
    ensures same == Settled(op, p)
    ensures !same ==> next == Apply(op, p)
  {
    var doc := new PolicyDocument(p);
    match op {
      case Upsert(sid, authId, actions) => doc.UpsertStatement(sid, authId, actions);
      case Remove(sid, authId) => doc.RemoveStatementForAuthId(sid, authId);
      case DenyByDefault =>
        if |p.statements| > 0 { return true, p; }
        doc := new PolicyDocument(EmptyPolicy());
    }
    return false, doc.Contents();
  }

  /** The policy loop, run by `me` while others change the policy: an execution of the state machine, so
      the results above hold of it. */
  method MutateBucketPolicy(core: Core<Policy, Op>, me: Pid, op: Op) returns (ok: bool)
    requires core.Valid() && core.l == PolicyLoop() && me !in core.state.clients
    modifies core
    ensures core.Valid() && old(core.trace) <= core.trace && core.Finished(me, op, ok)
  {
    hide Apply;
    core.Start(me, op);
    var attempt := 0;
    while attempt < POLICY_ATTEMPTS
      invariant 0 <= attempt <= POLICY_ATTEMPTS
      invariant core.Valid() && old(core.trace) <= core.trace
      invariant core.At(me, op, if attempt < POLICY_ATTEMPTS then Reading(attempt) else Failed)
    {
      var fault, current := core.Get(me);
      if fault { return false; }
      var same, next := Mutate(if current.Missing? then EmptyPolicy() else current.value, op);
      if same { return true; }
      var report := core.Send(me, next);
      if report.Ok? { return true; }
      if report.Fault? { return false; }
      attempt := attempt + 1;
    }
    return false;
  }

  // ---------------------------------------------------------------- a bucket without a policy

  /** Two first grants on a bucket without a policy, both reported as successful. */
  function RacingGrants(): seq<Event<Op>> {
    [Start(0, Upsert("a", "1", [])), Start(1, Upsert("b", "2", [])),
     Call(0, true, Ok), Call(1, true, Ok), Call(0, true, Ok), Call(1, true, Ok)]
  }

  lemma RunOneMore(s: State<Policy, Op>, events: seq<Event<Op>>, i: nat)
    requires i < |events|
    ensures Run(PolicyLoop(), s, events[..i + 1]) == Step(PolicyLoop(), Run(PolicyLoop(), s, events[..i]), events[i])
  {
    assert events[..i + 1][..i] == events[..i];
  }

  lemma RacingGrantsStart(s: State<Policy, Op>)
    requires Initial(s) && s.doc.Missing?
    ensures Run(PolicyLoop(), s, RacingGrants()[..2]) ==
            s.(clients := map[0 := Client(Upsert("a", "1", []), 0, Reading(0)),
                1 := Client(Upsert("b", "2", []), 0, Reading(0))])
  {
    var es := RacingGrants();
    assert Run(PolicyLoop(), s, es[..0]) == s;
    hide Run, Upserted, Apply, Advance;
    RunOneMore(s, es, 0);
    RunOneMore(s, es, 1);
  }

  /** A client that finds no policy goes on to write without a precondition. */
  lemma ReadsMissing(s: State<Policy, Op>, p: Pid)
    requires s.doc.Missing? && p in s.clients && s.clients[p].pc == Reading(0)
    ensures var c := s.clients[p];
            Step(PolicyLoop(), s, Call(p, true, Ok))
            == s.(clients := s.clients[p := c.(pc := Writing(0, Always, Apply(c.op, EmptyPolicy())))])
  {
    hide Upserted, Apply;
  }

  lemma RacingGrantsRead(s: State<Policy, Op>)
    requires Initial(s) && s.doc.Missing?
    ensures var a, b := Upsert("a", "1", []), Upsert("b", "2", []);
            Run(PolicyLoop(), s, RacingGrants()[..4]) ==
            s.(clients := map[0 := Client(a, 0, Writing(0, Always, Apply(a, EmptyPolicy()))),
                              1 := Client(b, 0, Writing(0, Always, Apply(b, EmptyPolicy())))])
  {
    var es := RacingGrants();
    RacingGrantsStart(s);
    hide Run, Upserted, Apply, Step;
    RunOneMore(s, es, 2);
    RunOneMore(s, es, 3);
    ReadsMissing(Run(PolicyLoop(), s, es[..2]), 0);
    ReadsMissing(Run(PolicyLoop(), s, es[..3]), 1);
  }

  lemma RacingGrantsLoseOne(s: State<Policy, Op>)
    requires Initial(s) && s.doc.Missing?
    ensures var now := Run(PolicyLoop(), s, RacingGrants());
            && now.clients == map[0 := Client(Upsert("a", "1", []), 0, Succeeded(true, 0)),
                                  1 := Client(Upsert("b", "2", []), 0, Succeeded(true, 1))]
            && now.log == [Upsert("a", "1", []), Upsert("b", "2", [])]
            && Value(PolicyLoop(), now.doc).statements == [Granted("b", "2", [])]
  {
    var es := RacingGrants();
    RacingGrantsRead(s);
    assert es[..6] == es;
    assert Apply(Upsert("b", "2", []), EmptyPolicy()).statements == [Granted("b", "2", [])];
    hide Run, Upserted, Apply;
    RunOneMore(s, es, 4);
    RunOneMore(s, es, 5);
  }

  /** A first grant whose unconditional write takes effect, is not answered and is repeated after a second
      grant, which had read the policy with its ETag. */
  function ReplayedGrant(a: Op, b: Op): seq<Event<Op>> {
    [Start(0, a), Start(1, b), Call(0, true, Ok), Replayed(0), Call(1, true, Ok), Call(1, true, Ok), Call(0, true, Ok)]
  }

  /** Where that run stands after `n` events. */
  function ReplayStage(s: State<Policy, Op>, a: Op, b: Op, n: nat): State<Policy, Op> {
    var pa := Apply(a, EmptyPolicy());
    var written := s.(doc := Stored(pa, s.nextVersion), nextVersion := s.nextVersion + 1, log := [a]);
    if n == 0 then s
    else if n == 1 then s.(clients := map[0 := Client(a, 0, Reading(0))])
    else if n == 2 then s.(clients := map[0 := Client(a, 0, Reading(0)), 1 := Client(b, 0, Reading(0))])
    else if n == 3 then s.(clients := map[0 := Client(a, 0, Writing(0, Always, pa)), 1 := Client(b, 0, Reading(0))])
    else if n == 4 then written.(clients := map[0 := Client(a, 0, Writing(0, Always, pa)),
        1 := Client(b, 0, Reading(0))])
    else if n == 5 then
      written.(clients := map[0 := Client(a, 0, Writing(0, Always, pa)),
                              1 := Client(b, 0, Writing(0, IfMatch(s.nextVersion), Apply(b, pa)))])
    else if n == 6 then
      State(Stored(Apply(b, pa), s.nextVersion + 1), s.nextVersion + 2,
            map[0 := Client(a, 0, Writing(0, Always, pa)), 1 := Client(b, 0, Succeeded(true, 1))], [a, b])
    else
      State(Stored(pa, s.nextVersion + 2), s.nextVersion + 3,
            map[0 := Client(a, 0, Succeeded(true, 2)), 1 := Client(b, 0, Succeeded(true, 1))], [a, b, a])
  }

  lemma ReplayStep(s: State<Policy, Op>, a: Op, b: Op, n: nat)
    requires Initial(s) && s.doc.Missing? && a.Upsert? && b.Upsert? && n < 7
    ensures Step(PolicyLoop(), ReplayStage(s, a, b, n), ReplayedGrant(a, b)[n]) == ReplayStage(s, a, b, n + 1)
  {
    hide Apply;
  }

  lemma {:induction false} ReplayRuns(s: State<Policy, Op>, a: Op, b: Op, n: nat)
    requires Initial(s) && s.doc.Missing? && a.Upsert? && b.Upsert? && n <= 7
    ensures Run(PolicyLoop(), s, ReplayedGrant(a, b)[..n]) == ReplayStage(s, a, b, n)
  {
    if n > 0 {
      ReplayRuns(s, a, b, n - 1);
      RunOneMore(s, ReplayedGrant(a, b), n - 1);
      ReplayStep(s, a, b, n - 1);
      hide Run, ReplayStage, ReplayedGrant, Step;
    }
  }

  /** So without a policy to begin with even a grant that wrote under an ETag can be lost. */
  lemma ReplayedGrantLosesLaterOne(s: State<Policy, Op>, a: Op, b: Op)
    requires Initial(s) && s.doc.Missing? && a.Upsert? && b.Upsert? && a.sid != b.sid
    ensures var now := Run(PolicyLoop(), s, ReplayedGrant(a, b));
            && now.clients == map[0 := Client(a, 0, Succeeded(true, 2)), 1 := Client(b, 0, Succeeded(true, 1))]
            && now.log == [a, b, a] && OfSid(Value(PolicyLoop(), now.doc).statements, b.sid) == []
  {
    ReplayRuns(s, a, b, 7);
    assert ReplayedGrant(a, b)[..7] == ReplayedGrant(a, b);
    assert Apply(a, EmptyPolicy()).statements == [Granted(a.sid, a.authId, a.actions)];
    hide Run, Apply;
  }

  /** Every run keeps the stored policy equal to the fold of its committed mutations exactly when the
      bucket has a policy to begin with, that is when the read returns an ETag. */
  lemma PolicyRunsAreLinearIff(s: State<Policy, Op>)
    requires Initial(s)
    ensures s.doc.Stored? <==>
            forall events :: Value(PolicyLoop(), Run(PolicyLoop(), s, events).doc)
                             == Fold(PolicyLoop(), Value(PolicyLoop(), s.doc), Run(PolicyLoop(), s, events).log)
  {
    if s.doc.Stored? {
      forall events
        ensures Value(PolicyLoop(), Run(PolicyLoop(), s, events).doc)
                == Fold(PolicyLoop(), Value(PolicyLoop(), s.doc), Run(PolicyLoop(), s, events).log)
      {
        DocumentIsFoldOfLog(PolicyLoop(), s, events);
      }
    } else {
      RacingGrantsLoseOne(s);
      var log := [Upsert("a", "1", []), Upsert("b", "2", [])];
      FoldOnSid(EmptyPolicy(), log, "a");
      UpsertDecides([], log, "a", 0);
      assert OfSid([Granted("b", "2", [])], "a") == [];
      assert Value(PolicyLoop(), Run(PolicyLoop(), s, RacingGrants()).doc)
          != Fold(PolicyLoop(), EmptyPolicy(), Run(PolicyLoop(), s, RacingGrants()).log);
    }
  }
}
