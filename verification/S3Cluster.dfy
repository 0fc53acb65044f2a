/** The part of Core that the COSI driver changes, and its fallible interface.

    One RPC runs at a time here. Every call can fail before or after it took effect, unless the
    cluster is fault-free. Identifiers are never reused: an auth id is longer than any allocated
    before it. Policy and ACL changes are taken as the atomic operations that the ETag loop makes
    them. */
module S3Cluster {
  import opened PolicyStatements
  import opened AclGrants
  import opened Wrappers
  import opened Text

  type AuthId = string
  type KeyId = nat
  type FileId = string
  type Path = string

  /** What a tree-delete job reports, and how many more polls it needs. */
  datatype JobStatus = JobStatus(lastError: Option<string>, aborted: bool, status: string)
  datatype Job = Job(report: JobStatus, left: nat)

  /** `dirs` maps normalised paths to file ids, `full` are those that still hold objects, `jobs` the
      tree-delete job records and `submitted` the file ids whose tree-delete was accepted. */
  datatype Files = Files(dirs: map<Path, FileId>, full: set<FileId>, jobs: map<FileId, Job>, submitted: seq<FileId>)

  /** `users` maps names to auth ids, `keys` access keys to their owners. `uploads` are the buckets with
      multipart uploads in progress and `rootDeletes` those unregistered together with their root. */
  datatype S3 = S3(
    users: map<string, AuthId>, nextUser: nat,
    keys: map<KeyId, AuthId>, nextKey: KeyId,
    policies: map<string, Policy>, acls: map<FileId, seq<Ace>>,
    buckets: map<string, Path>, uploads: set<string>, rootDeletes: seq<string>,
    files: Files)

  datatype BucketHandle = BucketHandle(name: string, root: Path, fileId: FileId, managed: bool)
  datatype Account = Account(username: string, authId: AuthId)

  function FreshAuthId(n: nat): (id: AuthId)
    ensures |id| == n + 1
  {
    seq(n + 1, _ => '1')
  }

  predicate PathsMatch(a: Path, b: Path) {
    TrimSlashes(a) == TrimSlashes(b)
  }

  function FileAt(s: S3, p: Path): Option<FileId> {
    if TrimSlashes(p) in s.files.dirs then Some(s.files.dirs[TrimSlashes(p)]) else None
  }

  /** Ids in use are older than the next one and no two users share one. */
  ghost predicate WellFormed(s: S3) {
    && (forall n <- s.users :: 0 < |s.users[n]| <= s.nextUser)
    && (forall m, n | m in s.users && n in s.users && s.users[m] == s.users[n] :: m == n)
    && (forall k <- s.keys :: k < s.nextKey && |s.keys[k]| <= s.nextUser)
  }

  /** The access keys owned by one auth id. */
  function Owned(keys: map<KeyId, AuthId>, id: AuthId): set<KeyId> {
    set k | k in keys && keys[k] == id
  }

  /** A bucket without a policy reads as the empty one. */
  function PolicyOf(policies: map<string, Policy>, bucket: string): Policy {
    if bucket in policies then policies[bucket] else EmptyPolicy()
  }

  function AclOf(acls: map<FileId, seq<Ace>>, f: FileId): seq<Ace> {
    if f in acls then acls[f] else []
  }

  // ---------------------------------------------------------------- the interface

  datatype Report = Accepted | NotFound | Exists | Ambiguous | Refused

  /** What Core said of a tree-delete job: its record, or the answer to its submission. */
  datatype Answer = Looked(fault: bool, record: Option<JobStatus>) | Submitted(report: Report)

  class Cluster {
    var s: S3
    /** The answers about tree-delete jobs so far. */
    ghost var answers: seq<Answer>
    const faulty: bool
    /** The most polls any tree-delete job takes. */
    const delay: nat

    constructor (s: S3, faulty: bool, delay: nat)
      ensures this.s == s && this.faulty == faulty && this.delay == delay
    {
      this.s, this.faulty, this.delay := s, faulty, delay;
    }

    /** A write: on success it took effect, on a fault it may or may not have. */
    method Send(next: S3) returns (ok: bool)
      modifies this
      ensures ok ==> s == next
      ensures !ok ==> faulty && (s == old(s) || s == next)
    {
      ok := *;
      ok := ok || !faulty;
      var committed: bool := *;
      if ok || committed {
        s := next;
      }
    }

    /** A read: on a fault the caller learns nothing. */
    method Fault() returns (fault: bool)
      ensures fault ==> faulty
    {
      fault := *;
      fault := fault && faulty;
    }
  }
}
