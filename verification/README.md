# Qumulo COSI and CSI driver: protocol model

A Dafny model of how the driver controls a Qumulo Core cluster: identity-safe and retry-safe control
over a remote server that is reached only through fallible, ETag-conditional and sometimes ambiguous
calls. `dafny verify dfyconfig.toml` checks the whole project.

Core is abstract state: directories as paths with immutable ids, exports and shares with marker, path,
settings and version, quotas, ACLs and policies with versions, buckets, users, keys, and tree-delete
jobs. A call can take effect or not, and can report success, a refusal, a conflict or nothing; these
two are independent wherever a response can be lost. Three forms are used:

- State machines whose `Step` is a total function of a state and an event, so that a run is any list of
  events: `VolumeProtocol` (CreateVolume and DeleteVolume on any number of replicas), `EtagLoop` (any
  number of read-modify-write loops on one document) and `KeyedLocks` (the two lock tables).
- Methods on a class that stands for the server or the node and may fail or be changed by others at every
  call: `S3Cluster.Cluster`, `StrictClaim.Registry`, `EtagClient.Core`, `NodePublish.Target`,
  `RetryLoop.Wire`. In most of them a constant turns the faults off; what a method then guarantees is its
  convergence. `StrictClaim.Registry`, `RetryLoop.Wire` and the tree-delete calls also record the answers
  they give, so that a method states when it may give up. `EtagClient.Core` is one caller's view of an
  `EtagLoop` run: each of its calls is a step of that machine, so the loops written with it inherit what
  is proved of all runs.
- Functions and loops over values: mount options, identifiers, names, the mount table.

| files | part of the driver |
|---|---|
| `VolumeProtocol`, `VolumeSafety`, `VolumeOwnership`, `VolumeConvergence`, `VolumeRuns`, `VolumeFaults` | CSI volume lifecycle across replicas |
| `EtagLoop`, `EtagClient`, `AclGrants`, `PolicyStatements`, `Quotas` | ETag loops and the three documents they change |
| `StrictClaim`, `NfsExports`, `SmbShares` | claiming and reconciling exports and shares |
| `S3Cluster`, `BucketAccess`, `AccessInterleaving`, `AccessSerializability`, `TreeDeletion`, `BucketDeletion` | COSI grant, revoke and delete |
| `NodePublish`, `PublishFingerprint`, `MountOptions`, `MountVerification`, `MountTable` | node publish and unpublish |
| `RetryLoop`, `KeyedLocks`, `Identifiers`, `ResourceNames`, `Text`, `Paths`, `Wrappers` | HTTP retries, lock tables, names |

Assumptions about Core: identifiers are never reused and directories are never renamed; every read
returns a non-empty ETag that is never reused; a tree-delete job record disappears only when its tree is
gone; tree-deletes apart, nobody removes a directory; writes are atomic. Digests and signatures are
injective, so a handle, a fingerprint and a tombstone stand for the records they are computed from. What
is assumed of the requests is stated where it is needed: `VolumeSafety` and
`VolumeConvergence.DeleteConvergesIff` hold for all requests, and each ownership result holds for a
specification exactly when `VolumeOwnership.Safe` does.

Results that qualify what the code or its documentation suggests:

- `docs/architecture.md` and `docs/csi.md` say that the export or share is removed first. The code
  (`internal/csidriver/driver.go:266-275`) writes the tombstone, deletes the tree and removes the resource
  last, and that is what is modelled.
- A retried DeleteVolume is refused for ever once another directory has taken the volume's path, which a
  create that had passed its preflight can cause (`VolumeRuns.ReplacedDeletionIsStuck`); as long as an
  aborted tree-delete of its directory is on record (`VolumeRuns.AbortedDeletionIsStuck`); and once another
  handle's deletion has its resource (`VolumeRuns.NestedVolumeIsOrphaned`). These are the only cases in
  which it does not complete (`VolumeConvergence.DeleteConvergesIff`).
- Base paths and export prefixes are request parameters, so a volume can be made below another one, or on
  another replica at the same path under another name. Deleting the outer one then takes the inner one's
  data (`VolumeRuns.NestedVolumeIsLost`), and a create of the inner one can return a volume without a
  directory or a second handle for one resource. All of this happens to exactly the specifications that
  are not `Safe` (`VolumeRuns.NothingIsLostIff` and the results beside it). Likewise a purge takes the
  roots of buckets below it (`BucketDeletion.OtherRootSurvivesIff`).
- Two first grants on a bucket without a policy can lose one statement, because a policy that reads as 404
  is written without a precondition (`PolicyStatements.RacingGrantsLoseOne`), and the replay of such a
  write can undo a later one (`PolicyStatements.ReplayedGrantLosesLaterOne`); with a policy in place none
  is lost (`PolicyStatements.PolicyRunsAreLinearIff`).
- A share request whose trustee has neither auth id, SID, UID nor name is patched again on every claim
  unless Core stores it unchanged (`SmbShares.NextDiffIsEmptyIff`, `SmbShares.GroupShareNeverSettles`).
- While an aborted job for its root is on record a purge cannot finish (`BucketDeletion.DriverDeleteBucket`,
  `BucketDeletion.PurgeCanBeStuck`).
- A create without a quota reports a capacity that nothing on the cluster backs (`Quotas.CreateCapacity`).

## Model

| member | source | states |
|---|---|---|
| `VolumeSafety.StepConsistent` | internal/csidriver/driver.go:94-276 | every single call, crash or Core event, from any state that satisfies the protocol invariant, keeps it and only moves Core forward: identities are permanent, versions grow, tombstones stay |
| `VolumeSafety.RunConsistent` | internal/csidriver/driver.go:94-276 | the invariant holds after every run of any number of Create and Delete processes, with lost responses and crashes anywhere |
| `VolumeSafety.RunEvolves` | internal/csidriver/backend.go:252-405 | between any two points of any run a resource present at both has the same key and path, an equal version means an equal resource, and a managed marker can only have become that volume's tombstone |
| `VolumeSafety.TreeDeleteOnlyUnderTombstone` | internal/csidriver/driver.go:241-275 | whichever event adds a tree-delete job, it is for the requesting handle's own directory, at that handle's path, and the handle's resource carries its tombstone at that instant |
| `VolumeSafety.TombstoneIsFinal` | internal/csidriver/backend.go:252-405 | no event turns a tombstone into anything else, and a tombstoned resource goes away only when its directory no longer exists |
| `VolumeSafety.RemovalMeansDeadOrManaged` | internal/csidriver/backend.go:345-405 | a resource is removed only by a deletion of exactly that handle, at the marker the deletion requires, and with data deletion only after the directory is gone |
| `VolumeSafety.MarkerChangeIsEntombing` | internal/csidriver/backend.go:252-304 | the only change of a marker in any step is a requested handle's deletion writing its own tombstone |
| `VolumeSafety.ReconfiguredOnlyByOwner` | internal/qumulo/nfs.go:298-327 | in every run whatever changes a resource's settings is the claim of a create whose own marker the resource carries at that instant |
| `VolumeSafety.ClaimedAsRequested` | internal/qumulo/nfs.go:266-328 | in every run, at the instant a create's claim ends its resource has exactly the requested key, path, marker and settings, whatever it had before |
| `VolumeSafety.ConfiguresOnlyAfterClaim` | internal/csidriver/driver.go:139-180 | a create that sends its mode and quota writes holds a resource made for exactly its specification, so a create refused at the claim has sent neither |
| `VolumeOwnership.OnlyJobsKill` | internal/qumulo/tree_delete.go:40-92 | the only event that ends a directory is a running tree-delete job whose tree it lies in |
| `VolumeOwnership.RunOwnership` | internal/csidriver/driver.go:131-276 | for every specification whose directory no deletable volume of another name has in its tree, every run keeps the ownership invariant: each handle issued for it keeps its directory and marker until its own deletion; nothing is assumed of the other requests |
| `VolumeOwnership.SameBaseIsSafe` | internal/csidriver/config.go:364-372 | requests whose directories lie in one directory, each with one export path or share name, are all safe |
| `VolumeRuns.NothingIsLostIff` | internal/csidriver/driver.go:218-276 | volumes of a specification that were issued and never asked to be deleted still have directory, path and managed marker in all runs if and only if no requested volume that deletes its data and has another name has the directory in its tree |
| `VolumeRuns.CreatesReturnLiveVolumesIff` | internal/csidriver/backend.go:203-246 | whatever a create of a specification returns, at that instant its directory is at its path and its resource carries its managed marker, in all runs, if and only if the same holds |
| `VolumeRuns.CreatesAgreeIff` | internal/csidriver/driver.go:186-206 | all creates that return one resource of a specification agree on its directory, over concurrent deletes and re-creates, if and only if the same holds |
| `VolumeRuns.LiveVolumesAreDisjointIff` | internal/csidriver/driver.go:131-206 | a live volume of a specification never lies in the tree of another live one that deletes its data if and only if the same holds |
| `VolumeOwnership.DeleteSuccessMeansGone` | internal/csidriver/driver.go:218-276 | a deletion that reports success has removed its resource and, when it deletes data, its directory |
| `VolumeConvergence.DeleteConvergesIff` | internal/csidriver/driver.go:247-275 | after any run of any requests a fault-free retry of a deletion completes if and only if no other directory has taken the volume's path, no aborted tree-delete of its own directory there is on record, and no other handle's deletion has its resource |
| `VolumeRuns.NeverOrphanedIff` | internal/csidriver/backend.go:252-304 | another handle's deletion never has the resource, in all runs, if and only if the specification keeps its data or no deletable volume of another name has its directory in its tree |
| `VolumeRuns.CreateLeftAlone` | internal/csidriver/driver.go:131-206 | a create that is left alone where the name is free adds exactly one resource, with the requested path, marker and settings, makes the directory unless it is there, and returns the handle of both |
| `VolumeRuns.DeleteLeftAlone` | internal/csidriver/driver.go:247-271 | a deletion that is left alone turns an intact volume's marker into its tombstone, submits the tree-delete of its directory, and changes nothing else |
| `VolumeFaults.CreateAgain` | internal/csidriver/driver.go:131-206 | a repeated create of a volume that is there as requested changes nothing on Core and returns its handle |
| `VolumeFaults.CreateReconciles` | internal/qumulo/nfs.go:298-327 | one that is there with other settings gets the requested ones by one patch, and no other change, although others' writes come in between up to twice |
| `VolumeFaults.CreateGivesUp` | internal/qumulo/nfs.go:298-327 | the third conflict ends the create with Core as it was |
| `VolumeFaults.LostPostIsRecovered` | internal/qumulo/nfs.go:282-296 | a create that gets no answer to a POST that took effect ends in the same state as one left alone |
| `VolumeFaults.LostPostWithoutEffect` | internal/qumulo/nfs.go:285-291 | if the POST took no effect the create fails and leaves only the directory |
| `VolumeFaults.LatePostIsRecovered` | internal/qumulo/nfs.go:283-284 | a create whose POST comes second to one of the same request returns the same volume |
| `VolumeFaults.TakenNameIsRefused` | internal/qumulo/nfs.go:305-310 | a create of a name that carries another marker or leads to another path fails at its first read and writes nothing but its directory |
| `VolumeFaults.ErrorEndsCreate` | internal/qumulo/nfs.go:282-328 | which failures of a call a create survives, and that a call without effect leaves Core as it was |
| `VolumeFaults.ReplacementEndsCreate` | internal/csidriver/backend.go:203-246 | a create fails once its path leads to another directory or its resource has another marker, key or path |
| `VolumeFaults.TombstoneDespiteConflicts` | internal/csidriver/backend.go:252-304 | up to two conflicts do not keep a deletion from its tombstone, which changes the marker alone |
| `VolumeFaults.TombstoneGivesUp` | internal/csidriver/backend.go:255-304 | the third conflict ends the deletion without a change |
| `VolumeFaults.RemovalDespiteConflicts` | internal/csidriver/backend.go:345-405 | likewise the removal takes away exactly the one resource |
| `VolumeFaults.RemovalGivesUp` | internal/csidriver/backend.go:345-405 | and the third conflict leaves it |
| `VolumeFaults.ErrorEndsDelete` | internal/csidriver/backend.go:252-405 | which failures of a call a deletion survives, and that a call without effect leaves Core as it was |
| `VolumeFaults.ReplacementEndsDelete` | internal/csidriver/backend.go:252-405 | a deletion writes nothing where its path, its resource's key or path, or its marker is no longer the handle's |
| `VolumeFaults.UnearnedSuccessEnds` | internal/csidriver/driver.go:131-275 | a write reported as done without having taken effect ends the call, and Core is as it was |
| `VolumeFaults.LostSubmissionIsReconciled` | internal/qumulo/tree_delete.go:61-91 | a tree-delete submission that gets no answer is looked up and not repeated: if it took effect the deletion waits for the job |
| `VolumeFaults.LostSubmissionWithoutEffect` | internal/qumulo/tree_delete.go:78-91 | if no job is found the deletion fails |
| `VolumeFaults.SubmissionFindsJob` | internal/qumulo/tree_delete.go:71-75 | a submission that finds another call's job waits for that one |
| `VolumeFaults.WaitsForJob` | internal/qumulo/tree_delete.go:106-134 | a deletion waits, changing nothing, for any number of polls as long as the job runs |
| `VolumeFaults.PollEnds` | internal/qumulo/tree_delete.go:106-148 | it fails once the job has aborted and goes on to the resource once it is off the record |
| `VolumeRuns.ReplacedDeletionIsStuck` | internal/csidriver/driver.go:131-206 | for every volume there is a run of two creates and a crashed delete after which its path is taken over and no retry of the deletion completes |
| `VolumeRuns.AbortedDeletionIsStuck` | internal/qumulo/tree_delete.go:106-148 | for every volume there is a run after which its tree-delete is aborted and no retry of the deletion completes |
| `VolumeRuns.NestedVolumeIsLost` | internal/csidriver/config.go:232-240 | deleting a volume destroys any volume at its path or below it that has another name and that nobody asked to delete |
| `VolumeRuns.NestedCreateIsStale` | internal/csidriver/config.go:232-240 | if the outer volume is deleted just before, a create of the inner one returns a volume without a directory |
| `VolumeRuns.NestedVolumeIsReissued` | internal/csidriver/config.go:232-240 | creating the lost inner volume again issues a second handle for its resource |
| `VolumeRuns.NestedVolumeIsOrphaned` | internal/csidriver/config.go:232-240 | and deleting by that handle leaves the deletion by the first one stuck |
| `VolumeRuns.BasePathNests` | internal/csidriver/config.go:232-240 | a volume whose base path is another volume that deletes its data is such an inner one |
| `EtagLoop.DocumentIsFoldOfLog` | internal/qumulo/files.go:163-196 | in every run of interleaved read-modify-write loops, with conflicts, replays, crashes and lost responses, the stored document is the fold of the committed operations in commit order |
| `EtagLoop.SuccessHasOnePoint` | internal/qumulo/policy.go:123-164 | a loop that succeeds took effect at one point between its start and its return: its write is the commit there, or the document was already as wanted |
| `EtagLoop.LogGrows` | internal/qumulo/quotas.go:103-134 | nothing committed is ever withdrawn along a run |
| `EtagLoop.ConditionalWriteCommitsOnce` | internal/qumulo/client.go:236-296 | after any commit the precondition of a pending conditional write fails for good, so however often the client library sends it, it takes effect at most once |
| `EtagLoop.RunIsFoldIff` | internal/qumulo/policy.go:127-131 | in any run, also one that starts without a document, every document on the way is the fold of what was committed if and only if no write without a precondition overwrites a value that gives another result than the empty one |
| `EtagLoop.GivingUpTakesCommits` | internal/qumulo/policy.go:123-164 | in every run a loop that gives up because its attempts are used up has had at least that many commits between its start and its end, its own replayed ones included |
| `EtagLoop.LeftAloneWrites` | internal/qumulo/policy.go:123-164 | a loop that nobody disturbs stores what its operation makes of the stored document, in two calls |
| `EtagLoop.LeftAloneReads` | internal/qumulo/policy.go:123-164 | where there is nothing to write one read ends it with the document untouched, and a missing document is made or not as the kind of loop says |
| `EtagLoop.RivalCostsAnAttempt` | internal/qumulo/policy.go:150-163 | a write whose document has changed has no effect, however often it is sent; a conflict costs one attempt and a fault ends the loop |
| `EtagClient.OthersLeaveMe` | internal/qumulo/quotas.go:103-134 | whatever other callers do between two calls of one caller, that caller's own progress stays and no commit is withdrawn |
| `EtagClient.Core.Get` | internal/qumulo/quotas.go:75-86 | one GET is a step of the state machine after any steps of other callers: it fails, or the caller goes on with the document and ETag that are stored at that instant |
| `EtagClient.Core.Send` | internal/qumulo/quotas.go:88-101 | one write with all its repetitions is a number of steps between any steps of other callers: success means that this value is stored now, a conflict sends the caller back to reading until its attempts are used up |
| `AclGrants.HasExactTrusteeGrant` | internal/qumulo/files.go:251-263 | the scan finds out whether the trustee has exactly one entry and it is the desired one up to the order of flags and rights |
| `AclGrants.FilterInPlace` | internal/qumulo/files.go:182-187 | the filter that overwrites the slice it reads leaves exactly the other trustees' entries, in order, at the front |
| `AclGrants.ApplyOnEntries` | internal/qumulo/files.go:178-188 | a grant leaves its trustee exactly the desired entry and a revoke none; every other trustee's entries are untouched |
| `AclGrants.GrantDirectoryAccess` | internal/qumulo/files.go:150-201 | the loop, against a Core that others keep changing, is an execution of the state machine that ends as the loop reports; on success the ACL stored then has an entry of the trustee, and every one allows reading, inherits to objects and containers, and carries all five write rights if the grant is read-write and none if it is read-only; an empty trustee and falling back to a mode change are refused without a call |
| `AclGrants.RevokeDirectoryAccess` | internal/qumulo/files.go:203-237 | the same for the revoking loop; an empty trustee and a missing ACL are nothing to do |
| `AclGrants.ApplyKeepsOthers` | internal/qumulo/files.go:214-224 | all other entries keep their content and their order relative to each other |
| `AclGrants.ApplySettles` | internal/qumulo/files.go:175-177 | an operation recognises its own effect, so a replay after a lost response writes nothing |
| `AclGrants.RevokeCommutes` | internal/qumulo/files.go:203-237 | a revoke commutes with any operation on another trustee, and neither makes the other look done |
| `AclGrants.AclFollowsLastCommit` | internal/qumulo/files.go:150-237 | in every run a trustee whose last committed operation is a grant has exactly one entry, which allows reading, inherits, and carries WRITE_EA, WRITE_ATTR, MODIFY, EXTEND and DELETE_CHILD if the grant is read-write and none of them if it is read-only; one last revoked has no entry, and one never named keeps its entries |
| `AclGrants.SuccessfulCallHasItsEffect` | internal/qumulo/files.go:150-237 | at the point where a successful grant took effect the trustee had exactly one entry, with the rights just listed; at that of a revoke, none |
| `AclGrants.GivingUpTakesFourCommits` | internal/qumulo/files.go:166-237 | in every run a grant or revoke gives up for conflicts only after four changes of the ACL were committed since it began |
| `PolicyStatements.PolicyDocument.UpsertStatement` | internal/policy/actions.go:69-91 | the in-place upsert computes the specified replacement of the first statement with the Sid, or the append |
| `PolicyStatements.PolicyDocument.RemoveStatementForAuthId` | internal/policy/actions.go:114-125 | the in-place removal keeps exactly the statements that are not this Sid's for this identity |
| `PolicyStatements.ApplyKeepsUniqueSids` | internal/policy/actions.go:69-125 | no operation duplicates a Sid |
| `PolicyStatements.ApplyKeepsOtherSids` | internal/policy/actions.go:69-125 | statements of other Sids keep content and order |
| `PolicyStatements.RemoveAfterUpsert` | internal/policy/actions.go:69-125 | removing after upserting equals removing from the original list exactly when the Sid was free or its first statement already belonged to the identity |
| `PolicyStatements.UpsertedTwice` | internal/policy/actions.go:69-91 | upserting again changes nothing |
| `PolicyStatements.RemovedTwice` | internal/policy/actions.go:114-125 | removing again changes nothing |
| `PolicyStatements.RemovedUpsertedCommute` | internal/policy/actions.go:69-125 | upsert and removal of different Sids commute |
| `PolicyStatements.RemovedCommute` | internal/policy/actions.go:114-125 | removals commute |
| `PolicyStatements.NoCommittedStatementIsLost` | internal/qumulo/policy.go:123-164 | in every run from a stored policy the last committed operation on each Sid is in force: an upsert's statement is the only one with its Sid and allows its actions to its account, a removed account is named by none; Sids stay unique |
| `PolicyStatements.SuccessfulMutationHasItsEffect` | internal/qumulo/policy.go:123-164 | at the point where a successful upsert took effect the first statement with its Sid allowed exactly its actions to exactly its account; at that of a removal no statement with its Sid named its account |
| `PolicyStatements.GivingUpTakesEightCommits` | internal/qumulo/policy.go:123-164 | in every run a mutation gives up for conflicts only after eight changes of the policy were committed since it began |
| `PolicyStatements.ApplyPutsInForce` | internal/policy/actions.go:69-125 | each operation brings this about on any policy, and fills in a missing version |
| `PolicyStatements.ReapplyingACommittedWriteIsANoOp` | internal/qumulo/policy.go:123-164 | re-applying a committed but unreported mutation changes nothing, whatever other Sids' mutations came in between |
| `PolicyStatements.MutateBucketPolicy` | internal/qumulo/policy.go:123-164 | the loop, against a Core that others keep changing, is an execution of the state machine that ends as the loop reports, with the unconditional write after a 404 |
| `PolicyStatements.RacingGrantsLoseOne` | internal/qumulo/policy.go:127-131 | on a bucket without a policy two first grants can both report success while one statement is lost |
| `PolicyStatements.ReplayedGrantLosesLaterOne` | internal/qumulo/policy.go:127-131 | on a bucket without a policy the replay of a first grant can even undo a later one that wrote under an ETag |
| `PolicyStatements.PolicyRunsAreLinearIff` | internal/qumulo/policy.go:123-164 | all runs keep the policy equal to the fold of its committed mutations if and only if the bucket has a policy when they start |
| `Quotas.QuotaNeverShrinks` | internal/qumulo/quotas.go:103-134 | a directory's quota never shrinks along any run |
| `Quotas.SuccessIsBounded` | internal/qumulo/quotas.go:103-134 | what a successful call returned is at least what it asked for and at most Core's limit from then on |
| `Quotas.GivingUpTakesFourCommits` | internal/qumulo/quotas.go:103-134 | in every run a call gives up for conflicts only after four changes of the quota were committed since it began |
| `Quotas.EnsureQuotaAtLeast` | internal/qumulo/quotas.go:103-134 | the loop, run against a Core that others keep changing, is an execution of the state machine and returns exactly what that execution settles on |
| `Quotas.RequestedCapacity` | internal/csidriver/driver.go:414-435 | a range is accepted exactly if neither bound is negative, the requirement does not exceed the limit and the capacity stays in 64 bits; the capacity is then the requirement, or without one the default or the limit, whichever is smaller |
| `Quotas.ReportedCapacityIsHonest` | internal/csidriver/driver.go:172-180 | a capacity reported for a volume with a quota lies between the requested one and the limit, and Core's quota covers it from then on; without a quota it is exactly the requested one |
| `Quotas.CreateCapacity` | internal/csidriver/driver.go:172-180 | the capacity part of a create: with a quota the answer is what Core's quota is then, without one nothing is sent; always within the request |
| `Quotas.ExpandCapacity` | internal/csidriver/driver.go:342-363 | an expansion is refused without a call when the volume has no quota, and otherwise answers with Core's quota |
| `BucketAccess.RevokeBucketAccess` | internal/driver/driver.go:739-830 | success is exactly the specified revocation: no key, no entry and no statement of the account are left, and its user is gone exactly if it still has the name the driver minted; after a failure anywhere, revoking again ends where an uninterrupted revoke would have |
| `BucketAccess.GrantBucketAccess` | internal/driver/driver.go:583-667 | a bucket whose root was replaced is refused untouched; success is exactly the specified grant with one key: the first statement of the account's Sid allows the requested actions to its auth id, and its one access entry carries the write rights exactly if the grant is not read-only; after a failure anywhere, granting again ends in the same state but for the key |
| `BucketAccess.RotateKeys` | internal/driver/driver.go:882-895 | success leaves the identity without keys, and other identities' keys are never touched |
| `BucketAccess.RevokeIsExact` | internal/driver/driver.go:739-830 | a revoke removes exactly its identity's keys, policy statement, access entries and user, and nobody else's |
| `BucketAccess.RevokeDropsUserIff` | internal/driver/driver.go:739-830 | a revoke removes the live user of the account's name exactly if it still is the account's identity and is named cosi- and 32 or 12 hexadecimal digits, and never another user |
| `BucketAccess.GrantIsExact` | internal/driver/driver.go:583-667 | a grant leaves its identity exactly one key, its statement first for its Sid and exactly the desired access entry, and every other user, key, Sid and trustee as they were |
| `BucketAccess.StaleRevokeSparesReplacement` | internal/driver/driver.go:744-756 | a revoke for an old identity leaves a same-named replacement's user, keys, statement and entries untouched |
| `BucketAccess.RevokeCommutes` | internal/driver/driver.go:708-830 | revoking one account commutes with any sequence of grants and revokes of other accounts |
| `BucketAccess.RevokeAfterGrant` | internal/driver/driver.go:538-830 | granting a fresh account and revoking it restores users, keys, statements and access entries |
| `BucketAccess.RevokeUndoesGrant` | internal/driver/driver.go:538-830 | the same with any grants and revokes of other accounts in between |
| `AccessInterleaving.RevokeIsItsWrites` | internal/driver/driver.go:739-830 | a revoke is the list of its writes: each listed key, statement, access entries, user |
| `AccessInterleaving.GrantIsItsWrites` | internal/driver/driver.go:583-667 | a grant is the list of its writes: user, each old key, new key, statement, access entry |
| `AccessInterleaving.InterleavedRevoke` | internal/driver/driver.go:708-830 | however the writes of a revoke fall between those of other accounts' grants and revokes, the outcome is that of the others alone followed by the whole revoke |
| `AccessSerializability.ResolvedIsAllocated` | internal/driver/driver.go:583-667 | the key ids Core allocates along any writes never collide with each other or with keys in use, so what the next results assume of the ids holds as soon as no account's auth id is anybody else's |
| `AccessSerializability.WritesAreEffects` | internal/driver/driver.go:583-830 | any writes are the same as carrying out their effects with the ids that were allocated on the way |
| `AccessSerializability.EachAccountIsIsolated` | internal/driver/driver.go:583-830 | however the grants and revokes of several accounts are interleaved, each account is left with the user, keys, statements and entries its own effects alone would have left; one without effects is left as it was |
| `AccessSerializability.Serializable` | internal/driver/driver.go:583-830 | any interleaving leaves every account with what any sequential order of the accounts leaves it with, for the allocated ids |
| `AccessSerializability.ListOrderIsNotSerial` | internal/driver/driver.go:583-667 | two interleaved grants can leave the statements in the order of one sequential run and the access entries in that of the other |
| `TreeDeletion.TreeDelete` | internal/qumulo/tree_delete.go:40-92 | success means the tree is gone; at most one submission is accepted and none beside an existing job; a job that is or gets aborted, or an unobservable ambiguous submission, never succeeds; a submission without an answer is looked up, and the call gives up only on a failed look, an aborted job, a refused submission, one that is not on record, or when patience runs out |
| `TreeDeletion.WaitForTreeDelete` | internal/qumulo/tree_delete.go:106-134 | polling succeeds only when a record that existed has disappeared, and stops otherwise only when a poll fails, the job has stopped with an error, or patience runs out |
| `TreeDeletion.AbortedIff` | internal/qumulo/tree_delete.go:136-148 | a job has failed for good exactly if its record names an error, is flagged aborted or has that status in any case |
| `TreeDeletion.NeverTwice` | internal/qumulo/tree_delete.go:40-92 | however often deleting is retried no tree is submitted twice |
| `BucketDeletion.MatchingRoots` | internal/driver/driver.go:528-536 | paths that match up to trailing slashes are equally acceptable purge roots |
| `BucketDeletion.Purge` | internal/driver/driver.go:424-480 | success means unregistered and, directories not being renamed, the recorded root gone; a replaced bucket or root is refused without change; every partial purge stays admissible; on a healthy Core it fails only on a replacement or an aborted job |
| `BucketDeletion.Unregister` | internal/driver/driver.go:485-525 | a plain delete removes at most the one bucket and, if asked, its empty root; on a healthy Core it fails only on a replacement or a root that still holds objects |
| `BucketDeletion.PurgeIsDelete` | internal/driver/driver.go:424-480 | a purge touches nothing outside the tree of the recorded file id |
| `BucketDeletion.PurgeTakesExactlyTheTree` | internal/driver/driver.go:424-480 | a finished purge has removed exactly the directories at and below the recorded root |
| `BucketDeletion.OtherRootSurvivesIff` | internal/driver/driver.go:424-480 | the root of another bucket survives a finished purge exactly when it does not lie in the purged tree |
| `BucketDeletion.AbortedPurgeIsBlocked` | internal/qumulo/tree_delete.go:106-148 | for every bucket the steps by which its purge gets stuck: unregistered, tree-delete accepted, job aborted; nothing was replaced and yet the purge is blocked |
| `BucketDeletion.PurgeCanBeStuck` | internal/qumulo/tree_delete.go:136-148 | one such cluster |
| `BucketDeletion.PlainIsDelete` | internal/driver/driver.go:485-525 | a plain delete submits no tree-delete and touches no other directory |
| `BucketDeletion.DriverDeleteBucket` | internal/driver/driver.go:378-526 | a tree-delete is submitted only for a managed handle with root and file id and a class that purges on delete, and only for that file id; a root is deleted only for a managed handle and a class that deletes roots and does not purge; with neither flag, or unmanaged, no directory is touched; a purge that succeeds leaves its root gone; on a healthy Core the call succeeds exactly when nothing was replaced and nothing blocks it |
| `BucketDeletion.DeleteWithRetries` | internal/driver/driver.go:424-480 | after any failed attempts a retry on a healthy Core succeeds under the same condition, and over all attempts the tree was submitted at most once |
| `RetryLoop.DoJSON` | internal/qumulo/client.go:206-310 | every call leaves an admissible transcript of sends and returns what the last reply says; a POST or DELETE is sent at most twice, the second time after a 401; a GET, HEAD, OPTIONS, PUT or PATCH that ends in a transport error, a 429 or a 5xx has been sent six times; only cancellation, a failed login or a bad body end it otherwise |
| `RetryLoop.UnsafeMethodsActOnce` | internal/qumulo/client.go:195-205 | a POST or DELETE is sent at most twice, the second time only after a 401; it takes effect at most once, and exactly once on success |
| `RetryLoop.RejectionHasNoEffect` | internal/qumulo/client.go:288-296 | a POST or DELETE that ends in a 4xx has had no effect |
| `RetryLoop.ConditionalWritesActOnce` | internal/qumulo/client.go:312-326 | against a server that compares If-Match with a version that every write renews, a conditional PUT or PATCH is sent up to six times and takes effect at most once; a final 412 proves that it did not only if no reply was lost |
| `RetryLoop.ConflictAloneIsOwn` | internal/qumulo/client.go:288-296 | when nobody else writes, a final 412 means that the write took effect itself exactly if it was sent with the current version |
| `RetryLoop.ReplayedWriteReportsConflict` | internal/qumulo/client.go:288-294 | a replayed write that took effect can end in a 412 |
| `RetryLoop.ReplayedBlindWriteActsTwice` | internal/qumulo/policy.go:127-131 | a replayed write without If-Match can take effect twice, the second time over another caller's |
| `NodePublish.SameFingerprintMatches` | internal/csidriver/mount.go:196-281 | a mount the driver made is recognised by every later request with the same fingerprint, however its flags are spelled |
| `NodePublish.Target.WriteState` | internal/csidriver/publish_state.go:121-172 | replacing the fingerprint file can fail before or after it took effect |
| `NodePublish.Target.PublishMounted` | internal/csidriver/node.go:103-119 | on a mounted target nothing but memory changes, and success requires the fingerprint on disk to be the request's |
| `NodePublish.Target.PublishFree` | internal/csidriver/node.go:120-146 | the fingerprint is on disk before the mount helper runs, so a mount is never without it, wherever the driver stops |
| `NodePublish.Target.NodePublishVolume` | internal/csidriver/node.go:48-146 | never a second mount; success only for the arguments the target was mounted with; on a healthy node an acceptable request succeeds exactly when the target is free or was mounted for the same arguments |
| `NodePublish.Target.NodeUnpublishVolume` | internal/csidriver/node.go:149-204 | the fingerprint goes only after the mount; a record with another root, another filesystem type, another NFS source, or an SMB source that differs beyond case and trailing slashes leaves mount and fingerprint alone and fails; on a healthy node nothing else is refused |
| `NodePublish.MountOfAnotherVolumeNeverMatches` | internal/csidriver/mount.go:180-194 | a mount made for a volume of another source passes for none of this volume's publish requests |
| `NodePublish.PublishThroughFailures` | internal/csidriver/node.go:136-146 | after any failures and crashes on a free target a restarted driver publishes with exactly one mount, even if an earlier attempt failed after the kernel had mounted |
| `NodePublish.Serve` | internal/csidriver/node.go:48-204 | any publishes, unpublishes and restarts, each failing or crashing anywhere: step by step there is never a second mount, a mount of the driver's has its arguments on disk, a mount that stays keeps them, and success vouches for the request |
| `NodePublish.MountStays` | internal/csidriver/node.go:103-119 | as long as the target stays mounted it is the same mount with the same fingerprint on disk |
| `NodePublish.SuccessfulPublishesAgree` | internal/csidriver/node.go:103-119 | in every run all publishes that succeed while the target stays mounted were asked for the same arguments, those of the mount |
| `PublishFingerprint.CanonicalMapEntries` | internal/csidriver/node.go:281-292 | keys and values alternate in ascending key order |
| `PublishFingerprint.EntriesDetermineMap` | internal/csidriver/node.go:281-292 | two maps have equal entry lists exactly when they are equal |
| `PublishFingerprint.NodePublishFingerprint` | internal/csidriver/node.go:258-279 | the canonical form exists exactly for accepted flag lists and keeps every other argument |
| `PublishFingerprint.SameFingerprintIff` | internal/csidriver/node.go:258-292 | two accepted requests have the same canonical form exactly when they are equal but for the spelling of flags and filesystem type |
| `MountOptions.SanitizedMountFlags` | internal/csidriver/mount.go:68-126 | flags are accepted exactly when all items are allowed and none clash, and yield the items' normal forms in strictly ascending order |
| `MountOptions.OnlyItemsMatter` | internal/csidriver/mount.go:68-126 | the outcome is a function of the set of items |
| `MountOptions.ItemsConcat` | internal/csidriver/mount.go:77-78 | the items of two lists are the union of their items, so order and repetition do not matter |
| `MountOptions.Regrouped` | internal/csidriver/mount.go:78 | joining two flags with a comma is supplying both |
| `MountOptions.AcceptedIsCoherent` | internal/csidriver/mount.go:94-117 | accepted options have distinct keys, none reserved and no contradictory pair |
| `MountOptions.ControlledOptionsAreRefused` | internal/csidriver/mount.go:30-66 | no option that names another server or source, gives credentials, changes protocol or transport, or that mount itself acts on gets through, in whatever case, with whatever value and beside whatever else |
| `MountOptions.MalformedItemsAreRefused` | internal/csidriver/mount.go:128-141 | nor does one with a control character or a key of other characters or that starts with a hyphen |
| `MountOptions.ContradictionsAreRefused` | internal/csidriver/mount.go:71-76 | nor do two that contradict each other |
| `MountOptions.ConflictsAreRefused` | internal/csidriver/mount.go:107-111 | nor one option with two values, or with and without one |
| `MountOptions.OtherOptionsPass` | internal/csidriver/mount.go:68-126 | every other option with a well-formed key is accepted on its own |
| `MountOptions.TuningPasses` | internal/csidriver/mount.go:68-126 | so are those that tune caching, transfer sizes, ownership, retries and hardening |
| `MountOptions.SanitizingIsIdempotent` | internal/csidriver/mount.go:68-126 | sanitizing twice is sanitizing once |
| `MountVerification.MergeMountOptions` | internal/csidriver/mount.go:283-320 | the merged options are the base overridden by the accepted flags and the read-only bit, in strictly ascending order |
| `MountVerification.NewRecordedMountOptions` | internal/csidriver/mount.go:148-168 | reading a mount record collects its bare flags and the last value of each key |
| `MountVerification.FlagOnRecord` | internal/csidriver/mount.go:148-168 | a flag is on record exactly if an item of some list is that flag, up to spaces around it and case |
| `MountVerification.LastValueCounts` | internal/csidriver/mount.go:148-168 | of several values for a key the last is on record |
| `MountVerification.MountMatchesIff` | internal/csidriver/mount.go:180-251 | everything a record has to show to pass for a request, option by option |
| `MountVerification.MatchHasRequested` | internal/csidriver/mount.go:253-281 | a record that passes shows every requested option with its value |
| `MountVerification.RetriesAreTheDrivers` | internal/csidriver/node.go:62-90 | NFS requests that set the number or spacing of retries are refused, SMB requests are not |
| `MountVerification.ValidateRequestedMountOptions` | internal/csidriver/mount.go:253-281 | a record passes exactly when the flags are acceptable and each of them is on record |
| `MountVerification.RecordedMerge` | internal/csidriver/mount.go:283-320 | a record of merged options shows exactly the base's and the caller's bare flags and the mode, and every accepted option |
| `MountVerification.RecordedBase` | internal/csidriver/mount.go:283-302 | a base value that the flags do not override is on record |
| `MountVerification.PublishVerifyRoundTrip` | internal/csidriver/mount.go:180-320 | the options a volume is mounted with, recorded as given, are recognised by the same request and rejected for the opposite read-only bit |
| `StrictClaim.Claim` | internal/qumulo/nfs.go:266-328 | against arbitrary other writers: success yields a resource as created, patched or found, and one with the request's marker, path and settings wherever creating and patching settle the request; every patch that takes effect hits a resource of the caller's own; at most one POST and three patches; it gives up only when a call fails, the resource is gone again after a POST or conflict, or the third patch meets a conflict; undisturbed, a free name is taken by one POST, an own resource that differs is patched once, and one with another marker or path is left alone and refused |
| `StrictClaim.Reconcile` | internal/qumulo/nfs.go:298-328 | the loop from the resource read or still to be read: the outcome follows from the last answers, and it gives up only when a read or patch fails, the resource is gone, or the third patch meets a conflict |
| `StrictClaim.Registry.Patch` | internal/qumulo/nfs.go:315-325 | a conditional patch hits only the version that was read, and can report a conflict after it took effect |
| `NfsExports.EqualNFSRestrictions` | internal/qumulo/nfs.go:602-615 | the elementwise comparison decides equality of the lists |
| `NfsExports.PatchReconciles` | internal/qumulo/nfs.go:576-600 | there is something to patch exactly when a writable field differs, and one patch makes all of them equal without retargeting |
| `NfsExports.ExportsAreCoherent` | internal/qumulo/nfs.go:298-327 | the claim loop settles every export request, and a settled export equals the request |
| `NfsExports.ClaimNFSExport` | internal/qumulo/nfs.go:257-264 | a successful strict claim returns and leaves exactly the requested export; undisturbed it creates a missing one by one POST, patches an own one that differs once, refuses another marker or path without a write, and writes nothing when repeated |
| `SmbShares.EqualSMBSharePermissions` | internal/qumulo/smb.go:780-790 | the loop decides whether kinds and rights are equal and trustees match in order |
| `SmbShares.TrusteeSurvivesIff` | internal/qumulo/smb.go:792-809 | a trustee is recognised in what Core stores for it exactly when the request gives an auth id, SID, UID or name, or Core leaves it alone |
| `SmbShares.StoredMatchIff` | internal/qumulo/smb.go:780-809 | the same for whole permission lists |
| `SmbShares.NextDiffIsEmptyIff` | internal/qumulo/smb.go:700-740 | applying the computed patch leaves nothing to patch exactly when the permissions already matched or every trustee is recognisable; modes and sector size never drift |
| `SmbShares.PatchedForEver` | internal/qumulo/smb.go:700-740 | with an unrecognisable trustee every further claim finds something to patch |
| `SmbShares.GroupShareNeverSettles` | internal/qumulo/smb.go:792-809 | one such request: a share for a group given by its gid |
| `SmbShares.SharesAreCoherent` | internal/qumulo/smb.go:287-349 | the claim loop settles every share request whose trustees are recognisable |
| `SmbShares.SettledIsAsRequested` | internal/qumulo/smb.go:700-740 | nothing left to patch means the share is as requested but for the trustees' other identifiers and defaults |
| `SmbShares.AsRequestedIff` | internal/qumulo/smb.go:700-809 | what as requested means field by field: each trustee by the first identifier the request gives, defaults only for empty modes and sector sizes |
| `SmbShares.ReachedIsTold` | internal/qumulo/smb.go:700-740 | whatever a claim ends with is as requested but for the permissions, and those either match or are what Core stores for the requested ones |
| `SmbShares.ClaimSMBShare` | internal/qumulo/smb.go:279-285 | for every request a successful strict claim leaves a share that Core was told all of, and as requested if its trustees are recognisable; patches hit only the caller's own share; undisturbed it creates a missing share by one POST, patches an own one that differs once, and refuses another marker or path without a write |
| `KeyedLocks.StepInv` | internal/csidriver/driver.go:481-500 | every step of either table keeps counters, entries and owners consistent, although the two tables release in opposite order |
| `KeyedLocks.MutualExclusion` | internal/csidriver/node.go:294-318 | in every run no two requests work under the same key at once |
| `KeyedLocks.SectionIff` | internal/csidriver/driver.go:101-111 | a request works under exactly the keys it has locked, until it lets go of them |
| `KeyedLocks.EntryExistsIff` | internal/csidriver/node.go:310-315 | an entry exists exactly while it is referred to or, for targets, remembers a fingerprint, and its counter is the number of requests that refer to it |
| `KeyedLocks.RemembersAsTold` | internal/csidriver/node.go:294-318 | a target's lock object remembers a fingerprint exactly as its holder last said, and no other object is affected |
| `KeyedLocks.EveryoneCanFinish` | internal/csidriver/driver.go:101-111 | from every consistent state with names locked before paths there is a schedule in which all requests finish |
| `KeyedLocks.NoDeadlock` | internal/csidriver/driver.go:101-111 | if every request locks one key, or a name and then a path, every run can be continued to one in which all requests have finished |
| `Identifiers.EscapeRoundTrip` | internal/naming/naming.go:85-91 | escaping is undone by unescaping, leaves no colon, and keeps empty and non-empty apart |
| `Identifiers.EscapedAlphabet` | internal/naming/naming.go:85-91 | escaping leaves letters, digits, hyphen, underscore, period and tilde alone and yields nothing else but plus signs, percent signs and hexadecimal digits |
| `Identifiers.HexDigitsDecode` | internal/naming/naming.go:107-184 | unescaping reads hexadecimal digits of both cases, each as its own value |
| `Identifiers.BucketRoundTripIff` | internal/naming/naming.go:82-184 | printing and parsing a bucket identifier gives it back exactly when it is well formed |
| `Identifiers.HalfRootIsDropped` | internal/naming/naming.go:82-104 | a root path without a file id, or the reverse, is not printed |
| `Identifiers.BucketStringsDiffer` | internal/naming/naming.go:82-104 | different well-formed bucket identifiers never print alike |
| `Identifiers.ParsedBucketIsWellFormed` | internal/naming/naming.go:107-184 | parsing yields only well-formed identifiers, and a managed one carries an absolute root and a file id |
| `Identifiers.AcceptedBuckets` | internal/naming/naming.go:107-184 | a string is accepted only under one of three version prefixes: under the first it carries no root, and as managed only under the third and with that word at its end |
| `Identifiers.AccountRoundTripIff` | internal/naming/naming.go:195-285 | the same for account identifiers |
| `Identifiers.AccountStringsDiffer` | internal/naming/naming.go:195-216 | different well-formed account identifiers never print alike |
| `Identifiers.ParsedAccountIsWellFormed` | internal/naming/naming.go:219-297 | parsing yields only well-formed account identifiers, with a valid restore mode if any |
| `Identifiers.AcceptedAccounts` | internal/naming/naming.go:219-297 | the same for accounts: no auth id under the first version, and under the third a restore mode of four octal digits that starts with a zero |
| `ResourceNames.VolumeResourceName` | internal/csidriver/handle.go:138-164 | always at most 63 characters of [a-z0-9-] with a letter or digit at both ends: the shortened stem and the digest |
| `ResourceNames.VolumeNamesDiffer` | internal/csidriver/handle.go:154-163 | names with different digests never collide |
| `ResourceNames.DigestIff` | internal/csidriver/handle.go:159 | a digest is 32 lower-case hexadecimal digits |
| `ResourceNames.ShortenedIs` | internal/csidriver/handle.go:138-164 | a short legal name is its own stem, one without letters and digits gets the placeholder, and a longer one loses its end, cut at most one character below thirty |
| `ResourceNames.Sanitize` | internal/naming/naming.go:355-374 | the builder loop computes the specified stem |
| `ResourceNames.SanitizedIsStem` | internal/naming/naming.go:353-374 | sanitizing keeps exactly the letters and digits in order, is the identity exactly on legal stems, and is idempotent |
| `ResourceNames.LettersAre` | internal/naming/naming.go:353-374 | the letters and digits kept are exactly those from a to z and 0 to 9 |
| `ResourceNames.LowerRunesAre` | internal/csidriver/handle.go:141 | lower case is that of ASCII but for the Kelvin sign and the dotted capital I |
| `ResourceNames.SeparatorsBecomeOneHyphen` | internal/naming/naming.go:353-374 | whatever stands between two words becomes one hyphen, and before the first nothing |
| `ResourceNames.PeriodsDisappear` | internal/naming/naming.go:353-374 | periods do not separate words |
| `ResourceNames.ValidateBucketName` | internal/naming/naming.go:377-397 | the loop accepts exactly the legal names |
| `ResourceNames.ValidNameIff` | internal/naming/naming.go:377-397 | a legal name has 3 to 63 lower-case letters, digits and hyphens, the first and the last no hyphen |
| `ResourceNames.BucketName` | internal/naming/naming.go:319-351 | a name is returned exactly when the combined name is legal |
| `ResourceNames.BucketNameFailsIff` | internal/naming/naming.go:319-351 | with a legal prefix a name is refused exactly when nothing had to change and fewer than three characters are left |
| `ResourceNames.DigestedNamesDiffer` | internal/naming/naming.go:319-351 | names that end in a digest never collide for inputs with different digests |
| `ResourceNames.BucketNameIsStable` | internal/naming/naming.go:311-318 | a derived name without double hyphens is its own derived name |
| `MountTable.ParseMountInfo` | internal/csidriver/mount_linux.go:26-94 | returns the one match that is no other match's parent, and otherwise says whether there are none or several |
| `MountTable.ReturnedIsTheOnlyTop` | internal/csidriver/mount_linux.go:73-93 | a returned record is the only match that is not another match's parent |
| `MountTable.OrderDoesNotMatter` | internal/csidriver/mount_linux.go:73-93 | the outcome does not depend on the order of the lines |
| `MountTable.StackYieldsTop` | internal/csidriver/mount_linux.go:73-93 | a stack in any line order yields its top |
| `MountTable.AcyclicNeverCyclic` | internal/csidriver/mount_linux.go:90-92 | acyclic parent links never lead to the cyclic error |
| `Text.EqualFoldIff` | internal/csidriver/mount.go:184 | among ASCII strings equal up to case is equal in lower case; the long s and the Kelvin sign fold into s and k |
| `Text.LowerIs` | internal/csidriver/mount.go:140 | lowering changes the letters A to Z alone, each to its small letter |
| `Text.SpacesAre` | internal/csidriver/mount.go:79 | what is trimmed around an option is the white space of Unicode |
| `Text.BelowIff` | internal/csidriver/mount.go:124 | the order of sorted options: decided by the first difference, a proper prefix first |

## Left out

- HTTP, TLS, JSON, URL parsing, paging, gRPC servers, metrics, logging, error wording and status codes: calls are represented by their outcomes.
- Session login and its single flight, and the connection cache: a login succeeds or ends the call.
- Credential selection, class and StorageClass parameters, capability checks: flat branching without state. A publish request's verdict from these checks is a parameter.
- HMAC, SHA-256 and base64, and the handle signature: taken as injective.
- The v3 preview NFS and SMB endpoints and tenant ids: the CSI path never uses them.
- CheckVolume's verdict: it is a preflight read, so `VolumeProtocol` lets it admit or refuse any create.
- The quota inside CreateVolume and ControllerExpandVolume is modelled as its own document in `Quotas`; in `VolumeProtocol` it belongs to the `Configure` step.
- The NFS and SMB arms of the volume protocol differ only in the endpoint they call and are one arm with the protocol in the resource key.
- Directory modes and the chmod that restores one for old account handles: no property here depends on a mode.
- Revocation and grants through handles that carry no immutable identity (`revokeLegacy`, the by-name branch of a grant). Deletion through them is modelled.
- DriverCreateBucket, brownfield import and bucket features: create-or-get operations without a protocol of their own.
- Actions per access mode and the Resource field of policy statements: an upsert carries an arbitrary list of actions.
- Concurrent COSI RPCs for one account or one bucket deletion: each runs alone against a failing cluster, as the driver takes no lock there. Interleavings of different accounts are covered by `AccessInterleaving` and `AccessSerializability`; policies and ACLs are changed by one atomic operation inside these RPCs, and the interleavings of those by `EtagLoop`.
- Listing a user's keys by owner falls back to a full listing in the code; both are one lookup here.
- File modes, symlinks and fsync around the fingerprint file: an atomic durable cell that can fail before or after it changes. Likewise the mount target is accepted as given.
- Parsing the columns of a mount table line: a line is a record or nothing.
- A lookup of the mount that fails because the target does not exist (`internal/csidriver/node.go:176-182`): a lookup fails or tells the truth.
- MountVerification.PublishVerifyRoundTrip: requires the path of the SMB credentials file to be free of commas and not to end in white space; mount options are joined with commas, so such a state directory cannot work in the first place.
- MountVerification.MergeMountOptions: lower-casing is that of ASCII letters; base options and accepted flags have no other letters in their keys.
- Case folding beyond ASCII: in mount values it is exact against the ASCII constants compared with; in SMB sources and trustee names it is ASCII plus the two letters that fold into it.
- Identifiers.BucketRoundTripIff: strings are sequences of bytes, which is what the escaping works on.
- Making the parents of a volume directory: anyone may make directories at any time (`DirMade` in `VolumeProtocol`), the parents among them, and a volume directory does not require its parents in the model.
- RetryLoop.DoJSON: back-off times and request construction; cancellation can strike at every send.
- Nil and empty lists are not told apart, as the comparisons in question do not either.
