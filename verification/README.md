# Verified model of the quarantine proxy

The proxy sits between package managers and upstream repositories. Artifacts are held in
quarantine until a person or the security rules approve them; approval cascades down the
tree of cache keys, and new artifacts inherit it from their ancestors. This project models
the parts of the proxy whose behaviour is hard to see from any one function, and proves what
holds over every input, every run and every interleaving.

| file | models |
|---|---|
| `SqlLike.dfy` | the `LIKE` matcher and the kinship relation `child LIKE base \|\| '/%'` |
| `Quarantine.dfy` | the quarantine table as values: operations, runs, and what holds in every run |
| `QuarantineStore.dfy` | the store as a class, each method proved against those operations |
| `ScanWait.dfy` | waiting requests and scan hooks interleaved, with the subscriber lists |
| `Registry.dfy` | the request path, with other actors between any two of its steps |
| `Verdict.dfy` | scanner fan-in, rule evaluation, stored findings |
| `ScanHook.dfy` | the scan hook from its first status to its notification |
| `Docker.dfy`, `DockerIndex.dfy` | the Docker key codec and the digest index |
| `PyPI.dfy` | wheel selection, dependency names, recursive prefetch |
| `ArArchive.dfy` | the ar(5) reader and rebuilder |
| `Cran.dfy` | the CRAN `PACKAGES` index (section 5.1 of the Debian Policy Manual) |
| `Session.dfy` | the session cookie (base64url of section 5 of RFC 4648) |
| `LogRotation.dfy`, `Loki.dfy` | log rotation and the Loki batcher |
| `DiskCache.dfy` | the disk cache with metadata written late |
| `Strings.dfy`, `Wrappers.dfy` | the string functions and result types the others share |

## How the model is built

Objects that change in place are classes (`QuarantineStore`, `Registry`, `DockerDriver`,
`PackagesIndex`, `FileBackend`, `LokiBackend`, `DiskStore`). Their methods are proved equal to
step functions on values, and the theorems are about runs of those steps; the registry's are
proved against what a request may answer, and what it answers and leaves undisturbed.
Runs are pairs of sequences, states and operations. Concurrency is interleaving: in
`ScanWait`, `Loki` and `DiskCache` each atomic step of each actor is an event, and in
`Registry` an environment, arbitrary in number and kind of steps, acts between any two steps
of a request; a scan hook and a driver's prefetch are part of it. Times are step counters,
scores are reals, upstream repositories are fixed functions, and keyed hashes are function
parameters.

## Where the code departs from its documentation, and other findings

- A key with `%` before a `/` breaks the kinship relation: exactly then kinship does not
  compose through the key (`KinTransitiveExactly`), an approval may reach a key that is no
  descendant of anything approved by a person (`UnsoundKeyLosesOrigin`), and a row may stay
  pending beneath an approved ancestor (`UnsoundKeyLeavesPending`). The run theorems
  therefore ask for keys without that pattern, which covers all keys without `%`.
- Kinship ignores the case of ASCII letters (`KinIgnoresCase`), so approvals and rejections of
  one tag reach what lies beneath a tag that differs from it in case only (`CaseOfTag`).
- A request waiting for a scan is always signalled, except exactly if its row came in approved
  by inheritance and was revoked since: no hook was ever started for it, and the request
  sleeps until its timeout (`NoLostWakeUp`, `SleeperWasRevoked`, `RevokedInheritanceSleeps`).
- The insertion of a rejected key again refreshes only the id and the status
  (core/quarantine.go:196-200). A row therefore keeps the `require_human_review` flag of the
  first insertion of its key, and has the flag of the artifact as downloaded, which line 707
  of the repository's README promises, exactly if the two agree (`FlagIsOfFirst`). The scan
  hook is handed the new flag, the rescan reads the old one (`RevivedFlagIsLost`).
- Only the row named in a call is checked for `require_human_review`: automatic approvals
  reach flagged rows exactly by cascade from an unflagged ancestor (`AutoReachesFlagged`,
  `FlaggedChildApproved`). Inheritance does not look at the flag at all, so a flagged artifact
  comes in approved beneath a parent that was approved automatically
  (`FlaggedBecomesApproved`, `FlaggedChildInherits`), although core/driver.go:28-30 says that
  the flag keeps it pending and blocks any automatic approval.
- A rejection does not last against automatic approvals, which look at the flag but not at the
  status. `RejectedBecomesApproved`, `RejectionLasts` and `RejectionLeft` say exactly what ends
  one. The rescan and the hook approve a row that was rejected after they were set going
  (`RescanAmid`, `LateApprovalUndoesRejection`), and since the list of scans to resume includes
  rejected rows (core/quarantine.go:480-496), a restart alone approves a rejected row without
  a finished scan, if its scan then passes (`RestartApprovesRejected`).
- The rescan after a rule change also passes rows that have no findings yet
  (`NoFindingsPass`).
- The fan-in drops the scanners' errors (security/security.go:90) and returns none of its own
  (security/security.go:105), so the hook never writes "error" in the program as it is, and
  a failing scanner counts as one without findings. If all scanners fail, the row can be
  approved automatically (`FailedScannersApprove`).
- A Docker image whose name begins with the path element `v2` is prefetched from another
  image: the driver takes that element for its own prefix (`ImageNameExactly`, `V2IsDropped`).
  The URL read back from a blob key is still the prefetch's, except for some tags of the image
  `v2`, such as `manifests` (`UpstreamRoundTrip`, `UpstreamOfV2`, `TagManifestsOfV2`).
- A direct request for a blob that was not prefetched spoils the live digest index exactly if
  it leaves a row and its path contains "/manifests/" (`HarmlessExactly`, `SpoiledRun`).
- ar(5) pads members of odd size with a newline; the rebuilder pads with a zero byte.
  `RebuildIsExcision` gives the exact condition under which it merely cuts the member out.
- A metadata write that outlives a `Set` or a `Delete` brings back a deleted key or serves
  the old content type with new bytes (`LateTouchResurrects`, `LateTouchServesOldType`).
  `CacheIsMapExactly` gives the exact condition under which the cache is a map.

## Model

| member | source | states |
|---|---|---|
| SqlLike.KinOfExtension | core/quarantine.go:213-220 | every key, with or without wildcards, is an ancestor of what is appended to it after a slash |
| SqlLike.KinDescends | core/quarantine.go:213-220 | a descendant has strictly more slashes than its ancestor, so kinship is irreflexive and asymmetric and has no cycle, for all keys |
| SqlLike.LikePositional | core/quarantine.go:317-320 | a pattern without `%` matches exactly the texts of its length that have, position by position, the same character, the same ASCII letter in either case, or any character for `_` |
| SqlLike.KinTransitive | core/quarantine.go:317-320 | kinship composes through every key in which no `%` stands before a `/` |
| SqlLike.KinNotTransitive | core/quarantine.go:317-320 | for every other key there are an ancestor and a descendant of it that are not akin |
| SqlLike.KinTransitiveExactly | core/quarantine.go:213-220 | kinship composes through a key if and only if no `%` stands before a `/` in it |
| SqlLike.KinIsStrictOrder | core/quarantine.go:213-220 | on keys without `%`, `_` or not, kinship is a strict partial order |
| SqlLike.KinIsPathPrefix | core/quarantine.go:213-220 | over a base without wildcards, kinship is the strict path prefix up to the case of ASCII letters, in both directions |
| SqlLike.KinIgnoresCase | core/quarantine.go:213-220 | changing the case of ASCII letters in child or base does not change kinship, wildcards or not |
| SqlLike.CaseOfTag | core/quarantine.go:317-320 | what lies beneath the tag `v1` of an image also lies beneath its tag `V1` |
| Quarantine.BecomesApproved | core/quarantine.go:155-253 | a key becomes approved only by an approval of itself or of an ancestor while pending, or by insertion beneath an approved parent |
| Quarantine.BecomesPending | core/quarantine.go:155-286 | a key becomes pending only by insertion without an approved parent, or by a revocation that names it |
| Quarantine.StepKeepsUniqueIds | core/quarantine.go:155-211 | no operation gives two rows the same id |
| Quarantine.DecisionIsAudited | core/quarantine.go:225-279 | an approval or rejection that finds its row, and may approve it, writes exactly one audit entry, for that row and by its reviewer; any other changes nothing |
| Quarantine.ApprovalRow | core/quarantine.go:225-238 | a successful approval approves its row and the pending rows beneath it, with the stated reviewer and comments, keeps their other fields, and touches no other row |
| Quarantine.RejectionRow | core/quarantine.go:242-253 | a rejection rejects its row and the pending rows beneath it, with the stated reviewer and comments, and touches no other row |
| Quarantine.InsertionRow | core/quarantine.go:155-211 | an insertion never touches a row that stands; a rejected row is revived under the new id with everything else as first recorded; a new row carries the artifact's fields |
| Quarantine.RevocationRow | core/quarantine.go:282-286 | a revocation changes the one row it names and no descendant of it, and is audited |
| Quarantine.CommentRow | core/quarantine.go:397-401 | a comment changes nothing but the comment of the one row it names, and is not audited |
| Quarantine.FlaggedBecomesApproved | core/quarantine.go:155-238 | exactly when a step makes or leaves a row flagged for human review newly approved: a person's call on it, a cascade while it is pending, or its insertion, the first or after a rejection, beneath an approved parent |
| Quarantine.AutoReachesFlagged | core/quarantine.go:225-238 | an automatic approval reaches a flagged row exactly by cascade from an unflagged ancestor while the row is pending |
| Quarantine.ApprovedIsExplained | core/quarantine.go:155-238 | in every run, every approved key has a finite chain of cascade and inheritance steps that ends in one approval call |
| Quarantine.OriginIsAncestor | core/quarantine.go:213-238 | over sound keys, the call at the end of the chain named the key itself or an ancestor of it |
| Quarantine.ApprovedHasAuditedOrigin | core/quarantine.go:155-279 | in every run over sound keys, an approved row goes back to one audited approval of its key or an ancestor, by a reviewer other than "auto" or on an unflagged row |
| Quarantine.CascadeReaches | core/quarantine.go:225-238 | the call that makes an ancestor approved leaves nothing pending beneath that ancestor |
| Quarantine.PendingBeneathApprovedWasRevoked | core/quarantine.go:155-286 | in every run over sound keys, a row pending beneath an approved ancestor was revoked and has been pending since |
| Quarantine.UnsoundKeyLeavesPending | core/quarantine.go:317-327 | for every unsound key there is a run without revocation that leaves a row pending beneath it while it is approved |
| Quarantine.UnsoundKeyLosesOrigin | core/quarantine.go:213-220 | for every unsound key there is a run that approves a row although the only approval named neither it nor an ancestor |
| Quarantine.InheritThenRevoke | core/quarantine.go:282-286 | there is a run in which a child inherits approval at insertion and is pending after a revocation |
| Quarantine.RowIsOfFirst | core/quarantine.go:176-203 | in every run, a row describes the artifact of its key's first insertion, whatever was inserted since |
| Quarantine.FlagIsOfFirst | core/quarantine.go:176-203 | in every run, a row carries the flag of its key's first insertion, and so the flag of the latest exactly if the two agree |
| Quarantine.RevivedFlagIsLost | core/quarantine.go:194-203 | for every key there is a run that inserts it unflagged, rejects it, inserts it flagged, and approves it automatically |
| Quarantine.FlaggedChildApproved | core/quarantine.go:225-238 | beneath every parent there is a flagged pending child that the automatic approval of the parent approves |
| Quarantine.FlaggedChildInherits | core/quarantine.go:170-203 | beneath every parent that was approved automatically there is a flagged child that comes in approved |
| Quarantine.RejectedBecomesApproved | core/quarantine.go:155-238 | a rejected row becomes approved in one step exactly by a successful call that names it, or by its insertion under a free id beneath an approved parent; never by cascade |
| Quarantine.RejectionLasts | core/quarantine.go:155-286 | in every run, a rejected row stays rejected exactly as long as no successful approval or revocation names it and it is not inserted again |
| Quarantine.RejectionLeft | core/quarantine.go:155-286 | between a rejection and a later approval one of these three steps ended the rejection, approving the row at once exactly if it was an approval or an insertion beneath an approved parent, and leaving it pending otherwise |
| Quarantine.RevokedRejectionCascades | core/quarantine.go:225-286 | beneath every parent there is a run in which a rejected child, revoked and neither named by an approval nor inserted again, ends approved by cascade |
| Quarantine.LateApprovalUndoesRejection | core/quarantine.go:225-238 | an automatic approval decided on while the row was pending undoes a rejection that came in between |
| QuarantineDb.QuarantineStore.Enqueue | core/quarantine.go:155-211 | the new table is the specified one, the id returned is that of the standing row, it fails exactly for an id in use and no standing row and then changes nothing, and a scan hook starts exactly for a new pending row |
| QuarantineDb.QuarantineStore.Lookup | core/quarantine.go:227-230 | finds the one row that has the id, by uniqueness of ids in every run |
| QuarantineDb.QuarantineStore.Transition | core/quarantine.go:259-279 | one row takes status, reviewer and comment, and one audit entry is appended |
| QuarantineDb.QuarantineStore.UpdateLinked | core/quarantine.go:317-327 | exactly the pending rows beneath the base take status, reviewer and comment |
| QuarantineDb.QuarantineStore.Approve | core/quarantine.go:225-238 | the new table is the specified one; an unknown id or an automatic approval of a flagged row fails and changes nothing |
| QuarantineDb.QuarantineStore.Reject | core/quarantine.go:242-253 | the new table is the specified one; it fails exactly for an unknown id and then changes nothing |
| QuarantineDb.QuarantineStore.Revoke | core/quarantine.go:282-286 | one row returns to pending with an audit entry; it fails exactly for an unknown id and then changes nothing |
| QuarantineDb.QuarantineStore.SetComment | core/quarantine.go:397-401 | only the comment of the one row changes |
| QuarantineDb.QuarantineStore.SubscribeByID | core/quarantine.go:101-106 | a fresh channel is appended to the list of the id |
| QuarantineDb.QuarantineStore.Cancel | core/quarantine.go:107-117 | the first occurrence of the channel leaves the list, all others stay in order |
| QuarantineDb.QuarantineStore.NotifyScanDone | core/quarantine.go:121-132 | the list of the id is taken and every channel on it holds a token afterwards |
| QuarantineDb.QuarantineStore.ListPending | core/quarantine.go:376-394 | lists exactly the pending rows |
| QuarantineDb.QuarantineStore.FindingsOf | core/quarantine.go:453-477 | lists exactly the findings stored for one request |
| QuarantineDb.QuarantineStore.RescanOne | serviceweb/api/admin.go:753-764 | one turn of the rescan approves its row and what lies beneath exactly if the row is unflagged and its stored findings pass |
| QuarantineDb.QuarantineStore.RescanAmid | serviceweb/api/admin.go:741-765 | whatever others do between its rows, the rescan calls approval for every row that was pending at its start and whose findings pass, and for no other, and every other operation meanwhile is another actor's |
| QuarantineDb.QuarantineStore.RescanPending | serviceweb/api/admin.go:741-765 | with nobody else acting, afterwards a row is approved exactly if it was before, or was pending at or beneath an unflagged pending row whose stored findings pass; every row not approved is unchanged |
| ScanWait.NextDistinctChannels | core/quarantine.go:101-106 | no step gives two requests the same channel |
| ScanWait.StaysReachable | core/quarantine.go:101-132 | a step leaves the channel of a waiting request in its buffer, on the subscriber list or on the list of a notification in progress |
| ScanWait.NextScanningIsLive | cmd/root.go:488-524 | after every step "scanning" for a row's id implies a hook before its scan result or a queued resumption |
| ScanWait.NextNoSleeperOnFinished | cmd/root.go:488-590 | after every step, a request asleep on the list of a finished scan still has a hook that will take the list |
| ScanWait.NextAllAreHooked | core/quarantine.go:480-496 | after every step, an id not inserted approved has a hook, a scan status or its place in the queue |
| ScanWait.ExecutionInv | core/registry.go:227-247 | these invariants hold in every state of every interleaving |
| ScanWait.NoLostWakeUp | core/registry.go:227-247 | in every interleaving, a request asleep on an empty channel will be signalled by a hook, or its scan is queued for resumption, if and only if its id did not come from an insertion that came out approved |
| ScanWait.SleeperWasRevoked | core/registry.go:227-247 | a request sleeps on a standing pending row with nothing to signal it exactly if the row came in approved, and then the row was revoked since and has been pending under the same id |
| ScanWait.FinishedScanWakesEverybody | core/quarantine.go:121-132 | once the scan of an id is over and all its hooks have finished, every request still blocked on it can proceed |
| ScanWait.ScanningMeansHook | cmd/root.go:488-524 | a "scanning" status of an id that a row has or has had implies a hook that has not taken the list yet, or a queued resumption |
| ScanWait.ListsDoNotLeak | core/quarantine.go:101-117 | in every interleaving the subscriber lists hold only channels of requests that have not left, each once, so all lists are empty once all requests have left |
| ScanWait.AnswerExactly | core/registry.go:227-247 | in every interleaving, `waitScan` answers true exactly if one of its two reads finds the key approved, and false exactly if the client goes away, the scan is over, or the last read finds the key not approved |
| ScanWait.WaitersInOrder | core/registry.go:227-247 | in every interleaving each request subscribes, reads, reads again, blocks, wakes and reads a last time, in this order, skipping only to its cancellation |
| ScanWait.SelectAfterReads | core/registry.go:231-246 | a request leaves the select, or reads again, only after it has found its key unapproved and then its scan not over |
| ScanWait.HooksInOrder | cmd/root.go:488-606 | in every interleaving each hook writes "scanning", then "error", or "done" and its decision, then takes the list, signals and finishes, in this order |
| ScanWait.WokenAnswersTrue | core/registry.go:239-246 | from every reachable state, a request blocked on a scan that approves its row is woken by the hook and answers true |
| ScanWait.FirstRequestIsServed | core/registry.go:195-216 | for every key there is an interleaving in which the request that inserts it waits for its scan and answers true |
| ScanWait.WillSignalDoes | cmd/root.go:488-606 | a hook that will signal a request by the definition used above does so by its own steps alone, whether its scan fails or not, and then the request can wake |
| ScanWait.EveryHookCanFinish | cmd/root.go:488-606 | from every reachable state each hook finishes by its own steps, whether its scan fails or not |
| ScanWait.EverybodyCanLeave | core/registry.go:227-247 | from every reachable state each request leaves within five steps of its own, its timeout among them |
| ScanWait.TokensAreSignals | core/quarantine.go:121-132 | in every interleaving a channel holds a token exactly if a hook has signalled it and nobody has received since |
| ScanWait.WokenWasSignalled | core/registry.go:239-241 | a request that wakes by a token was signalled by a hook |
| ScanWait.StatusIsLatest | cmd/root.go:488-558 | in every interleaving the scan status of an id is what a hook for it wrote last, or that of the process start if none has |
| ScanWait.ApprovalFollowsScan | cmd/root.go:488-604 | a hook approves only after it has written "done", and only by an unflagged row that has its id |
| ScanWait.TableChangesBy | core/quarantine.go:155-286 | the quarantine table changes only by somebody's operation or a hook's approval |
| ScanWait.QueuedAtStart | core/quarantine.go:480-496 | at process start exactly the rows without a finished scan are queued, whatever their status |
| ScanWait.ResumedOnce | cmd/root.go:613-631 | no interrupted scan is resumed twice |
| ScanWait.RevokedInheritanceSleeps | core/registry.go:236-246 | there is an interleaving in which a request sleeps on a pending row that no hook was ever started for |
| ScanWait.RestartApprovesRejected | cmd/root.go:613-631 | from every process start, a rejected, unflagged row without a finished scan has an execution of its resumed hook alone that ends with the row approved |
| Registry.SeenIsAudited | core/registry.go:84-275 | over sound keys, a key seen approved in some table of the run has an audited origin |
| Registry.RequestKeyOf | core/registry.go:104-104 | a path under the driver's prefix is requested under the driver's name, a slash and the rest of the path |
| Registry.DockerRequestKey | core/registry.go:104-104 | a Docker client's request for a tag's manifest is made under the tag key that the Docker lemmas are about |
| Registry.Registry.Route | core/registry.go:287-294 | the first registered driver whose prefix the path has, and none exactly if there is none |
| Registry.Registry.WaitScan | core/registry.go:227-247 | whatever others do between its steps: true if the key is approved at the first read; else false if the scan is over at the second; else exactly whether the key is approved after the select and the client still there |
| Registry.Registry.ServeDirectly | core/registry.go:278-285 | serves exactly if validation passes, and then caches the artifact's bytes; otherwise changes nothing |
| Registry.Registry.Insert | core/registry.go:190-206 | an artifact counts as inherited approval only if it was seen approved after insertion; undisturbed, its bytes are cached, its insertion is the one operation, and it counts so exactly if its row is approved |
| Registry.Registry.FirstPass | core/registry.go:181-222 | a failed validation changes nothing; serving needs an approval seen during the request; undisturbed, bytes, row and answer as specified; if others act only during the select, the artifact is served exactly if it is approved by then |
| Registry.Registry.WaitAndServe | core/registry.go:211-220 | a request that waits is served from the cache exactly if its key is approved after the select and still cached, and otherwise pending |
| Registry.Registry.HandleSelfQuarantine | core/registry.go:171-223 | serves only after the artifact's own key was seen approved, and is pending only after it was seen unapproved; undisturbed, answer and effect for each status |
| Registry.Registry.HandleGateQuarantine | core/registry.go:251-275 | serves only after the gate key was seen approved, and is pending only after it was seen unapproved; undisturbed, answer and effect for an approved, a pending and any other gate |
| Registry.Registry.AnswerPending | core/registry.go:110-129 | a pending cached row is answered without a download, and served only after its key was seen approved; if others act only during the select, exactly if it is approved by then |
| Registry.Registry.ShortCircuit | core/registry.go:102-130 | bytes served from the cache were cached under the key, which was seen approved during the request; undisturbed, it answers exactly for keys that are cached and approved or pending |
| Registry.Registry.Dispatch | core/registry.go:102-168 | the kinds of answer the routed driver may give whatever others do; undisturbed, the answer and the effect for each outcome of `Resolve` and each decision of the driver |
| Registry.Registry.ServeHTTP | core/registry.go:84-168 | over all interference, an artifact the routed driver subjects to quarantine is served only after its own key, its gate key or the request's key was seen approved in this request, and that approval has an audited origin; without a read only if the routed driver decides against quarantine and validation passes; the bytes are the artifact's, validated, or were cached under its key; a request is pending only after such a key was seen unapproved; no driver and no access exactly as routed; undisturbed, the whole answer and effect; if others act only during a select, a waiting request is served exactly if its key is approved by then |
| Verdict.Scan | security/security.go:81-106 | the fan-in over the answers in arrival order keeps the first vulnerability of every key |
| Verdict.DedupSelects | security/security.go:92-104 | the fan-in invents nothing |
| Verdict.DedupCovers | security/security.go:92-104 | of every key some scanner reported the first report survives the fan-in |
| Verdict.DedupDistinct | security/security.go:92-104 | no vulnerability of one source is kept twice |
| Verdict.ScanOrderPermutes | security/security.go:81-106 | for scanners with distinct colon-free source tags, two arrival orders give permutations of the same result |
| Verdict.BestIsBest | core/rules.go:131-156 | the map of a sum rule holds the largest positive score of every id that has one, and nothing else |
| Verdict.CvssEntry | core/rules.go:129-136 | the map of the plain sum rule holds, for every id that has one, its largest positive CVSS score |
| Verdict.ProductEntry | core/rules.go:145-152 | the map of the other sum rule holds, for every id that has one, its largest positive product of CVSS and EPSS score |
| Verdict.FiresOnOneId | core/rules.go:129-161 | on findings of one id a sum rule fires exactly if their largest score, or 0, exceeds the threshold |
| Verdict.SumOfSeparateIds | core/rules.go:129-161 | sums over findings of different ids add up, however the list is put together |
| Verdict.FiresOnOne | core/rules.go:113-162 | for each type of rule, exactly when it fires on a single finding |
| Verdict.FiresOnSome | core/rules.go:115-127 | a rule about single scores fires on a list exactly if it fires on one of its findings |
| Verdict.SumPick | core/rules.go:137-141 | the sum does not depend on the order in which the map yields its entries |
| Verdict.CheckRule | core/rules.go:113-162 | a rule answers exactly if a finding, or the sum of the best scores, exceeds its threshold, and the answer names the first such finding or that sum |
| Verdict.Evaluate | core/rules.go:91-110 | one message per rule that applies and fires, in order and naming its excess; rules applied and none triggered exactly if the findings pass |
| Verdict.RuleAdded | core/rules.go:91-110 | one more rule changes the verdict only if it is enabled and for the repository type or for all; then it must not fire |
| Verdict.FiringInOrder | core/rules.go:91-110 | the rules that fire are listed in the order of the rules |
| Verdict.FiresMonotone | core/rules.go:113-162 | more findings can only make a rule fire |
| Verdict.PassesMonotone | core/rules.go:91-110 | what passes still passes with fewer findings |
| Verdict.VerdictIgnoresOrder | cmd/root.go:505-595 | the automatic verdict is the same for any two arrival orders of the scanners, under any rules and EPSS scores |
| Verdict.UpsertsKeep | core/quarantine.go:421-449 | saving findings with distinct keys stores each of them and touches no other entry |
| Verdict.SaveFindings | core/quarantine.go:421-449 | the saving loop performs these upserts in order |
| Verdict.RescanIsNoMorePermissive | serviceweb/api/admin.go:753-764 | stored findings never pass where the latest scan does not, and after a first scan the verdicts are equal |
| Verdict.ListingsAgree | core/quarantine.go:453-477 | the verdict on stored findings does not depend on the order in which they are listed |
| Verdict.NoFindingsPass | serviceweb/api/admin.go:753-760 | a row without findings passes exactly if rules apply and none of them is a sum rule with a negative threshold |
| ScanHook.ScanAndSave | cmd/root.go:501-558 | the findings of the enriched fan-in are saved first, and "done" is written after them |
| ScanHook.Decide | cmd/root.go:574-604 | does nothing if a person is required or no rule applies, approves once if all rules pass, and otherwise comments once, with a message for every rule that fires, in order; the row ends approved exactly if it was, or approval is asked and the row's own flag allows it |
| ScanHook.Run | cmd/root.go:488-606 | "scanning", findings, "done" or "error", the decision after whatever others did, and last the notification, in this order; a row that still has its id ends approved exactly if it was, or the scan succeeded, neither artifact nor row requires a person, rules apply and none fires; in every case all waiting requests are signalled and unlisted |
| ScanHook.RescanFollowsHook | serviceweb/api/admin.go:741-765 | for the findings of any fan-in and any rules, the verdict on stored findings is never more permissive than the hook's on its scan, and equal after a first scan |
| ScanHook.FailedScannersApprove | security/security.go:81-106 | if all scanners fail, the hook asks for approval exactly if no person is required, rules apply and none of them is a sum rule with a negative threshold |
| Docker.DigestRoundTrip | drivers/docker/driver.go:722-730 | the digest reads back from its blob key if and only if "/" and the digest do not contain "/blobs/" |
| Docker.UpstreamRoundTrip | drivers/docker/driver.go:746-757 | for every image but "v2" and every tag and nesting, a blob key leads back to the upstream URL its prefetch used if and only if its digest reads back |
| Docker.UpstreamOfPlainImage | drivers/docker/driver.go:746-757 | written out: for an image whose name is read back, a blob is fetched from the blobs of that image by its digest |
| Docker.UpstreamOfV2 | drivers/docker/driver.go:746-757 | for the image "v2", every tag and nesting and every digest that reads back, if and only if the tag has a "/manifests/" of its own, or has no other separator and does not end in "/manifests", nor the digest of a blob of its own manifest a "/manifests/" |
| Docker.TagManifestsOfV2 | drivers/docker/driver.go:746-757 | the tag "manifests" of that image never reads back |
| Docker.ImageNameExactly | drivers/docker/driver.go:733-744 | the image prefetched from is the one requested if and only if its name does not begin with the path element "v2" and contains no "/manifests/" |
| Docker.ReferenceRead | drivers/docker/driver.go:733-744 | name and tag of such an image are read back from its path |
| Docker.V2IsDropped | drivers/docker/driver.go:733-744 | an image beneath "v2" is prefetched from the image without that element, exactly if the rest contains no "/manifests/" |
| Docker.BlobKeyIsChild | drivers/docker/driver.go:389-399 | for every image name, tag and nesting, a prefetched blob key is quarantined on its own, is a child key, and is a strict path descendant and kin of the tag key |
| Docker.SubKeyIsChild | serviceweb/api/admin.go:522-526 | so is the key of every nested manifest |
| Docker.TagIsChildExactly | serviceweb/api/admin.go:522-526 | a tag's own key is hidden as a child exactly if it has a "/blobs/" in it or its tag a "/manifests/" |
| Docker.SelfExactly | drivers/docker/driver.go:389-399 | the driver quarantines exactly the paths with a "/manifests/" in them |
| DockerIndex.HarmlessExactly | drivers/docker/driver.go:525-580 | a step of a prefetch, another actor or a blob request keeps the live index sound, and complete but for the prefetches under way, if and only if its digest reads back, or its digest is known or it leaves no blob row |
| DockerIndex.OtherExactly | drivers/docker/driver.go:133-153 | a row of another actor matters exactly if its key is a Docker key with both separators whose digest is not known |
| DockerIndex.EntersLikeTheStore | core/quarantine.go:155-211 | what a step does to the statuses of the rows is what an insertion does in the quarantine table, inheritance included |
| DockerIndex.RunIsGoodExactly | drivers/docker/driver.go:525-580 | a run keeps every state so if and only if all its steps meet that condition |
| DockerIndex.LiveMatchesRebuilt | drivers/docker/driver.go:133-170 | in every such run, whenever no prefetch is under way, the live index and any rebuilt one have the same digests, and each leads in both to an existing row whose key ends in "/blobs/" and the digest |
| DockerIndex.DirectRequestSpoils | drivers/docker/driver.go:230-247 | a request beneath a manifest for a digest not indexed leaves the rows with a digest the live index does not have |
| DockerIndex.SpoiledRun | drivers/docker/driver.go:230-247 | the run of one such request, whose live and rebuilt indexes differ |
| DockerIndex.DockerDriver.RebuildIndexes | drivers/docker/driver.go:133-153 | the rebuilt index is sound and complete and has exactly the digests of the blob rows |
| DockerIndex.DockerDriver.PrefetchBlob | drivers/docker/driver.go:528-576 | the new rows and index; soundness survives exactly if the digest reads back or the index is unchanged, completeness whenever it does; other blobs stay indexed |
| DockerIndex.DockerDriver.PrefetchBlobsForManifest | drivers/docker/driver.go:525-580 | keeps the index sound and complete; rows are added exactly for blobs enqueued and none is lost or overwritten; every blob enqueued or standing is indexed under this manifest, and no other entry changes |
| DockerIndex.DockerDriver.EnqueueOther | core/quarantine.go:155-211 | a row inserted by others keeps the index complete exactly if it is no blob row or its digest is indexed |
| DockerIndex.DockerDriver.RequestBlob | drivers/docker/driver.go:187-247 | a known digest is answered under its canonical key and adds no key; the index stays complete exactly if the digest is known, the path has no "/manifests/", or the download or validation fails |
| PyPI.BestWheel | drivers/pypi/driver.go:487-505 | the first of the wheels with the highest score, and none exactly if there is no wheel |
| PyPI.BestIsFirstOfItsKind | drivers/pypi/driver.go:487-521 | universal wheels are preferred to other pure ones, these to others for CPython 3, these to all others, and of equals the first listed |
| PyPI.ScoreIgnoresCase | drivers/pypi/driver.go:507-508 | the score does not depend on the case of ASCII letters |
| PyPI.EveryScheduleFollows | drivers/pypi/driver.go:469-478 | in every interleaving of goroutines over one page, no file is listed ahead of the files before it on the page |
| PyPI.EveryMoveLists | drivers/pypi/driver.go:469-478 | each goroutine has listed as many files as it has moved, until it is through the page, and every such move adds an entry |
| PyPI.BestIsStable | drivers/pypi/driver.go:487-505 | the wheel selected from a list that follows the page and has its best wheel is that wheel |
| PyPI.BestOfEverySchedule | drivers/pypi/driver.go:487-505 | in every such interleaving, once one goroutine has been through the page, the wheel selected is the page's best |
| PyPI.DepNameIsName | drivers/pypi/driver.go:381-381 | the name read from a requirement is a prefix the pattern accepts, or empty |
| PyPI.DepNameIsLongest | drivers/pypi/driver.go:381-381 | it is the longest prefix the pattern accepts |
| PyPI.KnownName | drivers/pypi/driver.go:381-381 | a name with both ends of every range of the pattern, and characters that end it |
| PyPI.RequirementRead | drivers/pypi/driver.go:354-379 | a requirement is read back from its line exactly unless its marker asks for an extra, whatever blanks precede it |
| PyPI.ParseDependencies | drivers/pypi/driver.go:354-381 | exactly the names required by some line and not only for an extra, each once |
| PyPI.StepDecreases | drivers/pypi/driver.go:200-290 | every step of every prefetch goroutine lowers the measure, dependency cycles included |
| PyPI.OutsideDoesNotRaise | drivers/pypi/driver.go:236-240 | rows enqueued by other actors meanwhile do not raise the measure |
| PyPI.StepProvidesAll | drivers/pypi/driver.go:200-290 | each step keeps every required wheel held, being fetched or queued |
| PyPI.RunDecreases | drivers/pypi/driver.go:200-290 | every move of every run of a prefetch lowers the measure |
| PyPI.LandedExactly | drivers/pypi/driver.go:242-278 | in every run, the wheels landed are exactly those a move enqueued, and the keys held exactly those, the ones held at first and the ones of other actors |
| PyPI.LandedIsWanted | drivers/pypi/driver.go:200-290 | in every run, a wheel is enqueued only if it is the best one of a root or of a dependency of another wheel enqueued, and only after a page that offers it was downloaded |
| PyPI.RunCloses | drivers/pypi/driver.go:200-290 | in every run whose downloads succeed, once no goroutine is left, all dependencies of the roots and of every wheel it enqueued that own a wheel are pending or approved |
| PyPI.Prefetch | drivers/pypi/driver.go:200-290 | under any schedule, and with any pages or wheels failing to download, the prefetch terminates, and its moves are a run that ends with no goroutine left |
| ArArchive.ParseAr | drivers/apt/gpg/verifier.go:226-271 | the members in order, the last data of every name, or the specified error |
| ArArchive.ParseExactly | drivers/apt/gpg/verifier.go:226-271 | an archive parses to given members if and only if it begins with the magic, they stand in it one after the other with headers that describe them, and what is left is too short for a header |
| ArArchive.ErrorsExactly | drivers/apt/gpg/verifier.go:240-256 | exactly which member cannot be read, and why |
| ArArchive.NumberRead | drivers/apt/gpg/verifier.go:246-249 | a decimal size after blanks, with or without a sign, is read whatever follows its digits |
| ArArchive.ByNameIsLast | drivers/apt/gpg/verifier.go:259-260 | under a name stands the data of the last member that has it |
| ArArchive.RebuildArWithout | drivers/apt/gpg/verifier.go:273-301 | the loop appends the specified bytes for every entry, without the skipped ones |
| ArArchive.ParseSerialized | drivers/apt/gpg/verifier.go:226-271 | members whose headers describe them parse back from their bytes, wherever they start |
| ArArchive.ParsedAreDescribed | drivers/apt/gpg/verifier.go:226-271 | whatever parses has headers that describe its members |
| ArArchive.HeaderDescribes | drivers/apt/gpg/verifier.go:234-254 | a header with a name padded by spaces or slashes and a space-padded decimal size, as ar(5) writes it, is read as that name and size |
| ArArchive.WrittenParses | drivers/apt/gpg/verifier.go:226-271 | an archive written with such headers and any padding byte parses to the files it was written from |
| ArArchive.RebuildSerializes | drivers/apt/gpg/verifier.go:273-301 | rebuilding what was parsed writes out the members that are kept |
| ArArchive.RebuildRoundTrip | drivers/apt/gpg/verifier.go:226-301 | the rebuilt archive parses to the original members without those named `skip`, in order and with identical headers, and rebuilding it again changes nothing |
| ArArchive.RebuildIsExcision | drivers/apt/gpg/verifier.go:273-301 | it is the original with the skipped members cut out if and only if every kept member of odd size is padded with zero and nothing trails the last one |
| Cran.PackagesIndex.LoadLines | drivers/cran/driver.go:202-247 | the scanning loop makes the specified index |
| Cran.StanzaRead | drivers/cran/driver.go:218-246 | a stanza as it stands in a file: other fields are skipped, the last value of a field counts, and its checksums are filed under name and version and under the name |
| Cran.LoadInParts | drivers/cran/driver.go:221-246 | loading two files at once, a blank line between them, is loading one after the other |
| Cran.LoadIsFlush | drivers/cran/driver.go:218-246 | loading files the stanzas of the blocks between blank lines in order, the last line of every field counting |
| Cran.FiledUnderPair | drivers/cran/driver.go:233-238 | under a name and version stand the checksums of the last stanza for the pair, or what stood there before |
| Cran.FiledUnderName | drivers/cran/driver.go:233-238 | under a name alone stand the checksums of the last stanza for it in the file, whatever its version |
| Cran.IndexedExactly | drivers/cran/driver.go:230-246 | the keys a file adds are exactly those of its complete stanzas |
| Cran.InfoRoundTrip | drivers/cran/driver.go:268-283 | name and version are read back from a package path, with or without directories |
| Cran.InfoOfOthers | drivers/cran/driver.go:268-283 | a package file without an underscore past its first character has no version, and a file with another extension no name |
| Cran.ChecksumsOfLastStanza | drivers/cran/driver.go:249-261 | the checksums found for a package file are those of the last stanza for its name and version, and empty if there is none |
| Session.Base64RoundTrip | auth/oidc/session.go:27-29 | decoding an encoding gives the octets back, and no encoding contains a dot |
| Session.KnownEncodings | auth/oidc/session.go:27-29 | the encodings of four known texts, fixing alphabet and order of bits |
| Session.BreaksIgnored | auth/oidc/session.go:44-44 | line breaks in the payload do not matter |
| Session.DecodesExactly | auth/oidc/session.go:44-47 | exactly what decodes: symbols of the alphabet and line breaks, the symbols not one more than a multiple of four |
| Session.IntRoundTrip | auth/oidc/session.go:28-28 | every 64-bit integer is parsed back from its decimal form |
| Session.ParseIntExactly | auth/oidc/session.go:54-57 | numbers beyond 64 bits are refused, and a plus sign is allowed |
| Session.KnownNumbers | auth/oidc/session.go:28-28 | the decimal forms of four numbers |
| Session.NoIntWithPipe | auth/oidc/session.go:54-57 | a text with a separator in it is no integer |
| Session.UnixRoundTrip | auth/oidc/session.go:59-63 | the expiry comes back to the whole second, wrap-around included |
| Session.UnixEpoch | auth/oidc/session.go:28-28 | Unix time counts from 1969 years after the first of January of year 1 |
| Session.SealOpens | auth/oidc/session.go:36-42 | a sealed payload opens under another secret exactly if both sign it alike |
| Session.KnownCookie | auth/oidc/session.go:26-32 | the cookie of one session, given its signature |
| Session.RefusedExactly | auth/oidc/session.go:36-42 | a cookie has no valid format exactly if it has no dot, and no valid signature exactly if what follows the first dot is another |
| Session.PayloadRefused | auth/oidc/session.go:49-66 | what becomes of a signed payload with fewer than two separators, with a bad expiry and with a past one |
| Session.RoundTrip | auth/oidc/session.go:26-68 | what decoding makes of every encoded session; it is the session itself if and only if neither subject nor address contains the separator and it expires at a whole second not yet past |
| Session.AcceptedIsSealed | auth/oidc/session.go:35-68 | every accepted cookie is a payload, a dot and the payload's signature, not expired, and its session round trips until it expires |
| LogRotation.WritesInOrder | logs/file/file.go:62-75 | among all files there ever were, every line stands once and in order |
| LogRotation.FilledFilesFit | logs/file/file.go:65-69 | a file begun since the start is within the limit or holds a single line, and closed files do not change |
| LogRotation.ClosedFilesAreFull | logs/file/file.go:65-69 | a new file is begun only for a line the file before had no room for |
| LogRotation.RecentAsSuffix | logs/file/file.go:62-125 | the last n files hold a suffix of what was there at first followed by all lines written |
| LogRotation.DiskIsRecent | logs/file/file.go:87-125 | the archives from oldest to newest and the current file are the last of these files |
| LogRotation.FileBackend.constructor | logs/file/file.go:25-60 | the limits after defaults and wrap-around, over whatever files the disk holds |
| LogRotation.Int64Is | logs/file/file.go:25-60 | the size limit is the product modulo 2 to the 64 |
| LogRotation.FileBackend.Rotate | logs/file/file.go:87-125 | every archive moves up by one, the oldest gives way, the current file becomes the first, and archives beyond the limit stay |
| LogRotation.FileBackend.Write | logs/file/file.go:62-75 | the file list grows by the line as specified, and the disk shows the last of it |
| LogRotation.FileBackend.WriteAll | logs/file/file.go:62-125 | after any writes the disk holds a suffix of what it held before them followed by all the lines |
| Loki.Conservation | logs/loki/loki.go:60-114 | in every interleaving the accepted entries are those handed to push, then the batch, then the channel, in order and each once |
| Loki.DropsExactly | logs/loki/loki.go:60-69 | in every interleaving a write is accepted exactly if fewer than two batches of accepted entries wait to be received, and dropped without trace otherwise |
| Loki.PushesExactly | logs/loki/loki.go:84-113 | in every interleaving receiving pushes exactly when a batch fills, a tick when there is anything to push, and nothing else but the exit |
| Loki.PushesBeforeShutdown | logs/loki/loki.go:84-103 | every push before shutdown holds between one entry and a full batch |
| Loki.RunBounded | logs/loki/loki.go:60-114 | the channel holds at most two batches, the batch is never full while the loop runs, and only the push that ends the drain may be larger |
| Loki.DrainLosesNothing | logs/loki/loki.go:103-113 | all entries accepted before the drain ends have been handed to push, and none accepted later ever is |
| Loki.CatchesUp | logs/loki/loki.go:93-102 | a loop that empties the channel and then ticks has pushed everything accepted, and has room for the next entry |
| Loki.LokiBackend.Write | logs/loki/loki.go:60-69 | the entry is accepted exactly if the channel has room, and dropped otherwise |
| Loki.LokiBackend.Receive | logs/loki/loki.go:95-99 | the oldest entry joins the batch, which is pushed once full |
| Loki.LokiBackend.Drain | logs/loki/loki.go:104-112 | one turn of the draining loop: takes an entry, or flushes and exits once the channel is empty |
| DiskCache.DataIsLatest | core/store.go:239-266 | the data file holds the bytes of the latest `Set` of its key that a `Delete` did not follow |
| DiskCache.HitIsLatest | core/store.go:127-170 | in every interleaving with late touches, a hit returns the bytes of the latest `Set` and a content type that some `Set` of the key gave |
| DiskCache.StoredIsFound | core/store.go:239-293 | in every interleaving, what a `Set` stores is a hit with its bytes, content type and time, whatever stood there before, until the next event that concerns the key |
| DiskCache.DeletedIsMissed | core/store.go:156-164 | what a `Delete` removes is a miss until then |
| DiskCache.TornExactly | core/store.go:239-325 | which events leave the metadata of a key torn, and which leave it whole |
| DiskCache.TouchAtWork | core/store.go:317-325 | while a touch has truncated the metadata the key is a miss, and a hit again once it has rewritten it |
| DiskCache.TouchEnds | core/store.go:317-325 | a touch is over once it has done anything but truncate |
| DiskCache.CalmExactly | core/store.go:239-325 | an event keeps metadata and touches of a key in agreement with its latest `Set` if and only if a `Delete` meets no touch of the key, and a `Set` that writes data meets only touches, and leaves only metadata, with its own content type |
| DiskCache.CalmCacheIsMap | core/store.go:127-170 | while all events are so, a key exists exactly while it has a latest `Set`, and a hit returns that `Set`'s bytes and content type |
| DiskCache.CalmHitExactly | core/store.go:127-170 | if moreover no event tears its metadata, a key is a hit exactly while it has a latest `Set`, and the hit is that `Set`'s |
| DiskCache.CacheIsMapExactly | core/store.go:127-170 | through a whole run, the cache stays like a map whatever the touches under way go on to do, if and only if all events are so |
| DiskCache.TouchesContinue | core/store.go:317-325 | whatever touches go on to do is itself a run, with the same latest `Set` |
| DiskCache.LateTouchResurrects | core/store.go:317-325 | a late touch makes a deleted key exist again, though it is a miss |
| DiskCache.LateTouchServesOldType | core/store.go:317-325 | a late touch serves new bytes with the old content type |
| DiskCache.DiskStore.Write | core/store.go:239-293 | the new files for each way the write can end, and when it reports an error |
| DiskCache.DiskStore.Read | core/store.go:127-150 | hit or miss, and the touch a hit leaves behind |
| DiskCache.DiskStore.Remove | core/store.go:156-164 | both files are gone |
| DiskCache.DiskStore.TouchMeta | core/store.go:317-325 | the metadata file after each step of a touch |

## Left out

- HTTP, TLS, Bearer tokens and upstream downloads: responses are parameters, and upstream is a fixed function.
- SQLite and GORM: the table is a map, an `Enqueue` is one atomic step, and statements do not fail, except for an id already in use.
- SHA-256, HMAC and gpgv: the keyed hash is a parameter, and paths of the cache are told apart by key.
- The `sha256` column and the manifest index of the Docker driver: the digest index is modelled instead.
- Timestamps of rows and audit entries; `ORDER BY` on them.
- Registry.Registry.ServeHTTP: headers, response bodies other than the artifact, and failing cache writes are not modelled, because they do not bear on what may be served.
- ScanHook.Run: failing statements and failing EPSS requests are not modelled beyond an empty set of scores; other actors act on the store only until the decision, and `ScanWait` interleaves every write.
- Docker.UpstreamOfV2: digests that do not read back are left out for the single image name "v2", because there the read-back URL can match the prefetch's by chance.
- ScanWait.ExecutionInv: the list of interrupted scans is taken at process start, before the first request; in the program a goroutine takes it shortly after.
- DockerIndex.DockerDriver.PrefetchBlob: the download, the row and the index entry are one call; `DockerIndex.Step` takes row and index entry as two steps.
- ScanWait.NoLostWakeUp: the panic of a scanner and its recovery are not modelled; a hook always ends in its deferred notification.
- The reasons and texts of triggered rules beyond the finding or sum they name, and floating-point rounding of scores.
- SQLite's limit on the length of a `LIKE` pattern.
- PyPI.Prefetch: HTML and wheel archives are not parsed; a dependency's best wheel and a wheel's dependencies are fixed functions of upstream, and a wheel rejected meanwhile is not modelled.
- PyPI.ParseDependencies: trimming knows the ASCII spaces only.
- ArArchive.ParseAr: a negative size, at which the program panics, is an error of its own; trimming of the size field knows the ASCII spaces only.
- Cran.PackagesIndex.LoadLines: gzip and the splitting into lines are not modelled, nor the limit on the length of a line.
- Session.RoundTrip: the monotonic clock reading of a time is not modelled; expiry is compared on the wall clock.
- LogRotation.FileBackend.Rotate: compression only changes the names of archives and is not modelled, and neither are failing renames.
- Loki: the JSON payload, the labels, and the answer of the server to a push.
- DiskCache.DiskStore.TouchMeta: two writers of one metadata file are allowed to leave it torn at any time, which is more than a file system does; access counts and statistics are not modelled.
- LDAP, OIDC discovery, htpasswd, brute-force tracking, the CVSS formula, the apt, go and npm drivers, and the admin pages: they would add easy members only.
