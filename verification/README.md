# A verified model of OpenKapsel's stateful and policy components

OpenKapsel gives remote agents bounded access to a machine. This project models the
parts of it whose correctness no single branch shows, and proves what they are for:

- **The OAuth store** (`OAuthStore`, `OAuthInvariant`, `OAuthHistory`, `OAuthAdmission`,
  `OAuthLimits`, `OAuthDatabase`):
  connections, clients, authorization requests and codes, grants and bearer
  credentials. Every public operation is one transaction. The proofs cover every run
  of transactions: a bearer token that is accepted has a complete authorization flow
  behind it (section 4.1 of RFC 6749 with section 4.6 of RFC 7636), codes are single
  use, and reuse of a refresh token ends its family (section 4.14.2 of RFC 9700).
- **The Job Manager** (`JobTable`, `JobStarts`, `JobManager`, `StdinSpool`, `OutputSpool`,
  `Handshake`): admission, idempotent starts, pruning and stopping; the two disk
  spools of a job under every interleaving of their threads; and agreement of the
  mutual HMAC handshake over a network the adversary owns.
- **Path policy and its compilation** (`PathPolicy`, `PathAccess`, `PathDocumentation`, `PathLists`,
  `PatternMasks`, `SandboxProfile`): the deepest-anchor, strictest-mode policy, when it
  is what its documentation says, its static masks found by a pruned tree
  walk, and the last-match-wins final layer of the macOS profile.
- **Volatile approvals** (`GrantDeadlines`, `FunctionGrants`, `FunctionApprovals`,
  `FunctionDeadlines`, `FunctionAnswers`, `FunctionRevisions`, `CapabilityGrants`, `CapabilityHistory`, `CapabilityStore`, `ScopePaths`): tickets,
  passwords, confirmations, deadlines and revocation.
- **The consent limiter** (`ConsentLimiter`): two budgets charged together.

Each component has a value-level specification (a state, one function per operation,
and runs of operations) on which the theorems are proved. Code that updates state in
place is also modelled as a class whose methods follow the original statement by
statement and are proved to perform exactly the specified operation. A lock-held block
or a database transaction is one step. Clock readings, random draws, spawn results and
the Client's answers are inputs of a step; except where a row says otherwise nothing
is assumed about them.

## What the proofs found

- `JobTable.HandlesKeptExactly`, `JobTable.StaleCollectorDropsHandle`: a collector
  records the end of its job in one lock section and drops the process handle *by key*
  in another. If the finished job is read, pruned and started again in between, the
  second section drops the handle of the new, running job, which can then no longer be
  signalled. In any run every running job keeps its handle exactly when no collector
  retires while the job under its key is running; a concrete run shows the loss. The
  same block drops the new job's stdin queue by key, and drops and cleans up its sandbox.
- `ScopePaths.LongestIsNarrowestExactly`, `ScopePaths.WideScopePreferred`: the approved
  scope returned for a path is the one with the longest spelling, documented as the
  narrowest. That is so for every answered path exactly when inner scopes are spelled
  longer than outer ones, which canonical spelling guarantees; `/a///` is preferred to
  `/a/b`.
- `PathDocumentation.DocumentationHoldsExactly`, `PathDocumentation.LiteralGrantOpensGit`:
  the documentation says that an explicit rule replaces a default rule of the same
  spelling (openkapsel/auth/path_access.py:67-69 and 136). The code drops every default
  whose anchor on the given path is also the anchor of some explicit rule, as the comment
  at lines 146-148 has it. The two give the same access exactly when the request is
  settled before the defaults matter, or no default without an explicit rule of its
  spelling stands at the deepest anchor, together with explicit rules that are all
  weaker. A read-write grant of `/w/.git/` opens it, where the documented rule protects it.
- `FunctionRevisions.RevisionTestExactly`, `FunctionRevisions.LapsedPageConfirmed`: a
  confirmation page records its scope's revision, so that it is refused once another
  approval of the scope was published. Revisions start again when the scope's
  authorization runs out, and then an old page passes. For a page that is confirmed, no
  other approval was published since it was shown exactly when the authorization did not
  run out in between; a concrete run shows a page confirmed after another approval.
- `JobTable.PruneIdempotent`: pruning is idempotent for any order of jobs that finished at
  the same time, as long as both passes see the same order; the query fixes none.

## Model

| member | source | states |
|---|---|---|
| OAuthStore.FindCode | openkapsel/auth/oauth_store.py:301-301 | selects a row that carries the code for this connection and client and has not expired, and finds none only if there is none |
| OAuthInvariant.PruneKeeps | openkapsel/auth/oauth_store.py:108-113 | deleting expired rows keeps references, owner snapshots, bindings, unique codes, one live grant per connection and one unused refresh token per grant |
| OAuthInvariant.UpdateKeeps | openkapsel/auth/oauth_store.py:129-152 | a reassignment keeps the invariant, so no pending request or code survives an owner change |
| OAuthInvariant.DeleteKeeps | openkapsel/auth/oauth_store.py:158-161 | deleting a connection, with its cascades, keeps the invariant |
| OAuthInvariant.RegisterKeeps | openkapsel/auth/oauth_store.py:197-204 | registering a client keeps the invariant |
| OAuthInvariant.StartKeeps | openkapsel/auth/oauth_store.py:220-243 | a started request carries the connection's current owner |
| OAuthInvariant.ApproveKeeps | openkapsel/auth/oauth_store.py:261-271 | an approval keeps the invariant, so codes carry the bound client, and leaves every bound connection bound to the same client |
| OAuthInvariant.DenyKeeps | openkapsel/auth/oauth_store.py:273-278 | a denial keeps the invariant |
| OAuthInvariant.IssueAddsSpare | openkapsel/auth/oauth_store.py:280-286 | a new family has exactly one unused refresh token, and the others keep theirs |
| OAuthInvariant.IssueRotatesSpare | openkapsel/auth/oauth_store.py:323-324 | a rotation replaces the one unused refresh token of its family by exactly one new one |
| OAuthInvariant.NewGrantKeeps | openkapsel/auth/oauth_store.py:308-312 | after a code exchange the new grant is the only live one of its connection, and it carries the bound client |
| OAuthInvariant.ExchangeCodeShape | openkapsel/auth/oauth_store.py:300-314 | an accepted code exchange found an unexpired row of this connection and client whose redirect and PKCE challenge match, consumed it, and opened a family for 30 days |
| OAuthInvariant.RefusedUnchanged | openkapsel/auth/oauth_store.py:88-98 | every refused transaction leaves the store exactly as it was |
| OAuthInvariant.ApplyKeeps | openkapsel/auth/oauth_store.py:115-329 | every transaction keeps the whole invariant, for any clock and any random draws |
| OAuthInvariant.ReuseCommitsRevocation | openkapsel/auth/oauth_store.py:315-328 | reuse is reported exactly when an authenticated client presents a used refresh token of a live family; it commits the revocation of that family and nothing else, and no access token of it is accepted any more |
| OAuthHistory.RequestOrigins | openkapsel/auth/oauth_store.py:220-271 | a stored request was just started, just approved, or is unchanged |
| OAuthHistory.GrantOrigins | openkapsel/auth/oauth_store.py:288-329 | a stored grant was just opened by a code exchange, or is an earlier one that is unchanged or newly revoked, and revoked if this transaction ends its family |
| OAuthHistory.AccessOrigins | openkapsel/auth/oauth_store.py:280-329 | an access token was just issued by an exchange of its grant's connection and client, or is unchanged |
| OAuthHistory.RunTraced | openkapsel/auth/oauth_store.py:115-329 | in every run the invariant holds and every stored row is traced to the logged transactions that produced it |
| OAuthHistory.AuthenticatedFlow | openkapsel/auth/oauth_store.py:220-336 | in every run an accepted bearer token implies a start, a later approval and a later code exchange of that connection and client, agreeing on request, code, redirect and verifier, with the request looked up within 600 seconds of its start and the code redeemed within 120 of the approval, within 30 days of the exchange and one hour of the token's issue, with no code exchange, reuse or deletion of the connection since, for a registered redirect, and with the registered method and secret presented at that exchange and at the one that issued the token |
| OAuthHistory.ClientRegistered | openkapsel/auth/oauth_store.py:193-204 | in every run a stored client has its registration in the log, with its redirects, method and secret |
| OAuthHistory.ExchangeAuthenticated | openkapsel/auth/oauth_store.py:292-296 | in every run an exchange that is not refused, of a code or a refresh token, presents the method and the secret with which its client registered for that connection |
| OAuthHistory.StartRegistered | openkapsel/auth/oauth_store.py:223-225 | in every run an accepted start asks for a redirect its client had registered |
| OAuthHistory.DenialIsFinal | openkapsel/auth/oauth_store.py:273-278 | in every run a request that was denied is approved only after a new start under its identifier |
| OAuthHistory.ApprovedRow | openkapsel/auth/oauth_store.py:265-267 | an accepted approval is of a stored request, and by its connection's owner if a binding is expected |
| OAuthHistory.LogPrefix | openkapsel/auth/oauth_store.py:88-98 | the log of a prefix of a run is a prefix of its log |
| OAuthHistory.RedeemedRow | openkapsel/auth/oauth_store.py:300-308 | in every run a redemption consumed a stored, traced request that carried the code |
| OAuthHistory.CodeSingleUse | openkapsel/auth/oauth_store.py:300-308 | in every run a code is redeemed a second time only if a new approval drew the same code in between |
| OAuthHistory.ReuseIsFinal | openkapsel/auth/oauth_store.py:319-321 | in every run, after a reuse revocation a token of that family identifier is accepted only after a later code exchange |
| OAuthHistory.RevocationIsPermanent | openkapsel/auth/oauth_store.py:309-320 | in every run a revoked or removed family is never live again unless a code exchange opens a new one under its identifier |
| OAuthHistory.RefreshFamilies | openkapsel/auth/oauth_store.py:280-324 | in every run a stored grant has exactly one unused refresh token, all its refresh tokens expire 30 days after the exchange that opened it, and it is the only live grant of its connection |
| OAuthHistory.BindingIsPermanent | openkapsel/auth/oauth_store.py:210-269 | in every run a bound connection keeps its client until it is deleted |
| OAuthHistory.OwnershipCheckPasses | openkapsel/auth/oauth_store.py:245-255 | in every run the ownership check of a pending request passes |
| OAuthHistory.RequestKeepsOwner | openkapsel/auth/oauth_store.py:129-152 | in every run the connection of a stored request had one and the same owner at every point since the request started |
| OAuthHistory.CodeKeepsOwner | openkapsel/auth/oauth_store.py:129-152 | in every run a redeemed code crossed no owner change, not even one later undone |
| OAuthAdmission.PruneExactly | openkapsel/auth/oauth_store.py:108-113 | pruning keeps exactly the live rows: unexpired requests, grants and access tokens, and clients that are bound or a day old at most |
| OAuthAdmission.AcceptedExactly | openkapsel/auth/oauth_store.py:115-329 | every transaction is accepted exactly under stated conditions on the live rows |
| OAuthAdmission.AcceptedIsDone | openkapsel/auth/oauth_store.py:115-329 | an accepted transaction leaves the rows it is for |
| OAuthAdmission.ConnectionsAreIsolated | openkapsel/auth/oauth_store.py:115-329 | a transaction leaves the rows of every other connection as they are, apart from expired ones |
| OAuthAdmission.TokenKeepsWorking | openkapsel/auth/oauth_store.py:280-336 | in every run the access token of an accepted exchange opens its connection for an hour and until its family's end, unless the family is ended or pruned |
| OAuthLimits.QuotasHold | openkapsel/auth/oauth_store.py:202-237 | in every run a connection has at most 32 registered clients and 64 pending requests |
| OAuthDatabase.Database.DeleteExpired | openkapsel/auth/oauth_store.py:108-113 | the four deletions with their cascade perform the specified pruning |
| OAuthDatabase.Database.CreateConnection | openkapsel/auth/oauth_store.py:115-123 | performs its transaction and keeps the invariant |
| OAuthDatabase.Database.UpdateConnection | openkapsel/auth/oauth_store.py:129-152 | performs its transaction and keeps the invariant |
| OAuthDatabase.Database.DeleteConnection | openkapsel/auth/oauth_store.py:158-161 | performs its transaction, with cascades, and keeps the invariant |
| OAuthDatabase.Database.RegisterClient | openkapsel/auth/oauth_store.py:197-204 | performs its transaction or rolls back, and keeps the invariant |
| OAuthDatabase.Database.StartRequest | openkapsel/auth/oauth_store.py:220-243 | performs its transaction or rolls back, and keeps the invariant |
| OAuthDatabase.Database.ApproveRequest | openkapsel/auth/oauth_store.py:261-271 | performs its transaction or refuses without a change, and keeps the invariant |
| OAuthDatabase.Database.DenyRequest | openkapsel/auth/oauth_store.py:273-278 | performs its transaction or refuses without a change, and keeps the invariant |
| OAuthDatabase.Database.IssuePair | openkapsel/auth/oauth_store.py:280-286 | inserts both credentials or, on a key collision, neither |
| OAuthDatabase.Database.RedeemCode | openkapsel/auth/oauth_store.py:300-314 | performs the code exchange on the pruned tables, or restores the saved ones |
| OAuthDatabase.Database.RotateRefresh | openkapsel/auth/oauth_store.py:315-324 | rotates, or commits the reuse revocation, or restores the saved tables |
| OAuthDatabase.Database.ExchangeToken | openkapsel/auth/oauth_store.py:288-329 | performs its transaction or rolls back, and keeps the invariant |
| OAuthDatabase.Database.Authenticate | openkapsel/auth/oauth_store.py:331-336 | returns the connection exactly when the token is an unexpired access token of a live, unexpired grant of it |
| JobTable.KeyInjective | openkapsel/job_manager.py:347-353 | a key determines its mapping and its job identifier |
| JobTable.PruneKeepsNeeded | openkapsel/job_manager.py:384-397 | pruning keeps every running, uncollected or foreign job as it is |
| JobTable.PruneIdempotent | openkapsel/job_manager.py:384-397 | pruning twice with the same clock readings and the same order of ties is pruning once, for any such order |
| JobTable.NewestSurvive | openkapsel/job_manager.py:384-397 | the newest four finished jobs of a mapping survive for an hour after collection |
| JobTable.StartKeeps | openkapsel/job_manager.py:511-643 | a start that spawns keeps limits, case-distinct keys and the correspondence of running rows, collectors and live processes |
| JobTable.EndKeeps | openkapsel/job_manager.py:449-454 | recording the end of a job keeps the invariant |
| JobTable.NextKeeps | openkapsel/job_manager.py:384-838 | every lock-held step keeps the job table invariant |
| JobTable.RunKeeps | openkapsel/job_manager.py:384-838 | so does every run |
| JobTable.BootKeeps | openkapsel/job_manager.py:290-300 | a Manager restarted on the stored table satisfies the invariant again |
| JobTable.LimitsHold | openkapsel/job_manager.py:523-539 | in every run at most 16 jobs run, at most 4 per mapping, and a case-insensitive lookup finds at most one row |
| JobTable.RetryIsIdempotent | openkapsel/job_manager.py:528-534 | an identical start whose row exists spawns nothing and changes nothing but the pruning |
| JobTable.StoppingIsFinal | openkapsel/job_manager.py:727-749 | stopping is never taken back in any run |
| JobTable.VoluntaryStopHarmless | openkapsel/job_manager.py:828-888 | after an idle or unforced stop, in every later state, no job runs, no process is alive and the final kill loop signals nothing |
| JobTable.UnforcedShutdown | openkapsel/job_manager.py:738-742 | an unforced shutdown changes nothing exactly when jobs run or the stop was under way |
| JobTable.RetireKeepsHandles | openkapsel/job_manager.py:455-468 | the collector's second lock section keeps every running job's handle exactly when its key is not that of a running job |
| JobTable.OthersKeepHandles | openkapsel/job_manager.py:384-838 | every other step keeps the handles of running jobs |
| JobTable.HandlesKeptExactly | openkapsel/job_manager.py:384-838 | in every run from a new Manager each running job keeps its handle at every point exactly when no collector retires while the job under its key is running |
| JobTable.StaleCollectorDropsHandle | openkapsel/job_manager.py:449-468 | a concrete run in which a running job loses its handle |
| JobStarts.TaskExactly | openkapsel/job_manager.py:37-37 | a job identifier is four letters or digits between ampersands |
| JobStarts.FoldExactly | openkapsel/job_manager.py:520-527 | keys collide exactly when they differ at most in the case of letters |
| JobStarts.StartAnswers | openkapsel/job_manager.py:511-539 | in a reachable state, the exact condition of each answer: spawned, existing, other request, case collision, global and mapping limit |
| JobStarts.OnlySpawningStarts | openkapsel/job_manager.py:526-553 | a start that does not spawn changes nothing but the pruning |
| JobStarts.SpawningStarts | openkapsel/job_manager.py:619-642 | a start that spawns adds one row for the request with its process, handle and collector |
| JobStarts.ExistingExactly | openkapsel/job_manager.py:528-534 | in every run of a new Manager a start is answered with an existing job exactly when an earlier start with the same mapping, identifier and digest spawned it and its row was kept since |
| JobStarts.PruneExactly | openkapsel/job_manager.py:384-397 | a pass removes exactly the collected jobs of the mapping that are not among the newest four or were collected over an hour ago |
| JobStarts.StopsExactly | openkapsel/job_manager.py:727-838 | when an idle check, an unforced and a forced shutdown stop the Manager |
| JobStarts.ForcedStopReachesAll | openkapsel/job_manager.py:743-745 | with all handles in place a forced shutdown signals exactly the live processes |
| JobManager.ListingIndex | openkapsel/job_manager.py:387-391 | a row's index in the listing is the number of newer finished jobs of the mapping |
| JobManager.Manager.constructor | openkapsel/job_manager.py:290-300 | a new Manager marks unfinished jobs finished and holds no processes |
| JobManager.Manager.PruneFinished | openkapsel/job_manager.py:384-397 | over any newest-first listing, reading the clock at each row, the loop deletes exactly the disposable jobs |
| JobManager.Manager.AnswerStart | openkapsel/job_manager.py:523-539 | the checks of a start, in order, give the specified answer |
| JobManager.Manager.RegisterJob | openkapsel/job_manager.py:619-642 | records the row, the handle and the collector of a spawned job |
| JobManager.Manager.StartJob | openkapsel/job_manager.py:511-643 | performs a start with all its refusals in order |
| JobManager.Manager.EndJob | openkapsel/job_manager.py:449-454 | performs the collector's first lock section |
| JobManager.Manager.RequestShutdown | openkapsel/job_manager.py:727-746 | performs a shutdown request and signals exactly the live processes of running jobs, only if forced |
| JobManager.Manager.CheckIdle | openkapsel/job_manager.py:828-838 | stops exactly when not stopping, idle, and nothing runs |
| StdinSpool.PutKeeps | openkapsel/job_manager.py:785-797 | accepting input keeps the spool invariant |
| StdinSpool.LoadKeeps | openkapsel/job_manager.py:480-490 | the worker's first lock section keeps the spool invariant |
| StdinSpool.CommitKeeps | openkapsel/job_manager.py:494-504 | the worker's second lock section keeps the spool invariant although it uses the base read in the first |
| StdinSpool.NextKeeps | openkapsel/job_manager.py:473-509 | under any interleaving every step keeps the spool invariant |
| StdinSpool.RunKeeps | openkapsel/job_manager.py:473-509 | so does every run |
| StdinSpool.DeliveredInOrder | openkapsel/job_manager.py:473-509 | in every run the process received a prefix of the accepted input, the file is the accepted input from the base on, and stdin is closed only after the last byte |
| StdinSpool.SpoolBounded | openkapsel/job_manager.py:774-797 | in every run the spool holds at most 17 chunks of 16384 bytes |
| StdinSpool.PutNeverFails | openkapsel/job_manager.py:783-796 | in every run a producer that saw room can put |
| StdinSpool.LoadNeverFails | openkapsel/job_manager.py:480-490 | in every run the worker finds its segment complete, and it is the next input, while the job exists |
| StdinSpool.QueueIsContiguous | openkapsel/job_manager.py:785-797 | in every run the queued and held segments tile the spooled input, with end-of-file last |
| StdinSpool.EofReachesWorker | openkapsel/job_manager.py:505-507 | in every run, once stdin is closed to producers, the end-of-file segment is outstanding, or the worker is closing or has ended |
| StdinSpool.WorkerDrains | openkapsel/job_manager.py:473-509 | from every reachable state in which the job exists and its worker has not given up, the worker's own steps deliver everything accepted and close stdin if a producer closed it |
| StdinSpool.AcceptedExactly | openkapsel/job_manager.py:772-784 | the exact condition for accepting a chunk |
| StdinSpool.InputSpool.TaskStdin | openkapsel/job_manager.py:771-797 | refuses in the order of the checks, or appends and enqueues |
| StdinSpool.InputSpool.WorkerGet | openkapsel/job_manager.py:476-479 | takes the next item without the lock |
| StdinSpool.InputSpool.WorkerWrite | openkapsel/job_manager.py:491-493 | delivers the segment, or a part of it when the pipe breaks |
| StdinSpool.InputSpool.WorkerClose | openkapsel/job_manager.py:505-507 | closes the process's stdin |
| StdinSpool.InputSpool.WorkerLoad | openkapsel/job_manager.py:480-490 | performs the first lock section |
| StdinSpool.InputSpool.WorkerCommit | openkapsel/job_manager.py:494-507 | performs the second lock section |
| OutputSpool.AppendKeeps | openkapsel/job_manager.py:399-427 | an append extends the stream, keeps the file equal to its window of at most 64 MiB, and truncates exactly when the window would be exceeded |
| OutputSpool.ReadKeeps | openkapsel/job_manager.py:687-711 | a read keeps the window invariant, never loses stream, and trims at most to its own offset |
| OutputSpool.PageIsStreamSlice | openkapsel/job_manager.py:687-716 | a page is exactly the stream from the clamped offset, full unless it reaches the end, with a gap exactly when the offset is before the window |
| OutputSpool.RunKeeps | openkapsel/job_manager.py:399-427 | for every interleaving of appends and reads the file is the window of what was appended |
| OutputSpool.LinearTrimming | openkapsel/job_manager.py:696-708 | all reads together rewrite at most 63 bytes per byte of output |
| OutputSpool.CollectedExactly | openkapsel/job_manager.py:709-711 | in every run a job counts as collected exactly when a read of it, once finished, reached the end of the stream |
| OutputSpool.ReadAcknowledges | openkapsel/job_manager.py:696-708 | a read trims to its offset at the end of the stream or from one mebibyte on, and not otherwise |
| OutputSpool.FollowerSeesStream | openkapsel/job_manager.py:687-716 | a sole reader following the next offset receives the stream without a hole until a gap, and a gap only after a truncating append |
| OutputSpool.Spool.AppendOutput | openkapsel/job_manager.py:399-427 | performs an append |
| OutputSpool.Spool.ReadOutput | openkapsel/job_manager.py:687-716 | refuses a negative offset, or returns the page and performs the trim and the collection mark |
| Handshake.MacInputInjective | openkapsel/job_manager.py:113-117 | role labels and fixed lengths make the authenticated bytes unambiguous, so no MAC serves in another role |
| Handshake.NextKeeps | openkapsel/job_manager.py:104-131 | every step keeps origins, agreement and freshness |
| Handshake.RunKeeps | openkapsel/job_manager.py:104-131 | so does every run, assuming that drawn challenges and nonces are new and that MACs cannot be forged |
| Handshake.HonestSessionsAccept | openkapsel/job_manager.py:104-131 | after every run two new sessions whose frames are delivered accept each other |
| Handshake.ManagerAgrees | openkapsel/job_manager.py:104-117 | in every run the Manager accepts only a pair that exactly one Client session answered with its own nonce |
| Handshake.ClientAgrees | openkapsel/job_manager.py:120-131 | in every run the Client accepts only a pair already accepted by the one Manager session that issued the challenge |
| PathPolicy.DeepestNamed | openkapsel/auth/path_access.py:100-106 | the deepest component that matches a name rule |
| PathPolicy.ExplicitHits | openkapsel/auth/path_access.py:149-152 | the hits are exactly the anchors and modes of the matching explicit rules |
| PathPolicy.DefaultHits | openkapsel/auth/path_access.py:153-155 | the hits are exactly the matching defaults at anchors no explicit rule matches |
| PathPolicy.Decisive | openkapsel/auth/path_access.py:201-204 | the deepest hit, and the strictest of those |
| PathPolicy.OrderIndependent | openkapsel/auth/path_access.py:128-204 | only the set of grants matters, not order or repetition |
| PathPolicy.LiteralDenyIsAbsolute | openkapsel/auth/path_access.py:183-186 | a matching explicit literal deny denies, for a directory rule on every descendant, even for the transport |
| PathPolicy.AnchorInherited | openkapsel/auth/path_access.py:98-115 | a rule not anchored below a directory has the same anchor on it and below it |
| PathPolicy.Inheritance | openkapsel/auth/path_access.py:128-204 | below a directory access is inherited until a rule anchor, the root or a reserved name intervenes |
| PathPolicy.DeepestStrictestDecides | openkapsel/auth/path_access.py:193-204 | unless settled earlier, a mode is the result exactly when it is the strictest of the deepest voices |
| PathAccess.AnchorExactly | openkapsel/auth/path_access.py:91-125 | where each kind of rule is anchored, with the comparison of names and historical directory grants |
| PathAccess.AccessExactly | openkapsel/auth/path_access.py:193-204 | at the deepest depth at which anything speaks: Deny exactly when a voice says so, Protect when none says Deny and one Protect, read-only when neither and one read-only, read-write exactly when all say read-write |
| PathAccess.SettledAnswers | openkapsel/auth/path_access.py:158-192 | the answers outside the root, for reserved names, literal denies and transport stages |
| PathAccess.MetadataIsProtected | openkapsel/auth/path_access.py:67-95 | inside the root, where no explicit rule applies, `.git`, `.config` and `.ssh` directories and all below them are protected, and `.openkapsel` is denied, in every case of the letters |
| PathDocumentation.SpelledHits | openkapsel/auth/path_access.py:67-69 | the documented hits are exactly the matching defaults without an explicit rule of their spelling |
| PathDocumentation.ComputedIsDocumented | openkapsel/auth/path_access.py:146-155 | whatever the code considers, the documented policy considers too |
| PathDocumentation.DisplacedDiffers | openkapsel/auth/path_access.py:151-155 | a default that the code drops at the deepest anchor, without a rule of its spelling and stricter than all explicit rules there, makes the two policies differ |
| PathDocumentation.DocumentationHoldsExactly | openkapsel/auth/path_access.py:128-204 | for all inputs the computed and the documented access are equal exactly when the request is settled earlier or no such default exists |
| PathDocumentation.LiteralGrantOpensGit | openkapsel/auth/path_access.py:149-155 | a concrete grant for which the code gives read-write and the documented policy protect |
| PatternMasks.EntryMasks | openkapsel/auth/path_access.py:235-258 | the masks of one directory are exactly its visible, mentioned, restricted entries of one kind |
| PatternMasks.Descend | openkapsel/auth/path_access.py:230-247 | the walk continues exactly in the unskipped, unmasked real subdirectories |
| PatternMasks.ScanDirectory | openkapsel/auth/path_access.py:230-258 | the two loops over one directory compute these masks and subdirectories |
| PatternMasks.StepProgress | openkapsel/auth/path_access.py:225-260 | visiting one directory keeps soundness, the antichain and the account of what is still to be found |
| PatternMasks.ExistingPatternMasks | openkapsel/auth/path_access.py:207-263 | for every finite tree the masks are visible paths with a rule's name and exactly their effective mode, which is not read-write, none at or inside another, covering every visible path to be masked, within the limit; a failure means the limit was really exceeded |
| PatternMasks.MasksCoverPolicy | openkapsel/auth/path_access.py:207-263 | every visible path without reserved components whose deciding anchor is a name rule below the root, and whose access is not read-write, lies at or below a mask |
| SandboxProfile.LaterDecides | openkapsel/job_sandbox.py:523-526 | under last-match-wins later rules decide when they speak, and otherwise leave the decision to the earlier ones |
| SandboxProfile.Reduce | openkapsel/job_sandbox.py:375-379 | the reduced exclusions are an antichain that covers exactly the same paths |
| SandboxProfile.KeptDenies | openkapsel/job_sandbox.py:382-384 | exactly the deny grants outside every exclusion stay |
| SandboxProfile.EmitFinal | openkapsel/job_sandbox.py:511-538 | the final layer is appended in its order |
| SandboxProfile.FinalLayerHolds | openkapsel/job_sandbox.py:511-538 | whatever was emitted earlier, the IPC key and directory end denied, the rest of the scratch directory open, every other path at or below an exclusion, a literal deny, a reserved name or the Manager's state denied, and all else as decided earlier |
| SandboxProfile.CloseProfile | openkapsel/job_sandbox.py:373-538 | reduction, filtering and emission together give that result for the original exclusions and denies |
| GrantDeadlines.ItemInherits | openkapsel/auth/function_grants.py:167-175 | an item keeps an old deadline exactly when an old copy is left for it, and it is a copy's deadline |
| GrantDeadlines.MatchingInjective | openkapsel/auth/function_grants.py:170-175 | no old deadline is handed out twice |
| GrantDeadlines.LatestFreshIsMax | openkapsel/auth/function_grants.py:176-177 | the reference expiry is the latest of the new items |
| GrantDeadlines.FreshBound | openkapsel/auth/function_grants.py:176-180 | a new deadline is at most start plus approved seconds plus 60, with equality for the latest |
| GrantDeadlines.MatchingKeepsDeadlines | openkapsel/auth/function_grants.py:167-181 | returning no more copies of an item than are held gives it no new deadline, counted with repetition; returning no fewer loses none |
| GrantDeadlines.MatchItems | openkapsel/auth/function_grants.py:167-177 | the loop that pops from its working list computes the rank-by-rank matching |
| GrantDeadlines.ComputeDeadlines | openkapsel/auth/function_grants.py:157-181 | the two loops compute the deadlines of that matching |
| FunctionGrants.PruneEntryPairs | openkapsel/auth/function_grants.py:85-96 | a pruned entry holds exactly the live item and deadline pairs, in order and still paired |
| FunctionGrants.PruneEntryComposes | openkapsel/auth/function_grants.py:85-96 | pruning an entry now and later is pruning it later |
| FunctionGrants.PruneComposes | openkapsel/auth/function_grants.py:81-100 | the same for the whole store |
| FunctionApprovals.NextKeeps | openkapsel/auth/function_grants.py:102-276 | every call keeps the store's invariant over its log |
| FunctionApprovals.RunKeeps | openkapsel/auth/function_grants.py:102-276 | so does every run in which ticket names are new |
| FunctionApprovals.ConfirmedMeansShown | openkapsel/auth/function_grants.py:196-238 | in every run a browser publishes only what it was shown last for that ticket, apart from expiries, for the same duration |
| FunctionApprovals.PublishedOnce | openkapsel/auth/function_grants.py:196-222 | in every run a ticket publishes at most once |
| FunctionApprovals.PendingIsUntouched | openkapsel/auth/function_grants.py:133-155 | in every run a pending ticket was not published or revoked since its request and has fewer than five failures |
| FunctionApprovals.ApprovalDeadlines | openkapsel/auth/function_grants.py:183-222 | after an approval every active item has the deadline of an equal earlier item, or the proposal had used up all earlier copies of it and the deadline is at most start plus approved seconds plus 60 |
| FunctionApprovals.FewPending | openkapsel/auth/function_grants.py:110-119 | in every run a Workspace has at most 32 pending function approvals |
| FunctionDeadlines.CandidateBacked | openkapsel/auth/function_grants.py:183-194 | in a candidate entry a matched item lies within an approval made before, and a new one within this approval |
| FunctionDeadlines.NextBacked | openkapsel/auth/function_grants.py:81-276 | every call keeps every active item within an approval of its scope since the scope's last revocation |
| FunctionDeadlines.DeadlinesWithinApproval | openkapsel/auth/function_grants.py:157-222 | in every run each active item was published by an approval of its scope not revoked since, and its deadline is at most that approval's start plus its seconds plus 60 |
| FunctionDeadlines.StepHeld | openkapsel/auth/function_grants.py:81-276 | a call that publishes no further copy of an item gives no copy of it a deadline it did not have |
| FunctionDeadlines.DeadlinesNeverExtended | openkapsel/auth/function_grants.py:157-181 | in every run, from any point on, while no approval of the scope returns more copies of an item than the scope holds, the item's deadlines are among those it had, counted with repetition |
| FunctionDeadlines.NewDeadlineTakesCopies | openkapsel/auth/function_grants.py:157-181 | in every run a deadline that was not there before takes an approval that returned more copies of the item than were held |
| FunctionAnswers.RequestedExactly | openkapsel/auth/function_grants.py:110-119 | a request is admitted exactly below the quota, and then waits for half an hour |
| FunctionAnswers.VerdictExactly | openkapsel/auth/function_grants.py:143-155 | a wrong password is recorded exactly for a live ticket |
| FunctionAnswers.ShownExactly | openkapsel/auth/function_grants.py:224-238 | the exact condition for showing a page, and what it records |
| FunctionAnswers.PublishedExactly | openkapsel/auth/function_grants.py:196-222 | the exact condition for publishing: live ticket, duration, acceptable proposal, and from a browser a matching page |
| FunctionAnswers.PublishedIsActive | openkapsel/auth/function_grants.py:217-221 | what is published becomes active with its deadlines, as far as these are not over, and its ticket is spent |
| FunctionAnswers.RevokedExactly | openkapsel/auth/function_grants.py:246-276 | revocation takes away the scope's or Workspace's tickets and authorizations and nothing else |
| FunctionAnswers.ScopesAreIsolated | openkapsel/auth/function_grants.py:81-276 | a call leaves the live items of every scope it does not publish for or revoke exactly as they are |
| FunctionRevisions.RevisionTestExactly | openkapsel/auth/function_grants.py:210-218 | in every run, for a confirmed page, no other approval of its scope was published since it was shown exactly when the scope's authorization did not lapse in between |
| FunctionRevisions.LapsedPageConfirmed | openkapsel/auth/function_grants.py:210-218 | a concrete run in which a page is confirmed after another approval of its scope was published and ran out |
| FunctionApprovals.Store.PruneStore | openkapsel/auth/function_grants.py:81-100 | performs the pruning |
| FunctionApprovals.Store.RequestApproval | openkapsel/auth/function_grants.py:102-119 | performs a request |
| FunctionApprovals.Store.RecordVerdict | openkapsel/auth/function_grants.py:143-155 | performs the second lock section of a password attempt |
| FunctionApprovals.Store.Propose | openkapsel/auth/function_grants.py:183-194 | computes the candidate entry or its refusal |
| FunctionApprovals.Store.PrepareConfirmation | openkapsel/auth/function_grants.py:224-238 | performs a confirmation page |
| FunctionApprovals.Store.ApproveTicket | openkapsel/auth/function_grants.py:196-222 | performs an approval with its checks in order |
| FunctionApprovals.Store.RevokeScope | openkapsel/auth/function_grants.py:246-254 | performs a revocation |
| FunctionApprovals.Store.RevokeAllOf | openkapsel/auth/function_grants.py:269-276 | performs a Workspace revocation |
| CapabilityHistory.TicketOrigins | openkapsel/auth/capability_grants.py:179-339 | a pending ticket was just asked for, or is an earlier one whose attempts grew only by a wrong password and whose Token was not reset |
| CapabilityHistory.GrantOrigins | openkapsel/auth/capability_grants.py:248-339 | an active grant is an earlier one or comes from a pending ticket of the same Token |
| CapabilityHistory.NextKeeps | openkapsel/auth/capability_grants.py:106-376 | every call keeps the store's invariant over its log |
| CapabilityHistory.RunKeeps | openkapsel/auth/capability_grants.py:106-376 | so does every run in which ticket names are new |
| CapabilityHistory.TicketsOutliveNoReset | openkapsel/auth/capability_grants.py:106-119 | in every run a live ticket was requested after its Token's last password change or revocation |
| CapabilityHistory.GrantsOutliveNoReset | openkapsel/auth/capability_grants.py:345-357 | in every run an active grant was made from such a ticket, with no reset since |
| CapabilityHistory.FewWrongPasswords | openkapsel/auth/capability_grants.py:248-299 | in every run at most five wrong passwords are checked per ticket, over both routes |
| CapabilityHistory.ConfirmedMeansPrepared | openkapsel/auth/capability_grants.py:301-339 | in every run what a browser confirms is the path and duration last prepared for that ticket and that browser |
| CapabilityHistory.PasswordsAreChecked | openkapsel/auth/capability_grants.py:159-165 | in every run a grant given on a password, and a password accepted for a confirmation, presented the password last set for that Token |
| CapabilityHistory.GrantedExactly | openkapsel/auth/capability_grants.py:248-271 | in every run the direct approval is granted exactly for the current password, a ticket that does not expire meanwhile and an allowed duration, and counts as wrong exactly for another password; the grant it makes |
| CapabilityHistory.AuthenticatedExactly | openkapsel/auth/capability_grants.py:282-299 | the same for the password half of the browser route, for file tickets |
| CapabilityHistory.ConfirmedExactly | openkapsel/auth/capability_grants.py:327-339 | a confirmation is granted exactly to the browser prepared for a live ticket, for what was prepared |
| CapabilityHistory.AskedExactly | openkapsel/auth/capability_grants.py:179-215 | a request is admitted exactly below the quota and for a proper path, and then waits for half an hour |
| CapabilityHistory.LinkMade | openkapsel/auth/capability_grants.py:121-134 | a setup link is the only live one of its Token and lives for a quarter of an hour |
| CapabilityHistory.LinkExactly | openkapsel/auth/capability_grants.py:136-157 | a setup link sets its Token's password exactly while it lives, and once |
| CapabilityHistory.RevokedExactly | openkapsel/auth/capability_grants.py:341-343 | revoking a grant takes away that grant and nothing else |
| CapabilityHistory.ScopesAreRooted | openkapsel/auth/capability_grants.py:184-188 | in every run the approved scopes are absolute, so the exact condition for returning the narrowest applies to them |
| CapabilityHistory.FewPending | openkapsel/auth/capability_grants.py:204-215 | in every run a Token has at most 32 pending tickets |
| CapabilityHistory.TokensAreIsolated | openkapsel/auth/capability_grants.py:172-357 | a call on one Token leaves every other Token's tickets and grants unchanged except by expiry, and adds none |
| CapabilityHistory.PasswordsAreIsolated | openkapsel/auth/capability_grants.py:106-157 | a Token's password changes only through calls on that Token |
| CapabilityStore.Store.DropExpired | openkapsel/auth/capability_grants.py:172-177 | performs the expiry |
| CapabilityStore.Store.AskApproval | openkapsel/auth/capability_grants.py:179-215 | performs a request |
| CapabilityStore.Store.ApproveTicket | openkapsel/auth/capability_grants.py:248-271 | performs the direct approval, counting the attempt before the check |
| CapabilityStore.Store.AuthenticateFile | openkapsel/auth/capability_grants.py:282-299 | performs the password half of the browser route |
| CapabilityStore.Store.PrepareFileConfirmation | openkapsel/auth/capability_grants.py:301-317 | binds the ticket to a path, a duration and a browser |
| CapabilityStore.Store.ConfirmFile | openkapsel/auth/capability_grants.py:327-339 | grants for the bound browser only |
| CapabilityStore.Store.ClearWorkspace | openkapsel/auth/capability_grants.py:345-357 | removes everything of one Token, and passes the revocation on to the function store |
| CapabilityStore.Store.ChangePassword | openkapsel/auth/capability_grants.py:106-119 | replaces the password and removes everything of the Token, in the function store too |
| CapabilityStore.Store.GrantedPath | openkapsel/auth/capability_grants.py:227-246 | returns nothing for a malformed path; otherwise nothing exactly when no approved scope contains the path, and else the longest such scope, which is the narrowest if scopes are canonically spelled |
| ScopePaths.ParseJoin | openkapsel/auth/capability_grants.py:237-244 | appending to a path appends components, empty ones and dots add none, and the path contains the result |
| ScopePaths.AnswerableScope | openkapsel/auth/capability_grants.py:231-236 | a path that is answered lies only in scopes that could be answered for themselves |
| ScopePaths.LongestIsNarrowest | openkapsel/auth/capability_grants.py:240-246 | for an answered path the longest containing scope is the narrowest when inner scopes are spelled longer |
| ScopePaths.LongestIsNarrowestExactly | openkapsel/auth/capability_grants.py:229-246 | the documented promise holds for every answered path exactly under that condition |
| ScopePaths.NormalizedScopesWork | openkapsel/auth/capability_grants.py:229-246 | canonically spelled scopes meet the condition |
| ScopePaths.WideScopePreferred | openkapsel/auth/capability_grants.py:246-246 | a concrete set of scopes for which a wider scope is returned |
| ScopePaths.GrantedScope | openkapsel/auth/capability_grants.py:239-246 | the search returns a longest containing scope, or nothing exactly when none contains the path |
| ConsentLimiter.LiveKeeps | openkapsel/auth/oauth_consent.py:105-106 | as time passes and windows close, the account of each budget stays right |
| ConsentLimiter.ChargeKeeps | openkapsel/auth/oauth_consent.py:119-121 | charging a budget that is not exhausted keeps every account |
| ConsentLimiter.RunBudgets | openkapsel/auth/oauth_consent.py:102-122 | in every run with a non-decreasing clock every account is right |
| ConsentLimiter.SlidingBound | openkapsel/auth/oauth_consent.py:102-122 | in every such run any closed 60 seconds hold at most 20 accepted attempts of an address and 10 for a request |
| ConsentLimiter.QuietCallersAdmitted | openkapsel/auth/oauth_consent.py:107-118 | in every such run a caller with fewer than 10 and 5 accepted attempts in the last 60 seconds is admitted if there is room |
| ConsentLimiter.TableBounded | openkapsel/auth/oauth_consent.py:109-111 | in every run, for any clock, the table holds at most 4096 buckets |
| ConsentLimiter.Limiter.TakeAttempt | openkapsel/auth/oauth_consent.py:102-122 | returns 0 exactly when both budgets and the capacity admit the attempt; then it charges both, and otherwise neither; a refusal for an exhausted budget names a wait that closes its window, up to a thousandth of a second |

## Left out

- Subprocesses, signals, Podman, sockets, pipes and lock files of the Manager: a process exit and the success of a spawn are step inputs.
- Crashes between a file write and the matching database commit: a lock-held block is one step.
- Exit codes and the `interrupted`, `force_killed` and `timed_out` flags of a job, rows of legacy job kinds, and the table of collector threads by key: collectors are identified by the start that created them, and the process handle of a key stands for its stdin queue and sandbox as well.
- Reuse of a job's key after pruning while its old spool threads still run: the spool models follow one job, and an append after the row was pruned is not modelled.
- Validation of start arguments, base64 text and value types in Manager requests: one input says whether the arguments are valid.
- Frame magic, lengths and time limits of the handshake; HMAC, SHA-256 and PBKDF2 are symbolic and injective.
- Parsing of rule strings (rules are in parsed form), the syntax of internal transfer stages (an input), Unicode case folding (any function) and symlink resolution before the policy is applied.
- The order in which masks are returned.
- Baseline grants, named-rule regular expressions and reopened exceptions of the macOS profile: they are an arbitrary earlier profile, because their order is by mode and not by depth, so only the final layer has a claim independent of them. The order of the read and the write rule within one pair is fixed; they concern different operations.
- Sorting the exclusions: the list is taken as sorted by depth without repetition. The Bubblewrap arguments made from it are not part of this model.
- Comments, timestamps and metadata text of connections and clients; the syntax checks of client metadata and authorization parameters (one input says whether they pass).
- Callbacks of the function store that call it again on the same thread while an approval is running.
- The reason, the original and the resolved path of a capability ticket (one input says whether they pass their checks).
- ConsentLimiter.Limiter.TakeAttempt: does not give the exact retry delay, because the original rounds floating-point numbers; the wait it names is enough up to a thousandth of a second.
- HTTP handlers, pages, discovery documents, tool schemas, preview proxying, client reload decisions and version ordering: data, I/O or single-branch validation.
