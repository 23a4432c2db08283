# RBAC platform: verified model

A Dafny model of the stateful protocols of the RBAC platform, and proofs about their
whole runs. `dafny verify dfyconfig.toml` checks everything.

## What is modelled

- `Relations.dfy`: the five tables with the schema's foreign keys, unique names and
  cascades, the writes the repositories issue, and the three-table join.
- `CacheProtocol.dfy`: cache-aside authorization as interleaved steps. Every request takes one
  Redis or Postgres call per step; `hist` is the list of committed databases. Redis keys
  expire, deletions fail, mutators die between commit and deletion, fills race commits.
- `RbacService.dfy`: the service for calls that do not overlap, as classes: transactions on a
  working copy with their outbox event, the permission cache, and Authorize. `Do` is what
  one call does; each method is proved to do that.
- `Refinement.dfy`: every call of that service as a sequence of the interleaved steps, so that the
  theorems of `CacheProtocol.dfy` hold of it.
- `Broker.dfy`, `Consumers.dfy`: the topology declared at start-up, the retry protocol through the
  exchange, and the consume loop.
- `Outbox.dfy`: the outbox table, its repository and one relay, with its batches and ticks.
- `Pipeline.dfy`: committed rows, any number of relays and the broker together, one call per step.
- `Sessions.dfy`: Login, Refresh and Logout on the refresh-token table, for calls that do not overlap.
- `Rotation.dfy`: Refresh calls that do overlap, one step per call to Postgres.
- `Revocation.dfy`: the jti blacklist and the expiry check.
- `RateLimit.dfy`: the fixed-window limiter.

The members named `...Outcome` say what each call does, in terms of its inputs alone.

Calls to Postgres, Redis and RabbitMQ are atomic operations on tables, TTL maps and bags of
messages. Whether each one succeeds is a parameter (or a choice of step), so the results hold
for every pattern of failures not excluded by name. Clock readings and random values are
parameters too; all processes and Redis share one clock, in milliseconds.

## Where the code and its comments differ

- `permission_cache.go:72-74` says synchronous invalidation keeps the cache from ever serving a
  stale "allow". `StaleAllow` shows a run, on every database where removing one role takes a
  permission away, in which no deletion fails, nothing is in flight, and a hit still allows.
  `RaceIsExact` gives the exact condition for a user none of whose deletions was lost and none is
  outstanding: the cached set is right if and only if the user's join was the same when the fill
  read and when it set. A deletion is lost when it fails, when its mutator dies, or when a commit
  that invalidates nothing changes the user. What happens to other users does not matter.
- `DeleteRole`, `DeletePermission` and Signup's default role invalidate nothing. A coherent cache
  stays coherent after `DeleteRole` if and only if no cached user holds a permission only through
  that role (`DeleteRoleSpares`), after `DeletePermission` if and only if no cached user holds it
  (`DeletePermissionSpares`), and after Signup always (`SignupSpares`), even when the commit
  overlaps a fill (`FirstPermissionIsSeen`). `BoundedStaleness` covers what the first two leave.
- The same three emit no event. `DeleteRoleEscapesLog`, `DeletePermissionEscapesLog` and
  `DefaultRoleEscapesLog` say exactly when the outbox still tells the whole story.
- `internal/auth/service.go:109-111` says a replayed token can never mint a second valid session.
  It cannot when the replay begins after the first call has revoked the token, and it can exactly
  when both calls checked the token before either revoked it (`SecondUseNeedsOverlap`,
  `OverlapAllowsSecondUse`, `OverlapIsReachable`).
- `consumer.go:18-23` says a message that keeps failing is never lost. The error of the
  republish is discarded. `DeliveryLosesExactly` says exactly when that loses an event, and
  `LossIsReachable` that it can happen to every event at every queue.
- A retry is republished to the exchange, so a message bound to k queues is handled up to
  k+k^2+k^3+k^4 times, not four times: 4, 30 or 120 times for one, two or three queues. Every
  delivery whose ack or nack is lost can add up to 1+k+k^2+k^3 more.
- The rate limiter reads the clock and increments in two steps. Its counts are exact if and only if
  every arrival of the key comes less than the window's length after the EXPIRE of the request that
  created it, or that EXPIRE failed (`ExpiryNeverMatters`). Its decisions and admissions at a limit
  are exact if and only if that holds, or no more than the limit arrive, or the limit is zero
  (`DecisionsAreIdeal`, `PassedPerWindow`). INCRs that land in the window they read are in time
  (`PromptIsInTime`); `LateRequestPasses` shows lateness letting a request pass.
- `Refresh` accepts a token at the instant `now = expires_at`, when `CountActiveByUser` no longer
  counts it; the accounting carries that as a separate term.
- An empty permission list only writes the `:empty` sentinel. No Get reads it, and an older
  non-empty key is left in place; the model does the same.

## Model

| member | source | states |
|---|---|---|
| Relations.EffectiveIsJoin | internal/repository/postgres/user_repo.go:105-121 | a user has a permission name exactly when some held role grants it |
| Relations.AcceptsExactly | migrations/0001_init.up.sql:5-44 | an insert is accepted if and only if its key is free and the row would keep every constraint, and then it is that insert; a refusal names the constraint broken |
| Relations.RemovesExactly | internal/repository/postgres/user_repo.go:83-87 | RemoveRole takes the one row, or nothing, and succeeds either way |
| Relations.RoleIsDeleted | internal/repository/postgres/role_repo.go:66-68 | a deleted role is gone with every row that mentions it and nothing else; it can be neither assigned nor given permissions, and its name is free |
| Relations.PermissionIsDeleted | migrations/0001_init.up.sql:39-44 | the same of a deleted permission |
| Relations.ApplyKeepsConsistent | migrations/0001_init.up.sql:15-44 | every write, with its cascades, keeps the foreign keys of both link tables, assigned_by included, and the unique role and permission names |
| Relations.InvalidationIsEnough | internal/rbac/service.go:113-138 | whoever sees a different permission set after Assign, Remove or Attach is among the users then deleted from the cache; creating rows changes nobody's set |
| Relations.RemoveTakesExactly | internal/repository/postgres/user_repo.go:83-87 | removing a role takes away exactly the permissions no other held role grants |
| Relations.DeleteRoleTakesExactly | internal/repository/postgres/role_repo.go:66-68 | deleting a role, with its cascades, takes from each holder exactly the permissions held through no other role |
| Relations.DeletePermissionTakesExactly | migrations/0001_init.up.sql:39-44 | deleting a permission, with its cascade, takes away its name and only its name |
| Relations.AssignAddsExactly | internal/repository/postgres/user_repo.go:78-81 | assigning a role gives the user what the role grants and changes nobody else's set |
| Relations.AttachAddsExactly | internal/repository/postgres/role_repo.go:70-73 | attaching a permission adds its name, and nothing else, for exactly the role's holders |
| CacheProtocol.StepKeepsInv | internal/rbac/service.go:146-174 | every step keeps: a cached or fetched set is the join of the database version its fill read, and an entry expires one TTL after its Set |
| CacheProtocol.CoverageKept | internal/rbac/service.go:130-136 | a user whose key a committed mutator will still delete stays covered until the deletion, also when the user leaves the role between Attach's commit and its list read |
| CacheProtocol.StepKeepsTracked | internal/rbac/service.go:76-138 | across a step that loses no deletion of the user's key, a cached user stays covered or unchanged since the entry was set |
| CacheProtocol.Coherence | internal/rbac/service.go:76-174 | in every interleaving, a cached set that differs from the current join is about to be deleted or was written by a fill that a commit changing the user overtook, for a user none of whose deletions was lost since a moment the key was absent or fresh |
| CacheProtocol.RaceIsExact | internal/platform/cache/permission_cache.go:72-80 | with no deletion of the user's key lost or outstanding, the cached set is current if and only if the join was the same at the fill's read and at its Set |
| CacheProtocol.FirstPermissionIsSeen | internal/auth/service.go:69-74 | a user's first permissions, such as Signup's default role, are never hidden by an older entry, though nothing is invalidated and fills overlap the commit |
| CacheProtocol.StaleAllow | internal/platform/cache/permission_cache.go:72-74 | the never-a-stale-allow claim fails on every database where removing a role takes a permission away, up to the last millisecond the staleness bound permits |
| CacheProtocol.LossServesStale | internal/rbac/service.go:86-92 | each way of losing a deletion (it fails, its mutator dies, DeleteRole has none) serves a stale allow until the last millisecond of the ten minutes, on every database where the permission came through one role only |
| CacheProtocol.NewAnswerJustified | internal/platform/cache/permission_cache.go:33-46 | each answer, hit or miss, is the truth of a version committed less than TTL plus the fill time before |
| CacheProtocol.BoundedStaleness | internal/rbac/service.go:113-117 | over every run, whatever fails and including the changes that invalidate nothing, each answer is the truth of a database state committed less than TTL plus the longest fill ago |
| CacheProtocol.ChangeTakesEffect | internal/platform/cache/permission_cache.go:12-12 | once TTL plus the longest fill has passed since a permission was lost or gained for good, every answer shows it |
| RbacService.AssignOutcome | internal/rbac/service.go:76-93 | nil if and only if every statement and the commit succeed and the row is there or its user, role and assigner are; then row, one event and the deletion, otherwise nothing |
| RbacService.RemoveOutcome | internal/rbac/service.go:95-111 | nil if and only if every statement and the commit succeed; then the row is gone, one event follows and the user's keys are deleted, otherwise nothing |
| RbacService.AttachOutcome | internal/rbac/service.go:118-138 | the same for an attachment; the keys deleted are exactly those of the role's holders, if they can be listed |
| RbacService.HitOutcome | internal/rbac/service.go:147-154 | a live, non-empty cached set answers by itself, whether or not Postgres is up |
| RbacService.MissOutcome | internal/rbac/service.go:155-173 | otherwise Postgres answers, by the roles held; its answer is stored for ten minutes, or the sentinel for one if it is empty |
| RbacService.ExpiryOutcome | internal/platform/cache/permission_cache.go:48-70 | a key may vanish at any time, and only that key |
| RbacService.CallAgrees | internal/rbac/service.go:76-174 | one call on a coherent cache gives the reply and the tables of a service without a cache, failing only where the cache cannot answer and Postgres does not, and leaves the cache coherent |
| RbacService.CacheIsInvisible | internal/rbac/service.go:140-174 | over every sequence of completed calls, with Gets, Sets and keys failing at will but no Del, every reply is the one the join alone gives |
| RbacService.CallEmits | internal/rbac/service.go:77-84 | a call changes tables and outbox together or not at all: one event if a mutator returned nil, and replaying it gives the new tables |
| RbacService.OutboxReplays | internal/repository/postgres/outbox_repo.go:35-46 | the outbox grows by exactly one event per mutator that returned nil, and replaying the events rebuilds user_roles and role_permissions |
| RbacService.DeleteRoleSpares | internal/rbac/service.go:47-49 | DeleteRole leaves a coherent cache coherent if and only if no cached user holds a permission only through that role |
| RbacService.DeletePermissionSpares | internal/rbac/service.go:65-67 | DeletePermission does if and only if no cached user holds the permission |
| RbacService.DefaultRoleSpares | internal/auth/service.go:72-74 | a role assigned without invalidation does if and only if the user is not cached or has what the role grants |
| RbacService.SignupSpares | internal/auth/service.go:66-74 | Signup's default role, given to a user without roles, always does |
| RbacService.DeleteRoleEscapesLog | internal/rbac/service.go:47-49 | after DeleteRole the log still rebuilds the tables exactly when nothing referred to the role |
| RbacService.DeletePermissionEscapesLog | internal/rbac/service.go:65-67 | after DeletePermission the log still rebuilds the tables exactly when no role had the permission |
| RbacService.DefaultRoleEscapesLog | internal/auth/service.go:72-74 | after Signup's assignment it does exactly when the user held the role already |
| RbacService.Database.RunInTx | internal/repository/postgres/tx.go:25-29 | nil if and only if the body and the commit succeed; then the body's whole effect, otherwise none |
| RbacService.Database.GetPermissions | internal/repository/postgres/user_repo.go:105-121 | the rows' names are the user's permission set, and no row comes twice |
| RbacService.Database.GetUserIDsForRole | internal/repository/postgres/role_repo.go:97-103 | exactly the holders of the role |
| RbacService.PermissionCache.Get | internal/platform/cache/permission_cache.go:31-46 | a hit exactly when Redis answers and a live, non-empty set is stored, and then that set |
| RbacService.PermissionCache.Set | internal/platform/cache/permission_cache.go:48-70 | stores the names with the ten-minute TTL; an empty list only writes the sentinel |
| RbacService.PermissionCache.Invalidate | internal/platform/cache/permission_cache.go:75-80 | removes the user's key and sentinel and nothing else |
| RbacService.Service.AssignRoleToUser | internal/rbac/service.go:76-93 | refines the call: rollback on any error, otherwise row, event and deletion |
| RbacService.Service.RemoveRoleFromUser | internal/rbac/service.go:95-111 | refines the call |
| RbacService.Service.InvalidateHolders | internal/rbac/service.go:130-136 | the loop deletes the keys of exactly the role's holders, less the failed deletions |
| RbacService.Service.AttachPermissionToRole | internal/rbac/service.go:118-138 | refines the call, with the fan-out skipped when the list read fails |
| RbacService.Service.Authorize | internal/rbac/service.go:146-174 | refines the call: hit, failed read, or join and fill |
| Refinement.CallIsSteps | internal/rbac/service.go:76-174 | every call of the cached service is a sequence of the protocol's steps with the same tables, cached sets and answer, losing no deletion if none failed |
| Refinement.QuietCommitIsStep | internal/rbac/service.go:47-67 | the commits that no deletion follows are one step of the protocol |
| Refinement.ServiceRuns | internal/rbac/service.go:140-174 | every sequence of completed calls is a run of the protocol, so its theorems hold of the service; each answer is the truth of a state committed less than one TTL before, whatever failed |
| Broker.BoundQueuesDistinct | internal/platform/rabbitmq/rabbitmq.go:58-65 | every event type is bound to the audit queue, to at most three queues, and to none twice |
| Broker.ServiceEventsFanOut | internal/platform/rabbitmq/rabbitmq.go:58-65 | the queues each of the service's three events reaches |
| Broker.AuthEventsFanOut | internal/platform/rabbitmq/rabbitmq.go:58-65 | the queues each sign-up and login event reaches |
| Broker.QueueNames | internal/platform/rabbitmq/rabbitmq.go:62-68 | the three queues and the dead-letter queue of each |
| Broker.Conn.SetupTopology | internal/platform/rabbitmq/rabbitmq.go:50-93 | after set-up, on an empty broker or one another start has set up in part or whole, an event is routed to exactly the queues bound to its key, and each queue's dead letters to its own DLQ alone |
| Broker.DeliveryBalances | internal/platform/rabbitmq/consumer.go:34-60 | one delivery, event by event and queue by queue: one handler call; the copy leaves exactly if it is settled; it is dead-lettered exactly on a settled failure after three retries; a failure before that adds one copy in each bound queue if the republish arrives; a success adds none |
| Broker.RetriesAge | internal/platform/rabbitmq/consumer.go:54-58 | a retry carries the same event and routing key and one retry more |
| Broker.OnlyInt32Counts | internal/platform/rabbitmq/consumer.go:66-76 | the retry count is that of an int32 header, and zero otherwise |
| Broker.DeliverSpends | internal/platform/rabbitmq/consumer.go:34-60 | a delivery pays for its handler call and its retries out of the weight of the copies in flight, exactly if it fails and is settled; a lost settlement costs the copy's weight once more |
| Broker.CallsPerQueue | internal/platform/rabbitmq/consumer.go:50-59 | whatever happens to other events, one publish causes at most 1+k+k^2+k^3 handler calls at each bound queue, plus a price for each delivery of the event whose settlement was lost; exactly so many when all deliveries of the event fail and are settled |
| Broker.DeadPerQueue | internal/platform/rabbitmq/consumer.go:50-53 | and at most k^3 copies in each queue's DLQ, plus k^2 for each delivery of the event whose settlement was lost; exactly k^3 when all deliveries of it fail and are settled |
| Broker.CallsInAll | internal/platform/rabbitmq/consumer.go:34-60 | k(1+k+k^2+k^3) handler calls in all, plus 1+k+k^2+k^3 for each delivery of the event whose settlement was lost; exactly the first when all deliveries of it fail and are settled |
| Broker.DeadInAll | internal/platform/rabbitmq/consumer.go:50-53 | k^4 dead letters in all, plus k^3 for each delivery of the event whose settlement was lost; exactly the first when all deliveries of it fail and are settled |
| Broker.BoundsWrittenOut | internal/platform/rabbitmq/consumer.go:12-12 | what the bounds come to with three retries: 4, 15 or 40 calls a queue and 1, 16 or 81 dead letters for one, two or three bound queues |
| Broker.BoundsAreMet | internal/platform/rabbitmq/consumer.go:34-60 | after every publish some schedule of deliveries reaches all four bounds at once |
| Broker.RetryingEnds | internal/platform/rabbitmq/consumer.go:12-24 | no schedule of deliveries is longer than the weight of the copies it starts from, whatever their retry headers, plus that of the copies delivered again for a lost settlement |
| Consumers.PublishTracks | internal/platform/rabbitmq/rabbitmq.go:67-81 | an accepted publish puts a copy in every bound queue and disturbs no other event |
| Consumers.DeliveryLosesExactly | internal/platform/rabbitmq/consumer.go:45-59 | a delivery loses an event for a queue if and only if the last copy fails with retries left, its republish error is discarded and it is acknowledged |
| Consumers.NothingLost | internal/platform/rabbitmq/consumer.go:18-23 | over any schedule, with consumers dying at any point, lost acks and redeliveries, an event once in a queue is there, handled, or in that queue's DLQ, unless that queue's consumer acknowledged a failure of it whose republish was lost |
| Consumers.LossIsReachable | internal/platform/rabbitmq/consumer.go:54-59 | every event can be lost at every queue it is bound to, by one failed delivery whose republish error is discarded |
| Consumers.Channel.HandleOne | internal/platform/rabbitmq/consumer.go:34-60 | one turn of the loop does what `Deliver` says |
| Consumers.Channel.Consume | internal/platform/rabbitmq/consumer.go:24-64 | the loop, cancelled after any number of turns, is a schedule of deliveries with the given fates; it stops early only on empty queues, and takes no more turns than the weight of the copies, counted again for each lost settlement |
| Outbox.PublishCounts | internal/outbox/relay.go:45-67 | with one relay, from any table and with any failures, what the relay met with on a row gives how often it was published (once per failed MarkSent, once more if sent), its retry count, its status and when it was sent |
| Outbox.Draining | internal/outbox/relay.go:45-67 | without failures pending rows go out once each, oldest first, fifty to a batch, until none is left |
| Outbox.OutboxRepository.Create | internal/repository/postgres/outbox_repo.go:39-46 | inserts a pending row |
| Outbox.OutboxRepository.FetchPending | internal/repository/postgres/outbox_repo.go:52-60 | the oldest pending rows, in order, as many as the limit allows, ties in any order |
| Outbox.OutboxRepository.MarkSent | internal/repository/postgres/outbox_repo.go:62-67 | the row becomes sent, nothing else changes |
| Outbox.OutboxRepository.MarkFailed | internal/repository/postgres/outbox_repo.go:69-73 | the row's retry count grows by one, its status stays |
| Outbox.Relay.RelayBatch | internal/outbox/relay.go:45-67 | a fetch that succeeds is relayed row by row, going on after failures; one that fails does nothing |
| Outbox.Relay.Run | internal/outbox/relay.go:31-43 | any number of ticks is that many batches, each relayed if and only if its fetch succeeds |
| Pipeline.RowIsTwoActions | internal/outbox/relay.go:51-66 | what one relay does with a row is a publish and a mark, with the effect Outbox gives it, whatever the others have done |
| Pipeline.OthersAreActions | internal/outbox/relay.go:45-50 | inserts, fetches of rows that others hold too, deliveries with any fate and stops are actions |
| Pipeline.StepKeepsInv | internal/outbox/relay.go:45-67 | every step of every relay and consumer keeps: relays hold committed rows, sent rows were published, copies come from rows |
| Pipeline.SentIsNeverLeft | internal/repository/postgres/outbox_repo.go:62-73 | over any stretch of a run no row disappears or changes content, and a sent row stays sent |
| Pipeline.NoEventLost | internal/outbox/relay.go:16-20 | with any number of relays and failures, every committed row is pending, or published and in each bound queue waiting, handled or dead-lettered, unless that queue's consumer acknowledged a failure of it whose republish was lost |
| Pipeline.NothingInvented | internal/outbox/relay.go:52-55 | every copy the broker ever holds comes from a committed row, under its event type |
| Pipeline.AtMostOnceMore | internal/repository/postgres/outbox_repo.go:52-60 | the exchange receives a row already marked sent at most once more from each relay, publishes reported as failed included |
| Pipeline.OnceMoreIsReachable | internal/repository/postgres/outbox_repo.go:52-60 | with two relays every event can reach the exchange once more after it was marked sent, so the bound is met |
| Pipeline.CallsInRun | internal/platform/rabbitmq/consumer.go:34-60 | in every run the handlers are called for a row at most k(1+k+k^2+k^3) times per publish of it the exchange received, plus 1+k+k^2+k^3 per delivery of it whose settlement was lost |
| Sessions.LoginOutcome | internal/auth/service.go:79-98 | a login succeeds if and only if the account is found and active, the password is right and the pair can be issued; then one token good for seven days is stored, otherwise none |
| Sessions.RefreshOutcome | internal/auth/service.go:100-121 | a refresh succeeds if and only if its token is read, unrevoked and not past its expiry and every later step works; once accepted and revoked the token stays revoked, whatever fails then |
| Sessions.LogoutOutcome | internal/auth/service.go:130-136 | a logout revokes the row it finds, and fails only if Revoke does |
| Sessions.UnknownTokenOutcome | internal/auth/service.go:100-105 | an unknown token changes nothing: Refresh refuses it, Logout does not mind |
| Sessions.CallKeepsInv | internal/auth/service.go:100-163 | every call keeps: a presented token is revoked, has one successor of the same user, expiring no earlier |
| Sessions.SingleChain | internal/auth/service.go:109-111 | the tokens of one login form a chain; only the last can be unrevoked; expiries never decrease |
| Sessions.SingleUse | internal/auth/service.go:102-114 | for calls that do not overlap: once a Refresh has revoked a token, no later Refresh with it succeeds or changes anything |
| Rotation.SecondUseNeedsOverlap | internal/auth/service.go:100-121 | in every interleaving, a token gets two successors only if two Refresh calls were at once past the check and before the revocation |
| Rotation.OverlapAllowsSecondUse | internal/repository/postgres/refresh_token_repo.go:51-56 | whenever two are, both can still succeed and leave two live tokens, so the condition is exact |
| Rotation.OverlapIsReachable | internal/auth/service.go:100-112 | two such calls can arise from the token of any Login |
| Rotation.ChainWithoutOverlap | internal/auth/service.go:100-121 | in every interleaving in which no two calls are ever at once past the check and before the revocation of one token, the tokens of a login form one chain of which only the last can be live |
| Rotation.AloneIsRefresh | internal/auth/service.go:100-121 | a Refresh that overlaps no other is the three steps in a row |
| Rotation.OthersAreOneStep | internal/auth/service.go:130-136 | Login and Logout are one step each |
| Sessions.SessionAccounting | internal/repository/postgres/refresh_token_repo.go:58-64 | active sessions equal logins plus refreshes at the instant of expiry, less effective logouts, failed rotations and expiries, in every run |
| Sessions.RefreshTokenRepository.Create | internal/repository/postgres/refresh_token_repo.go:24-35 | appends the row |
| Sessions.RefreshTokenRepository.GetByHash | internal/repository/postgres/refresh_token_repo.go:37-49 | the first row with the hash, or none |
| Sessions.RefreshTokenRepository.Revoke | internal/repository/postgres/refresh_token_repo.go:51-56 | sets revoked_at unconditionally, nothing else |
| Sessions.RefreshTokenRepository.CountActiveByUser | internal/repository/postgres/refresh_token_repo.go:58-64 | the number of the user's unrevoked tokens expiring later than now |
| Sessions.AuthService.IssueTokenPair | internal/auth/service.go:138-163 | one new row, or none if any step fails |
| Sessions.AuthService.Login | internal/auth/service.go:79-98 | refines the call |
| Sessions.AuthService.Refresh | internal/auth/service.go:100-121 | refines the call, revoking before issuing |
| Sessions.AuthService.Logout | internal/auth/service.go:130-136 | refines the refresh-token half of the call |
| Revocation.LogoutIsFinal | internal/platform/cache/blacklist.go:19-41 | with Redis reachable, a token is accepted exactly when it has not expired and no logout of it was stored |
| Revocation.OnlyLogoutsAreStored | internal/auth/service.go:127-129 | a jti is listed exactly if a logout of an unexpired token that had it, and a jti at all, got through to Redis |
| Revocation.FailsOpen | internal/platform/cache/blacklist.go:26-41 | with Redis down a token is accepted exactly until it expires |
| Revocation.LifetimeBoundsExposure | internal/platform/jwt/jwt.go:34-50 | expiries are whole seconds; whatever the blacklist holds and with or without Redis, a token is refused fifteen minutes after its issue, and one never stored, or any while Redis is down, is good until the last second before |
| Revocation.BlacklistStore.Add | internal/platform/cache/blacklist.go:19-24 | stores the jti for the remaining lifetime, if there is one |
| Revocation.BlacklistStore.IsBlacklisted | internal/platform/cache/blacklist.go:32-41 | whether a live entry exists; never when Redis fails |
| Revocation.BlacklistStore.RevokeAccess | internal/auth/service.go:127-129 | the blacklist half of Logout |
| Revocation.BlacklistStore.Authenticate | internal/middleware/jwt_auth.go:26-37 | accepts unexpired tokens that are not listed |
| RateLimit.ExpiryNeverMatters | internal/middleware/rate_limit.go:25-36 | Redis shows every arrival of a key how many came before it if and only if each comes less than the window's length after the EXPIRE of the request that created the key, or that EXPIRE failed |
| RateLimit.DecisionsAreIdeal | internal/middleware/rate_limit.go:25-41 | at a given limit the decisions are those of a counter that never expires if and only if every arrival of the key is in time, or no more than the limit arrive, or the limit is zero |
| RateLimit.IdealAtEveryLimit | internal/middleware/rate_limit.go:25-41 | and at every limit if and only if every arrival is in time |
| RateLimit.PromptIsInTime | internal/middleware/rate_limit.go:22-25 | arrivals whose INCR lands in the window they read meet it |
| RateLimit.PassedPerWindow | internal/middleware/rate_limit.go:36-41 | admissions of a client in a window are never fewer than min(arrivals, limit), and exactly that under the condition of DecisionsAreIdeal and no other, whatever other clients do |
| RateLimit.SlidingBound | internal/middleware/rate_limit.go:25-41 | any interval of at most n windows' length admits at most (n+1) times the limit of a client's requests, when that condition holds for the client's own windows that it meets |
| RateLimit.BoundIsTight | internal/middleware/rate_limit.go:14-17 | for every limit and window, twice the limit can pass within two milliseconds, astride a window's end |
| RateLimit.LateRequestPasses | internal/middleware/rate_limit.go:25-36 | for every limit and window, a request that reads the clock before its window ends and reaches Redis at any time after can pass beyond the limit, because the key has expired |
| RateLimit.Limiter.Handle | internal/middleware/rate_limit.go:19-42 | INCR, EXPIRE on the first hit, admit or reject, as `Check` says; a request that misses Redis is admitted and counted nowhere |

## Left out

- Sessions.SingleUse: for calls that do not overlap, as is Sessions.SingleChain; Rotation has the exact condition for those that do.
- RbacService.CacheIsInvisible: for completed calls whose deletions succeed; overlapping calls and failed deletions are in CacheProtocol, of which Refinement makes the service a special case.
- Consumers.NothingLost: excludes acknowledged failures whose republish was lost, since the code discards that error; DeliveryLosesExactly says when one loses the event.
- Pipeline.NoEventLost: the same exclusion; and a publish without an error counts as routed.
- RateLimit.ExpiryNeverMatters: sub-second windows, on which the code divides by zero, are excluded.
- RateLimit.SlidingBound: under the condition of DecisionsAreIdeal; the interval is measured on the clock reads that pick the windows.
- Sessions.SessionAccounting: Refresh checks and revokes at one clock reading and issues at a second one.
- Outbox.Relay.Run: the ticker's interval and the lag gauge are not modelled; the number of ticks is a parameter.
- Consumers.Channel.Consume: the three consumer goroutines are one loop that takes the waiting copies in any order; cancellation and a closed channel both end it.
- Broker.Conn.SetupTopology: a declaration that fails ends the start-up, and is not modelled.
- The outbox payload of RbacService and the rows of Outbox are not linked by a JSON encoding.
- Rounding of TTLs below a millisecond by the Redis client. A key is taken to be gone at the very millisecond its TTL ends.
- A commit, INCR or other write that takes effect although its reply is lost; RabbitMQ publishes of that kind are in Pipeline.
- User profiles, lists, pagination, handlers, JSON binding, metrics, tracing, the frontend and deployment.
- Signup: only its role assignment, as a commit that invalidates nothing.
- DetachPermission has no service caller; lookups by id or name, bcrypt, SHA-256 and JWT signatures are abstracted (digests injective, random values never repeating).
- The handlers of the audit, notification and analytics queues: they may return anything.
