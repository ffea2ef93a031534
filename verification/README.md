# Meeting-assistant backend: verified protocols

This project models the stateful protocols of the multi-tenant NestJS backend and proves what they
keep over whole runs: refresh-token rotation, login lockout, the publish rate limit, seller rooms,
seats and plans, Stripe checkout provisioning, tenancy query rewriting, specialist versions, session
connection counting, the feedback socket index and the playbook helpers.

Every service that changes rows is modelled twice. A class (`AuthStore`, `LoginGate`, `RateLimiter`,
`SellerRoomServer`, `SeatStore`, `CheckoutService`, `Params`, `Specialist`, `SessionStore`,
`FeedbackGateway`) holds the tables as fields and has the service's methods, statement by statement,
early returns included. Each method is proved equal to a transition function on the table values. The
theorems are about runs of those functions: any number of requests, in any order, by any users.

## How the program is read

- A request is one atomic step. The exception is checkout provisioning, whose deliveries interleave:
  its transaction is modelled both as one step and, at the database's default isolation, as separate
  reads and a commit that the unique constraints may refuse.
- Writes made before an error stay: an account made for an invitation that then finds no seat, an
  invitation set to EXPIRED before the 402.
- Ids, token hashes and family ids are positions or counters: all that is used of them is that each is
  new. A clock, a subscription that does not entitle, an inactive user, a cache that cannot be reached
  and the rows a limited query happens to return are parameters of the step, different in each.
- The lockout's count leaves out rows whose metadata says they were reset, and counts rows whose metadata
  says nothing of it, as the in-memory database of the test suite does; a database that takes a missing
  key for unknown would count none of these.
- A call that passes the tenancy middleware as it is may be of any action: one it does not know is taken
  to read the whole table.
- Times are whole milliseconds. The rate bucket is counted in hundredths of a token, in which the
  original's 10 tokens a second are exact.

## What the code does not keep

Each of these is a lemma with a case in which the property fails, next to the exact condition under
which it holds.

- The comment in the login service promises a reset of the failures on a successful login. The reset
  takes 100 rows, counting rows that were reset before, so it is complete exactly when at most 100
  recent rows exist or nothing was counted (`ResetClears`, `SuccessCanLeaveFailureCounted`).
- A Stripe event can leave members without a seat although the plan stays the same, when an
  administrator had granted more seats than the plan has (`StripeRaisesOverageExactly`,
  `SamePlanMayStrandMembers`, `StrandedMemberIsReached`).
- A plan change counts members and not pending invitations, and a platform invitation counts nothing:
  either may leave a pending invitation without a seat (`StepKeepsReservedExactly`,
  `DowngradeMayStrandInvite`, `StrandedInviteIsReached`, `UncheckedInviteOverbooks`).
- The comment in the plan change says that downgrades keep the status; the code sets ACTIVE either way, and
  so does the model (`SeatStore.ChangePlan`).
- When both plans are configured with one price, a purchase of ENTERPRISE is read back as PRO
  (`PriceRoundTrip`).
- A patch that carries `enabled` and content changes a published specialist in place
  (`UpdateKeepsExactly`, `MixedPatchDrifts`).
- Cloning a specialist never returns when every key the search can reach is taken, as it is for a
  64-character key (`HangsExactly`, `FullLengthKeyHangs`).
- At the default isolation level two deliveries of one checkout event can both create a tenant, exactly
  when the session carries neither a subscription nor a customer (`InterleavedProvisioningIsOnce`).
- Not every call that passes the tenancy middleware stays inside the tenant. Which do is said exactly by
  `IsolatedExactlyWhenSound`; guarded calls whose own tenant ids agree with the context do
  (`RewriteIsSound`), calls by id, calls naming another tenant and updates moving rows need not
  (`CallsByIdCross`, `DisagreeingCallsCross`).
- The sequence filter does not hold without its cache: the numbers of a room and user may fall when the
  cache is down or their last number has expired (`RiseBreaksExactly`, `NumbersMayFall`).

## Model

| member | source | states |
|---|---|---|
| Memberships.OwnerStays | src/members/members.service.ts:61-67 | neither removing a member nor changing a role, by whatever actor, takes the last OWNER from a tenant that has one |
| Memberships.RemovalExactly | src/members/members.service.ts:145-174 | a removal deletes exactly the membership named, if it is of the actor's tenant and no OWNER, or an OWNER beside another and the actor an OWNER; otherwise nothing |
| Memberships.RoleChangeExactly | src/members/members.service.ts:68-112 | a role change gives exactly the membership named its new role, under the same conditions; every other keeps its own |
| RefreshTokens.FamilyIsOneChain | src/auth/auth.service.ts:305-506 | in every run the rows of a family, in creation order, are exactly the walk along `replacedById` from the first, share one user and tenant, are all revoked but possibly the newest, and a live one names its holder's current membership; no row of the family is missing |
| RefreshTokens.WalkIsFamily | src/auth/auth.service.ts:401-408 | in a well-formed table, following the links from any row meets exactly the later rows of its family |
| RefreshTokens.RunKeepsInv | src/auth/auth.service.ts:690-750 | login, session issue, refresh, logout, member removal, role change and admission keep the chain and anchoring invariants over every run |
| RefreshTokens.DeadFamilyIsFrozen | src/auth/auth.service.ts:339-348 | once a family has no live row no later request adds a row to it or changes one, and none of its tokens is ever rotated again, whoever presents it |
| RefreshTokens.ReplayKillsFamily | src/auth/auth.service.ts:322-348 | a token that was rotated once and is presented again, by anyone and after any run in between, leaves its whole family dead |
| RefreshTokens.RemovedMemberStaysOut | src/members/members.service.ts:142-185 | after a removal no refresh token issued before it for that user and tenant is ever accepted, even if the user is admitted again |
| RefreshTokens.MembershipNeverMissing | src/auth/auth.service.ts:373-388 | when requests are serialised the no-membership branch of refresh is never reached |
| RefreshTokens.OwnerKept | src/members/members.service.ts:85-106 | a tenant that has an OWNER has one at the end of every run |
| RefreshTokens.AcceptedUntilExpiry | src/auth/auth.service.ts:339-399 | in every run a token that nothing has revoked is exchanged for a new one exactly when its holder presents it, may sign in, and the configured lifetime, counted from the last full second of its issue, is not over |
| RefreshTokens.IssuedExactly | src/auth/auth.service.ts:390-399 | exactly which login, session issue or refresh issues a token; its row is live, unlinked, dated by the lifetime and names the holder's current membership |
| RefreshTokens.RowDiesExactly | src/auth/auth.service.ts:426-452 | exactly which logout, removal or refresh revokes a live row, dated then; every other live row stays as it is |
| RefreshTokens.LoggedOutStaysOut | src/auth/auth.service.ts:426-449 | after a logout with a live token no token of its family, and after one without a token no token the caller had, is ever exchanged again |
| RefreshTokens.AuthStore.RefreshToken | src/auth/auth.service.ts:305-424 | the method decides every branch in the original's order and changes the tables as the transition function says, keeping the invariant |
| RefreshTokens.AuthStore.IssueTokens | src/auth/auth.service.ts:690-743 | one row is appended, in the given family or in one of its own; what is in it is said by `IssuedExactly` |
| RefreshTokens.AuthStore.RevokeFamily | src/auth/auth.service.ts:745-750 | no live row of the family is left, so the family is dead; every row that changed is of the family and dated now, and nothing of a row but its revocation changes |
| RefreshTokens.AuthStore.IssueSessionForMembership | src/auth/auth.service.ts:459-506 | a session is issued exactly when the membership is the user's and user, tenant and subscription admit it |
| RefreshTokens.AuthStore.LogOut | src/auth/auth.service.ts:426-452 | with a token its family is revoked if the tenant matches and the token is live; without one, all live rows of the caller's pair |
| RefreshTokens.AuthStore.RemoveMember | src/members/members.service.ts:145-204 | the verdict, the deleted membership and the revoked rows are those of the transition function; everything else stays |
| RefreshTokens.AuthStore.ChangeRole | src/members/members.service.ts:68-132 | the verdict and the changed role are those of the transition function; tokens stay as they are |
| RateBuckets.BucketRefinesRule | src/seller-rooms/fingerprint-sync.gateway.ts:366-385 | the constant-space bucket admits a call exactly when, for every earlier call, the calls admitted since and this one fit in the burst plus the rate times the time since |
| RateBuckets.OneCall | src/seller-rooms/fingerprint-sync.gateway.ts:366-385 | the refinement step: if the bucket holds the least room of any window, its test agrees with the rule and it holds the least room afterwards |
| RateBuckets.EverySpanBounded | src/seller-rooms/fingerprint-sync.gateway.ts:34-35 | no span of T seconds of any history admits more than 20 + 10 T calls, in absolute numbers |
| RateBuckets.SpacedCallAdmitted | src/seller-rooms/fingerprint-sync.gateway.ts:366-385 | a call at least 100 ms after the caller's previous one is never refused, whatever came before |
| RateBuckets.BurstIsTwenty | src/seller-rooms/fingerprint-sync.gateway.ts:34-35 | of calls at one instant exactly the first 20 pass: the bound is reached |
| RateBuckets.NextAfterBurst | src/seller-rooms/fingerprint-sync.gateway.ts:34-35 | after 20 calls at one instant the next call passes exactly when it comes 100 ms later or more, by the rule and by the bucket |
| RateBuckets.UsersAreIndependent | src/seller-rooms/fingerprint-sync.gateway.ts:366-385 | in any interleaving each user's calls are decided by the rule applied to that user's calls alone |
| RateBuckets.RateLimiter.Consume | src/seller-rooms/fingerprint-sync.gateway.ts:366-385 | a call passes exactly when the user's bucket, refilled by a hundredth of a token a millisecond up to 20 tokens, holds one, which it then loses; other users' buckets stay |
| LoginLockout.LockoutBound | src/auth/auth.service.ts:621-654 | in every reachable state, for every account and every address of every tenant, the unreset failures inside the window are at most the threshold |
| LoginLockout.GuessesBetweenLogins | src/auth/auth.service.ts:208-251 | between two successful logins to an account every interval one window long, wherever it lies, holds at most the threshold of failures written for it |
| LoginLockout.LoginExactly | src/auth/auth.service.ts:208-303 | an attempt succeeds exactly with good credentials, a membership and an entitlement while the unreset failures of account and address in the window are below their thresholds; a failure is written for bad credentials only, and a reset touches only the rows it was given |
| LoginLockout.LockedAddsNothing | src/auth/auth.service.ts:220-230 | however often a locked account is tried, by anyone, its count of failures does not move |
| LoginLockout.LockOpens | src/auth/auth.service.ts:622-638 | an account lock is open again one window after it closed, even when the account is tried all the while |
| LoginLockout.ResetClears | src/auth/auth.service.ts:656-682 | a successful login clears the account's counter, whatever rows the database returns, if and only if at most 100 recent rows exist or nothing was counted |
| LoginLockout.SuccessCanLeaveFailureCounted | src/auth/auth.service.ts:99-101 | a run from the empty log at the default thresholds in which an accepted login leaves a failure counted |
| LoginLockout.LoginGate.IsLoginLocked | src/auth/auth.service.ts:622-654 | locked exactly when the account's or the address's counter has reached its threshold |
| LoginLockout.LoginGate.ResetLoginFailures | src/auth/auth.service.ts:656-688 | the loop marks exactly the rows of the page |
| LoginLockout.LoginGate.Login | src/auth/auth.service.ts:208-303 | the verdict and the new log of each branch: a row only for bad credentials, a reset only on success |
| Tenancy.RewriteRestricts | src/tenancy/prisma-tenancy.middleware.ts:73-94 | a query that names no tenant selects, once rewritten, exactly the rows its own `where` selects among the context tenant's rows, in order |
| Tenancy.CompletedWhere | test/helpers/prisma-fake.ts:136-197 | a row matches the completed `where` if and only if it matches the original and belongs to the tenant, also under AND, OR and NOT |
| Tenancy.RewriteIsIdempotent | src/tenancy/prisma-tenancy.middleware.ts:57-163 | rewriting a rewritten call changes nothing, and a rewritten call lacks no tenant id |
| Tenancy.RewriteAddsOnlyTenant | src/tenancy/prisma-tenancy.middleware.ts:81-150 | the rewrite adds `tenantId` where there is none and changes no other part of a where, no other column of a record and no number of records |
| Tenancy.UnenforcedPassesUnchanged | src/tenancy/prisma-tenancy.middleware.ts:60-68 | a call on a model without tenants, or made under a bypass, is passed on as it is |
| Tenancy.FailsClosed | src/tenancy/prisma-tenancy.middleware.ts:57-163 | a call is stopped if and only if its model has tenants, no bypass is active, a where, record, create or update of it that must name a tenant does not, and the context has none or an empty one; calls by id are never stopped |
| Tenancy.IsolatedExactlyWhenSound | src/tenancy/prisma-tenancy.middleware.ts:73-162 | a call reads and changes only the tenant's rows, on every content of the database, if and only if no row of another tenant can match its where, the records it creates are the tenant's, and its patch moves no row it can match; for all ten kinds of action |
| Tenancy.RewriteIsSound | src/tenancy/prisma-tenancy.middleware.ts:57-163 | the middleware makes every call of an action it guards such a call, unless the caller's own tenant ids disagree with the context |
| Tenancy.SoundIsIsolated | src/tenancy/prisma-tenancy.middleware.ts:73-160 | a sound call answers, and changes the tenant's rows, as if the tenant were alone in the database; nobody else's row changes |
| Tenancy.UnsoundCrosses | src/tenancy/prisma-tenancy.middleware.ts:155-162 | for every call that is not sound there is a database on which it reads or changes what is not the tenant's |
| Tenancy.TenantsDoNotInterfere | src/tenancy/prisma-tenancy.middleware.ts:57-163 | the same over any sequence of calls of one tenant that are sound once rewritten |
| Tenancy.InterleavedTenantsDoNotInterfere | src/tenancy/prisma-tenancy.middleware.ts:57-163 | however the calls of any number of tenants interleave, each tenant is answered, and finds its rows, as if its own calls had run alone on its own rows |
| Tenancy.CallsByIdCross | src/tenancy/prisma-tenancy.middleware.ts:155-159 | for every pair of tenants, a look-up, an update and a deletion by id go through unchanged and find, change and delete the other tenant's row |
| Tenancy.DisagreeingCallsCross | src/tenancy/prisma-tenancy.middleware.ts:73-87 | so do a query that names the other tenant itself and an update that moves rows |
| Tenancy.Params.Rewrite | src/tenancy/prisma-tenancy.middleware.ts:57-163 | the method that overwrites the arguments in place passes on, or stops, exactly what the rewrite function says |
| FreshNames.FindSlug | src/billing/stripe-billing.service.ts:371-376 | the search returns the wanted slug if it is free, and otherwise the wanted slug, a hyphen and the least number from 2 on that makes it free, after failing at most once per taken slug |
| FreshNames.TakenBelow | src/billing/stripe-billing.service.ts:371-376 | the pigeonhole: as many numbered names as were tried and taken are distinct members of the taken set |
| FreshNames.NumberedInjective | src/billing/stripe-billing.service.ts:371-376 | different tries give different names |
| FreshNames.DigitsSay | src/billing/stripe-billing.service.ts:371-376 | the suffix of a name is the decimal numeral of its number, without leading zeros |
| FreshNames.HangsExactly | src/specialists/specialists.service.ts:140-150 | the clone search runs forever if and only if every key it can try up to a fixed horizon is taken |
| FreshNames.MetByHorizon | src/specialists/specialists.service.ts:140-150 | whatever number is tried, the key it is cut to is also tried by the horizon |
| FreshNames.FullLengthKeyHangs | src/specialists/specialists.service.ts:140-150 | a specialist whose key has 64 characters can never be cloned |
| FreshNames.ShortKeyIsFound | src/specialists/specialists.service.ts:140-150 | when the cut leaves room for the digits of the number of taken keys plus one, a free key is found within that many tries |
| FreshNames.FindCloneKey | src/specialists/specialists.service.ts:140-150 | the search returns the first free candidate, and nothing exactly when the original would search for ever |
| Checkouts.CompletedExactlyWhenProvisioned | src/billing/stripe-billing.service.ts:318-438 | under any interleaving, later changes of subscriptions included, a checkout is COMPLETED exactly when a tenant was created for its session, and then that tenant has its slug, its OWNER with the buyer's email and a subscription with the session's Stripe id; no email has two users and no slug two tenants |
| Checkouts.PlanUntilChanged | src/billing/stripe-billing.service.ts:395-416 | in every run a completed checkout shows the plan that was bought, with its limit, until somebody changes the subscription of its tenant |
| Checkouts.CustomerUntilChanged | src/billing/stripe-billing.service.ts:401 | in every run, however deliveries interleave, the tenant of a completed checkout has the customer named by a subscription that a delivery of its session fetched, or else the session's, until somebody changes its subscription |
| Checkouts.DeliveriesCarry | src/billing/stripe-billing.service.ts:344-349 | what a delivery carries into its transaction was fetched for its own session, and nothing is fetched for a session without a subscription |
| Checkouts.RunKeepsInv | src/billing/stripe-billing.service.ts:318-438 | every step of every delivery keeps the tables well formed |
| Checkouts.AtomicProvisioningIsOnce | src/billing/stripe-billing.service.ts:349-362 | with the transaction as one step, any number of duplicate deliveries in any interleaving create at most one tenant per session |
| Checkouts.StripeIdsAllowOne | src/billing/stripe-billing.service.ts:392-404 | with transactions interleaved and subscriptions rewritten, customers included, the unique Stripe ids still allow one tenant per session that carries a subscription or a customer |
| Checkouts.TwoTenantsForOneSession | src/billing/stripe-billing.service.ts:349-438 | a run in which a session without either gets two tenants |
| Checkouts.InterleavedProvisioningIsOnce | src/billing/stripe-billing.service.ts:318-438 | interleaved transactions keep to one tenant if and only if the session carries a subscription or a customer |
| Checkouts.ProvisionIsOutcome | src/billing/stripe-billing.service.ts:349-438 | as one step, neither the email nor the slug can make the transaction fail |
| Checkouts.PendingIsProvisioned | src/billing/stripe-billing.service.ts:318-438 | a delivery that finds its checkout pending and the Stripe ids unused completes it, with the plan that was bought, that plan's limit, and the customer of the fetched subscription or else of the session |
| Checkouts.CheckoutService.ReceiveEvent | src/billing/stripe-billing.service.ts:318-347 | the outer read: a delivery starts, with the row as read, exactly for a session with a pending checkout |
| Checkouts.CheckoutService.Transact | src/billing/stripe-billing.service.ts:349-438 | the transaction, with its slug search, writes everything or nothing and keeps the invariant |
| SellerRooms.RoomsStayGood | src/seller-rooms/seller-rooms.service.ts:29-340 | in every run a room is closed exactly when `endedAt` is set, an ACTIVE room has `startedAt`, and no tenant has more than five rooms OPEN or ACTIVE |
| SellerRooms.RoomHistory | src/seller-rooms/seller-rooms.service.ts:197-340 | over the rest of any run a closed room stays closed, a start is dated once, and an ARCHIVED room can only go back to ENDED |
| SellerRooms.NumbersRise | src/seller-rooms/seller-audio-fingerprint.service.ts:122-134 | the numbers broadcast for a room and user strictly increase over the room's whole life, although closing it makes the cache forget the last one, if the cache could be reached when this user's numbers were broadcast there and kept the last one until the room closed, whatever it did for other rooms and users |
| SellerRooms.StillRemembered | src/seller-rooms/fingerprint-cache.ts:186-205 | forgetting a closed room's numbers is safe, since a closed room never opens and accepts no publish |
| SellerRooms.RiseBreaksExactly | src/seller-rooms/seller-audio-fingerprint.service.ts:122-134 | in any state a publish makes the numbers fall or repeat if and only if it would pass with the filter off, its number is at most the last one broadcast, and the cache is down, has lost the key or holds a smaller number |
| SellerRooms.NumbersMayFall | src/seller-rooms/fingerprint-cache.ts:158-184 | two runs from the empty state in which they fall: the cache is down for one publish, or the number has expired |
| SellerRooms.BatchesAreTheBroadcasts | src/seller-rooms/seller-audio-fingerprint.service.ts:136-169 | in every run, whatever the cache does, the flushed batches followed by the pending one are exactly the fingerprints broadcast, in order, cut into fives |
| SellerRooms.RangeIsTrue | src/seller-rooms/seller-audio-fingerprint.service.ts:151-169 | the `seqRange` of a flushed batch of a room and user is the least and the greatest number in it, under the condition of the rising numbers for that room and user alone |
| SellerRooms.BroadcastRate | src/seller-rooms/fingerprint-sync.gateway.ts:234-310 | across all rooms, the fingerprints broadcast for a user between any two moments of any run are at most 20 plus 10 a second, in absolute numbers |
| SellerRooms.BroadcastsSpendTokens | src/seller-rooms/fingerprint-sync.gateway.ts:234-250 | in every run each broadcast was admitted by the limiter, and the gateway's buckets are the limiter's |
| SellerRooms.PublishedExactly | src/seller-rooms/fingerprint-sync.gateway.ts:253-303 | exactly when a publish is broadcast, and what: a token left, a room of the tenant that is not over with the user JOINED, a well-formed fingerprint of the user's own for that room and meeting, and a number above the last one the cache gives |
| SellerRooms.BroadcastsAreStanding | src/seller-rooms/seller-rooms.service.ts:342-366 | in every run nothing is broadcast for a user whose last move in that room was not into it, nor in a room of another tenant or one that has ended |
| SellerRooms.JoinedIsStanding | src/seller-rooms/seller-rooms.service.ts:197-313 | in every run a room lists a user as JOINED exactly when the last of creating it, accepting an invitation, joining and leaving that moved the user was no leave |
| SellerRooms.InvitedExactly | src/seller-rooms/seller-rooms.service.ts:112-195 | exactly when an invitation is made: by the creator or a joined member of a room that is not over, with fewer than ten members and invited, for a known user who is not joined; it lasts seven days |
| SellerRooms.SellerRoomServer.CreateRoom | src/seller-rooms/seller-rooms.service.ts:29-65 | a room is created, OPEN with its creator joined, exactly when the tenant has fewer than five in use |
| SellerRooms.SellerRoomServer.AcceptInvitation | src/seller-rooms/seller-rooms.service.ts:197-267 | true exactly for a pending invitation of the user's, in the tenant, not past its date, to a room that is not over; then it is ACCEPTED, the user JOINED and the room ACTIVE; one past its date becomes EXPIRED |
| SellerRooms.SellerRoomServer.JoinRoom | src/seller-rooms/seller-rooms.service.ts:269-301 | true exactly for a room the user may see that is not closed: the user is joined, the room is ACTIVE, and a room that was OPEN is dated |
| SellerRooms.SellerRoomServer.EndRoom | src/seller-rooms/seller-rooms.service.ts:315-340 | true exactly for the creator: the room is ENDED and dated now, and the cache forgets it |
| SellerRooms.SellerRoomServer.PurgeRoom | src/seller-rooms/fingerprint-cache.ts:186-205 | the presence of the room and the numbers of its known and present users are forgotten, and nothing when the cache is down |
| SellerRooms.SellerRoomServer.EndIfIdle | src/seller-rooms/seller-rooms-lifecycle.service.ts:74-111 | a room is ended exactly when nobody is online and it has been still for the timeout |
| SellerRooms.IdlePassCloses | src/seller-rooms/seller-rooms-lifecycle.service.ts:83-111 | the pass closes exactly the rooms of its page that were idle when it began, whatever their order: closing one does not make another idle or busy |
| SellerRooms.ArchivedExactly | src/seller-rooms/seller-rooms-lifecycle.service.ts:115-128 | after a turn of the timer the archived rooms are those that were and those that had ended a day before |
| SellerRooms.SellerRoomServer.EndIdleRooms | src/seller-rooms/seller-rooms-lifecycle.service.ts:65-113 | the loop ends the idle rooms of the page and returns how many of them were idle when it began |
| SellerRooms.SellerRoomServer.Tick | src/seller-rooms/seller-rooms-lifecycle.service.ts:59-128 | one turn of the timer: idle rooms are ended, then old ended ones archived; the two counts returned are those of the rooms idle and due before the turn |
| SellerRooms.SellerRoomServer.CheckMonotonicSeq | src/seller-rooms/seller-audio-fingerprint.service.ts:122-134 | a number that is refused is at most the remembered one; one that passes is above it and becomes it; no remembered number ever gets smaller, and other keys are untouched |
| SellerRooms.SellerRoomServer.EnqueueForCache | src/seller-rooms/seller-audio-fingerprint.service.ts:136-149 | the fingerprint joins its key's pending batch, which is flushed at five |
| SellerRooms.SellerRoomServer.FlushBatch | src/seller-rooms/seller-audio-fingerprint.service.ts:151-169 | a batch that is not empty is handed over once and emptied |
| SellerRooms.SellerRoomServer.HandlePublish | src/seller-rooms/fingerprint-sync.gateway.ts:234-310 | the verdict of every branch, in order, and the new state: a token is spent by every attempt, the rest changes only on acceptance, which `PublishedExactly` describes |
| Seats.SeatsAreReserved | src/invitations/invitations.service.ts:104-180 | in every run in which no request overbooks the tenant, members plus pending invitations never exceed the limit, and pending emails are distinct and belong to no member |
| Seats.PendingInviteHasSeat | src/invitations/invitations.service.ts:402-433 | so in such a run accepting a pending invitation is never refused for lack of a seat |
| Seats.InvitedExactly | src/invitations/invitations.service.ts:85-180 | exactly when a tenant's invitation is made: an address, no OWNER role, a subscription that is not canceled, a free seat and an email of no member and no pending invitation; it lasts seven days |
| Seats.AcceptedExactly | src/invitations/invitations.service.ts:344-489 | exactly when an acceptance makes a member: pending, in time, the right caller, entitled, a seat free; the member has the invitation's role unless it had one, and nobody else changes |
| Seats.LeftBehindExactly | src/invitations/invitations.service.ts:303-433 | what a refused acceptance leaves: EXPIRED exactly when late or without a seat, and the account the public route made |
| Seats.InvitationLastsSevenDays | src/invitations/invitations.service.ts:363-433 | while it stays pending, over any run, an invitation brings its addressee in exactly as long as seven days last and the tenant has a seat and may sign in |
| Seats.StepKeepsReservedExactly | src/invitations/invitations.service.ts:85-489 | a request of any service breaks the reservation if and only if it overbooks, which can be told before it: a plan change that fits the members but not the pending invitations, an edit or a linked, priced Stripe event that grants fewer seats than both take, or a platform invitation that the tenant's own check would refuse |
| Seats.UncheckedInviteOverbooks | src/platform-admin/platform-admin.service.ts:440-474 | the platform's invitation, made without a look at seats or duplicates, breaks the reservation whenever one of those checks would have failed |
| Seats.DowngradeMayStrandInvite | src/billing/billing.service.ts:75-112 | a plan change that just fits the members is granted and leaves a pending invitation without a seat |
| Seats.LimitCoversPlan | src/billing/stripe-billing.mapper.ts:72-92 | in every run every subscription's limit is at least its plan's, over all writers of either |
| Seats.BoughtPlanIsApplied | src/billing/stripe-billing.mapper.ts:19-35 | when both prices are set and differ, an event with the price the checkout asked for leaves a linked subscription at exactly the plan bought, with 10 or 50 seats |
| Seats.EditedExactly | src/platform-admin/platform-admin.service.ts:266-311 | exactly when an administrator's edit is written, and the plan, seats and status it leaves |
| Seats.OpenedExactly | src/platform-admin/platform-admin.service.ts:99-232 | a new tenant has its plan with that plan's seats, and its first owner as an OWNER member or by a pending OWNER invitation of seven days |
| Plans.PriceRoundTrip | src/billing/stripe-billing.mapper.ts:19-35 | the checkout asks for the configured price, and both paid plans can be read back from their prices if and only if the prices differ |
| Plans.OtherPricesNameNoPlan | src/billing/stripe-billing.mapper.ts:28-35 | a price names no plan exactly when it is missing, empty or neither configured one, and never names the free plan |
| Seats.OverageOnlyShrinks | src/platform-admin/platform-admin.service.ts:266-311 | over any stretch of a run without a Stripe event that lowers the tenant's limit, its members above the limit only become fewer; from the start there are none |
| Seats.OnlyStripeRaisesOverage | src/invitations/invitations.service.ts:402-463 | no other request, of any service, puts more of the tenant's members above the limit |
| Seats.StripeRaisesOverageExactly | src/billing/stripe-billing.service.ts:196-217 | a Stripe event does so if and only if the priced plan's limit is below both the limit in force and the members |
| Seats.SamePlanMayStrandMembers | src/billing/stripe-billing.service.ts:205-209 | an event that confirms the plan takes back the seats an administrator had added |
| Seats.StrandedMemberIsReached | src/billing/stripe-billing.service.ts:205-209 | a run from the empty database after which such an event leaves one of eleven members above the limit |
| Seats.StrandedInviteIsReached | src/billing/billing.service.ts:75-112 | a run from the empty database after which an invited account is refused for lack of a seat |
| Seats.SeatStore.CreateInvitation | src/invitations/invitations.service.ts:85-209 | the verdict of every check in order, and one pending invitation when all pass |
| Seats.SeatStore.RevokeInvitation | src/invitations/invitations.service.ts:227-260 | exactly a pending invitation of the tenant becomes REVOKED, and no other changes |
| Seats.SeatStore.ConsumeInvite | src/invitations/invitations.service.ts:376-489 | the seat check again, the membership if there is none, and the invitation's new status |
| Seats.SeatStore.AcceptAuthenticated | src/invitations/invitations.service.ts:270-296 | the verdict and new state of the route for a signed-in caller |
| Seats.SeatStore.AcceptPublic | src/invitations/invitations.service.ts:303-338 | the verdict and new state of the public route, which keeps the account it made when the invitation then fails |
| Seats.SeatStore.ChangePlan | src/billing/billing.service.ts:75-112 | the plan changes exactly when the members fit, to 3, 10 or 50 seats and ACTIVE, and then nobody is above the limit; other tenants stay |
| Seats.SeatStore.UpdateTenantBilling | src/platform-admin/platform-admin.service.ts:266-311 | the verdict of every check and the subscription written |
| Seats.SeatStore.ApplySubscriptionState | src/billing/stripe-billing.service.ts:196-217 | a linked tenant gets PRO with 10 seats for the one configured price, ENTERPRISE with 50 for the other, and keeps plan and limit for any other; its status is ACTIVE or CANCELED for exactly two Stripe statuses each; an unlinked tenant and all others stay |
| Specialists.PublishedShowsLatest | src/specialists/specialists.service.ts:176-206 | for a custom specialist that no update of the run lets drift, the versions are exactly 1 to n, n never falls, and PUBLISHED implies that the content is the snapshot of version n |
| Specialists.UpdateKeepsExactly | src/specialists/specialists.service.ts:103-132 | an update keeps a specialist equal to its newest version if and only if it is not a patch of a published custom one that carries `enabled` and changes content |
| Specialists.UpdateSetsWhatItGives | src/specialists/specialists.service.ts:119-130 | an update gives each of the fifteen columns its value in the patch, or leaves it; beside that only a published custom row patched without `enabled` becomes a draft |
| Specialists.BuiltinsAreReadOnly | src/specialists/specialists.service.ts:109-118 | a patch of a builtin with anything but `enabled` changes nothing |
| Specialists.MixedPatchDrifts | src/specialists/specialists.service.ts:103-132 | every published custom specialist has such a patch: another priority together with `enabled` |
| Specialists.StepShowsLatest | src/specialists/specialists.service.ts:103-251 | among update, publish, rollback, archive and dry run exactly such an update ends the agreement, and only a publish adds a version |
| Specialists.VersionsAreForever | src/specialists/specialists.service.ts:190-206 | no request ever changes or removes a version |
| Specialists.RollbackRestoresPublished | src/specialists/specialists.service.ts:208-238 | whatever was done since, rolling back to the version a publish made restores each of the twelve content columns as published, as a draft |
| Specialists.PublishAppends | src/specialists/specialists.service.ts:176-206 | a publish after a dry run writes version n + 1 |
| Specialists.Specialist.constructor | src/specialists/specialists.service.ts:73-101 | a new specialist is a custom draft without versions |
| Specialists.Specialist.UpdateRow | src/specialists/specialists.service.ts:103-132 | a builtin takes only `enabled`; a published custom one patched without `enabled` becomes a draft |
| Specialists.Specialist.PublishRow | src/specialists/specialists.service.ts:176-206 | refused without a dry run; otherwise the next version records the content |
| Specialists.Specialist.RollBack | src/specialists/specialists.service.ts:208-238 | true exactly for a known version, which becomes the content, as a draft; otherwise nothing changes |
| Specialists.Specialist.ArchiveRow | src/specialists/specialists.service.ts:240-251 | archived and disabled with content, colours, source and dry run kept, and never at odds with a version, since it is not published |
| Sessions.CounterIsBestSuffix | src/sessions/sessions.service.ts:14-125 | after any trace of opens and closes, surplus closes included, the counter is the greatest surplus of opens over closes of any suffix |
| Sessions.ActiveWhileConnected | src/sessions/sessions.service.ts:14-125 | a known session is ACTIVE exactly while its counter is positive, and dated exactly when it is not |
| Sessions.AudioIsWithinHalfASecond | src/sessions/sessions.service.ts:81-125 | 1000 times the recorded seconds is within 500 per close of the total milliseconds |
| Sessions.SessionStore.MarkConnectionOpen | src/sessions/sessions.service.ts:14-64 | the session is known, ACTIVE and undated with one connection more than before, its audio is kept, and other sessions are untouched |
| Sessions.SessionStore.MarkConnectionClosed | src/sessions/sessions.service.ts:81-125 | one connection less, never below none, the rounded duration added, and the session ended and dated with the last; an unknown session and all others stay |
| FeedbackRooms.IndexInvertsLastJoin | src/feedback/feedback.gateway.ts:113-178 | after any joins and disconnects the `rooms` map is exactly the inverse of "last room joined", with no empty room |
| FeedbackRooms.OneRoomPerSocket | src/feedback/feedback.gateway.ts:161-178 | a socket is in at most one room, the last it joined |
| FeedbackRooms.LeavingInverts | src/feedback/feedback.gateway.ts:113-123 | leaving removes the socket from the inverse and drops the room it left empty |
| FeedbackRooms.EnteringInverts | src/feedback/feedback.gateway.ts:171-178 | entering adds the socket to its room, which is made if need be |
| FeedbackRooms.FeedbackGateway.LeaveAll | src/feedback/feedback.gateway.ts:161-170 | the loop visits every entry once although it deletes entries it stands on |
| FeedbackRooms.FeedbackGateway.HandleDisconnect | src/feedback/feedback.gateway.ts:113-123 | the socket is in no room afterwards |
| FeedbackRooms.FeedbackGateway.HandleJoinRoom | src/feedback/feedback.gateway.ts:126-178 | refused, changing nothing, without a meeting or with another tenant's id; otherwise the index is as after a join |
| Playbooks.TemplateSplits | src/playbooks/playbook-resolver.lib.ts:5 | a template is its pieces put together again, it can be read as literals and leftmost placeholders in one way only, and no literal holds a complete placeholder |
| Playbooks.ReadingIsUnique | src/playbooks/playbook-resolver.lib.ts:5 | any reading of the rest of a template is the one the scan finds |
| Playbooks.MatchIsPlaceholder | src/playbooks/playbook-resolver.lib.ts:5 | the pattern matches at a position, up to an end, exactly when that text is two braces, one or more name characters and two braces |
| Playbooks.InterpolationRendersPieces | src/playbooks/playbook-resolver.lib.ts:24-29 | interpolation renders each piece once; an inserted value is not scanned again |
| Playbooks.NoPlaceholderNoChange | src/playbooks/playbook-resolver.lib.ts:24-29 | a template without a placeholder comes back unchanged, whatever the variables |
| Playbooks.LonePlaceholder | src/playbooks/playbook-resolver.lib.ts:24-29 | a lone placeholder becomes the value of its name, or nothing when the name has none |
| Playbooks.LabelsOfDotted | src/playbooks/playbook-resolver.lib.ts:31-38 | the labels of `a.b` are those of `a` followed by those of `b` |
| Playbooks.LabelsJoined | src/playbooks/playbook-resolver.lib.ts:31-38 | joining the labels of a name with dots gives the name back |
| Playbooks.SuffixIsLabelSuffix | src/playbooks/playbook-resolver.lib.ts:31-38 | being a base or ending in a dot and the base is the same as the base's labels ending the host's |
| Playbooks.HostnameAllowed | src/playbooks/playbook-resolver.lib.ts:31-38 | a host is allowed if and only if the labels of some allowed base end the labels of the lower-cased host |

## Left out

- Interleaving of requests other than checkout deliveries, and a crash between two writes of one
  request: services that read and then write without a transaction make no promise there.
- JWT signing and verification, argon2, SHA-256, the Stripe SDK, Redis networking, HTTP, sockets, guards
  and request validation: a step starts from what they let through.
- Audit rows other than `auth.login.fail` and the checkout's, operational events, logging and metrics;
  audit writes are taken to succeed.
- Self-signup: for tokens, seats and users it is a user, a tenant on the free plan and a login in a row,
  all of which are steps.
- `createCheckoutSession` failing after its pending row is written, and a retry of it: a checkout without
  a session is never provisioned.
- Removal of members is not a step of the checkout runs, so the OWNER a checkout creates is still there.
- Non-positive or fractional lockout settings: the thresholds are whole numbers.
- A client address that is present but empty: the original counts no failures for it, here it is an
  address like any other.
- One login reads the clock several times; here it has one time.
- The seller-room limit of ten members: only `invite` looks at it, and members who left may come back.
- Feedback de-duplication: the row is stored after the broadcast, so it is not exactly once.
- Rounding of JavaScript numbers: the bucket, sequence numbers and durations are exact.
- The time to live of presence and of the stored micro-batches: presence may become anything at any
  moment, and stored batches are only recorded as handed over.
- Names of inherited JavaScript properties as template variables, and lower-casing outside ASCII.
- `registerBuiltins` creating rows, dry runs themselves and preferences; a builtin registration of a
  known key is a step, and no theorem about custom specialists allows it.
- `parsePlaybookHintJson`, the URL parsing before the host check, slug normalisation and trimming of
  emails.
- `markChunk`, which touches a session's last activity and neither its counter nor its status, and
  session events.
- A signed-in caller's email is read from the account row, where the original takes it from the access
  token.
- Read-only lists and summaries.
- The clone search stops where no new candidate can come and returns nothing, where the original goes on
  for ever.
