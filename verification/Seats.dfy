/**
 Seats: memberships, invitations and the seat limit of each tenant's subscription, with everything
 that writes any of the three.

 User and invitation ids are positions, handed out in creation order. Emails come trimmed and in
 lower case. A request that throws keeps the writes it made before.
 */
module Seats {
  import opened FiniteSets
  import opened Options
  import opened Memberships
  import opened Plans

  type Email = string
  type InviteId = nat
  type Time = int

  datatype InviteStatus = PENDING | ACCEPTED | REVOKED | EXPIRED
  datatype Invite = Invite(tenant: TenantId, email: Email, role: Role, status: InviteStatus, expiresAt: Time)
  datatype Subscription = Subscription(plan: Plan, maxUsers: int, status: Status, stripeLinked: bool)

  datatype State = State(tenants: nat, users: seq<Email>, members: Table, memberIds: nat,
                         invites: seq<Invite>, subs: map<TenantId, Subscription>)

  const Empty := State(0, [], map[], 0, [], map[])

  /** The clock, and the tenants whose subscription does not entitle them to sign in. */
  datatype Env = Env(now: Time, unpaid: set<TenantId>)

  const INVITE_TTL := 7 * 24 * 60 * 60 * 1000

  // ---------------------------------------------------------------- reading the tables

  function Seated(s: State, t: TenantId): nat { |InTenant(s.members, t)| }

  function Pending(s: State, t: TenantId): set<InviteId> {
    set i | 0 <= i < |s.invites| && s.invites[i].tenant == t && s.invites[i].status == PENDING
  }

  function PendingFor(s: State, t: TenantId, email: Email): set<InviteId> {
    set i | i in Pending(s, t) && s.invites[i].email == email
  }

  /** The limit an acceptance is checked against; without a subscription, that of the free plan. */
  function Limit(s: State, t: TenantId): int {
    if t in s.subs then s.subs[t].maxUsers else PlanToMaxUsers(FREE)
  }

  /** A member of the tenant has this email. */
  predicate IsMember(s: State, t: TenantId, email: Email) {
    exists k :: k in s.members && k.tenant == t && k.user < |s.users| && s.users[k.user] == email
  }

  // ---------------------------------------------------------------- invitations

  datatype InviteVerdict =
    | InvalidEmail | OwnerForbidden | NoSubscription | Canceled | AlreadyMember | AlreadyInvited | SeatLimit | Created

  function JudgeInvite(s: State, t: TenantId, email: Email, role: Role): InviteVerdict {
    if '@' !in email then InvalidEmail
    else if role == OWNER then OwnerForbidden
    else if t !in s.subs then NoSubscription
    else if s.subs[t].status == CANCELED then Canceled
    else if IsMember(s, t, email) then AlreadyMember
    else if PendingFor(s, t, email) != {} then AlreadyInvited
    else if Seated(s, t) + |Pending(s, t)| >= s.subs[t].maxUsers then SeatLimit
    else Created
  }

  function WithInvite(s: State, env: Env, t: TenantId, email: Email, role: Role): State {
    s.(invites := s.invites + [Invite(t, email, role, PENDING, env.now + INVITE_TTL)])
  }

  function Invited(s: State, env: Env, t: TenantId, email: Email, role: Role): State {
    if JudgeInvite(s, t, email, role).Created? then WithInvite(s, env, t, email, role) else s
  }

  function WithStatus(s: State, i: InviteId, status: InviteStatus): State
    requires i < |s.invites|
  {
    s.(invites := s.invites[i := s.invites[i].(status := status)])
  }

  function InviteRevoked(s: State, t: TenantId, i: InviteId): State {
    if i < |s.invites| && s.invites[i].tenant == t && s.invites[i].status == PENDING then WithStatus(s, i, REVOKED)
    else s
  }

  datatype AcceptVerdict = NoInvite | NotPending | TooLate | WrongEmail | HasAccount | NotEntitled | NoSeat | Joined

  /** loadAndValidateInvite and what follows, for a caller with account `caller` or, on the public
      route, none. */
  function JudgeAccept(s: State, env: Env, i: InviteId, caller: Option<UserId>): (v: AcceptVerdict)
    ensures !v.NoInvite? ==> i < |s.invites|
  {
    if i >= |s.invites| then NoInvite
    else
      var invite := s.invites[i];
      if invite.status != PENDING then NotPending
      else if invite.expiresAt < env.now then TooLate
      else if caller.Some? && (caller.value >= |s.users| || s.users[caller.value] != invite.email) then WrongEmail
      else if caller.None? && invite.email in s.users then HasAccount
      else if invite.tenant in env.unpaid then NotEntitled
      else if Seated(s, invite.tenant) >= Limit(s, invite.tenant) then NoSeat
      else Joined
  }

  /** The public route has created the account by the time these are reached. */
  predicate MakesAccount(v: AcceptVerdict) { v.NotEntitled? || v.NoSeat? || v.Joined? }

  function WithAccount(s: State, i: InviteId, caller: Option<UserId>): State
    requires i < |s.invites|
  {
    if caller.None? then s.(users := s.users + [s.invites[i].email]) else s
  }

  function Accepted(s: State, env: Env, i: InviteId, caller: Option<UserId>): State {
    var v := JudgeAccept(s, env, i, caller);
    if v.TooLate? then WithStatus(s, i, EXPIRED)
    else if !MakesAccount(v) then s
    else
      var s1 := WithAccount(s, i, caller);
      match v
      case NoSeat => WithStatus(s1, i, EXPIRED)
      case Joined =>
        var key := Key(caller.OrElse(|s.users|), s.invites[i].tenant);
        var members := Admitted(s.members, key, s.memberIds, s.invites[i].role);
        WithStatus(s1.(members := members, memberIds := s.memberIds + 1), i, ACCEPTED)
      case _ => s1
  }

  predicate HasAdmin(s: State, t: TenantId) {
    exists k :: k in s.members && k.tenant == t && (s.members[k].role == OWNER || s.members[k].role == ADMIN)
  }

  /** Platform invitations: no check of seats or duplicates; revoked whatever their status. */
  function PlatformInvited(s: State, env: Env, t: TenantId, email: Email, role: Role): State {
    if '@' in email && HasAdmin(s, t) then WithInvite(s, env, t, email, role) else s
  }

  function PlatformRevoked(s: State, i: InviteId): State {
    if i < |s.invites| then WithStatus(s, i, REVOKED) else s
  }

  // ---------------------------------------------------------------- tenants and users

  function UserAdded(s: State, email: Email): State {
    if email in s.users then s else s.(users := s.users + [email])
  }

  /** A new tenant with its subscription and its first owner: a membership when the account exists, a
      pending invitation when not, and nobody when the address is no email. */
  function TenantOpened(s: State, env: Env, plan: Plan, owner: Email): State {
    var t := s.tenants;
    var s1 := s.(tenants := t + 1, subs := s.subs[t := Subscription(plan, PlanToMaxUsers(plan), ACTIVE, false)]);
    var user := IndexOf(s.users, owner);
    if '@' !in owner then s1
    else if user.Some? then
      s1.(members := Admitted(s.members, Key(user.value, t), s.memberIds, OWNER), memberIds := s.memberIds + 1)
    else WithInvite(s1, env, t, owner, OWNER)
  }

  ghost function MemberRemoved(s: State, t: TenantId, actor: Role, member: MemberId): State {
    s.(members := Removed(s.members, t, actor, member))
  }

  ghost function MemberRoleChanged(s: State, t: TenantId, actor: Role, member: MemberId, role: Role): State {
    s.(members := RoleChanged(s.members, t, actor, member, role))
  }

  // ---------------------------------------------------------------- the writers of the limit

  function PlanChanged(s: State, t: TenantId, plan: Plan): State {
    if t !in s.subs || Seated(s, t) > PlanToMaxUsers(plan) then s
    else s.(subs := s.subs[t := s.subs[t].(plan := plan, maxUsers := PlanToMaxUsers(plan), status := ACTIVE)])
  }

  function SubscriptionEnsured(s: State, t: TenantId): State {
    if t in s.subs || t >= s.tenants then s
    else s.(subs := s.subs[t := Subscription(FREE, PlanToMaxUsers(FREE), ACTIVE, false)])
  }

  /** A platform administrator's edit; `maxUsers`, when given, is at least 1. */
  datatype Edit = Edit(plan: Option<Plan>, maxUsers: Option<int>, status: Option<Status>, force: bool)

  datatype EditVerdict = NoSubscriptionYet | StripeManaged | BelowPlan | BelowMembers | Applied(maxUsers: int)

  function JudgeEdit(s: State, t: TenantId, e: Edit): EditVerdict {
    if t !in s.subs then NoSubscriptionYet
    else if s.subs[t].stripeLinked && !e.force then StripeManaged
    else
      var planMax := PlanToMaxUsers(e.plan.OrElse(s.subs[t].plan));
      var next := e.maxUsers.OrElse(if e.plan.Some? then planMax else s.subs[t].maxUsers);
      if next < planMax then BelowPlan
      else if Seated(s, t) > next then BelowMembers
      else Applied(next)
  }

  function BillingEdited(s: State, t: TenantId, e: Edit): State {
    match JudgeEdit(s, t, e)
    case Applied(next) =>
      var sub := s.subs[t];
      var edited := sub.(plan := e.plan.OrElse(sub.plan), maxUsers := next, status := e.status.OrElse(sub.status));
      s.(subs := s.subs[t := edited])
    case _ => s
  }

  /** applySubscriptionState: plan and limit are overwritten together when the price is known, with no
      look at the members. */
  function StripeApplied(s: State, t: TenantId, plan: Option<Plan>, status: Status): State {
    if t !in s.subs || !s.subs[t].stripeLinked then s
    else
      var sub := s.subs[t].(status := status);
      var priced := if plan.Some? then sub.(plan := plan.value, maxUsers := PlanToMaxUsers(plan.value)) else sub;
      s.(subs := s.subs[t := priced])
  }

  /** A checkout links the subscription of a tenant it opened to Stripe. */
  function StripeLinked(s: State, t: TenantId): State {
    if t in s.subs then s.(subs := s.subs[t := s.subs[t].(stripeLinked := true)]) else s
  }

  // ---------------------------------------------------------------- runs

  datatype Request =
    | AddUser(email: Email)
    | OpenTenant(plan: Plan, owner: Email)
    | CreateInvite(tenant: TenantId, email: Email, role: Role)
    | RevokeInvite(tenant: TenantId, invite: InviteId)
    | AcceptInvite(invite: InviteId, caller: Option<UserId>)
    | RemoveMember(tenant: TenantId, actor: Role, member: MemberId)
    | ChangeRole(tenant: TenantId, actor: Role, member: MemberId, role: Role)
    | PlatformInvite(tenant: TenantId, email: Email, role: Role)
    | PlatformRevoke(invite: InviteId)
    | ChangePlan(tenant: TenantId, plan: Plan)
    | ReadSubscription(tenant: TenantId)
    | EditBilling(tenant: TenantId, edit: Edit)
    | LinkStripe(tenant: TenantId)
    | StripeEvent(tenant: TenantId, priced: Option<Plan>, status: Status)

  ghost function Next(s: State, env: Env, r: Request): State {
    match r
    case AddUser(email) => UserAdded(s, email)
    case OpenTenant(plan, owner) => TenantOpened(s, env, plan, owner)
    case CreateInvite(t, email, role) => Invited(s, env, t, email, role)
    case RevokeInvite(t, i) => InviteRevoked(s, t, i)
    case AcceptInvite(i, caller) => Accepted(s, env, i, caller)
    case RemoveMember(t, actor, member) => MemberRemoved(s, t, actor, member)
    case ChangeRole(t, actor, member, role) => MemberRoleChanged(s, t, actor, member, role)
    case PlatformInvite(t, email, role) => PlatformInvited(s, env, t, email, role)
    case PlatformRevoke(i) => PlatformRevoked(s, i)
    case ChangePlan(t, plan) => PlanChanged(s, t, plan)
    case ReadSubscription(t) => SubscriptionEnsured(s, t)
    case EditBilling(t, e) => BillingEdited(s, t, e)
    case LinkStripe(t) => StripeLinked(s, t)
    case StripeEvent(t, priced, status) => StripeApplied(s, t, priced, status)
  }

  ghost function Run(trace: seq<(Env, Request)>): State {
    if trace == [] then Empty
    else
      var last := trace[|trace| - 1];
      Next(Run(trace[..|trace| - 1]), last.0, last.1)
  }

  // ---------------------------------------------------------------- the invariant

  ghost predicate Inv(s: State) {
    && (forall i, j :: 0 <= i < j < |s.users| ==> s.users[i] != s.users[j])
    && (forall k :: k in s.members ==> k.user < |s.users| && k.tenant < s.tenants)
    && (forall i :: 0 <= i < |s.invites| ==> s.invites[i].tenant < s.tenants)
    && (forall t :: t in s.subs <==> 0 <= t < s.tenants)
    && (forall t :: t in s.subs ==> s.subs[t].maxUsers >= PlanToMaxUsers(s.subs[t].plan))
  }

  predicate WritesLimit(r: Request) {
    r.ChangePlan? || r.ReadSubscription? || r.EditBilling? || r.LinkStripe? || r.StripeEvent?
  }

  lemma LimitWritersKeepInv(s: State, env: Env, r: Request)
    requires Inv(s) && WritesLimit(r)
    ensures Inv(Next(s, env, r))
  {
  }

  lemma AcceptKeepsInv(s: State, env: Env, r: Request)
    requires Inv(s) && r.AcceptInvite?
    ensures Inv(Next(s, env, r))
  {
  }

  lemma OpeningKeepsInv(s: State, env: Env, r: Request)
    requires Inv(s) && r.OpenTenant?
    ensures Inv(Next(s, env, r))
  {
  }

  lemma InvitingKeepsInv(s: State, env: Env, r: Request)
    requires Inv(s) && (r.CreateInvite? || r.RevokeInvite? || r.PlatformInvite? || r.PlatformRevoke?)
    ensures Inv(Next(s, env, r))
  {
  }

  lemma PeopleKeepInv(s: State, env: Env, r: Request)
    requires Inv(s) && (r.AddUser? || r.RemoveMember? || r.ChangeRole?)
    ensures Inv(Next(s, env, r))
  {
  }

  lemma StepKeepsInv(s: State, env: Env, r: Request)
    requires Inv(s)
    ensures Inv(Next(s, env, r))
  {
    if WritesLimit(r) {
      LimitWritersKeepInv(s, env, r);
    } else if r.AcceptInvite? {
      AcceptKeepsInv(s, env, r);
    } else if r.OpenTenant? {
      OpeningKeepsInv(s, env, r);
    } else if r.AddUser? || r.RemoveMember? || r.ChangeRole? {
      PeopleKeepInv(s, env, r);
    } else {
      InvitingKeepsInv(s, env, r);
    }
  }

  /** Whoever wrote it, a subscription's seat limit is never below its plan's. */
  lemma {:induction false} LimitCoversPlan(trace: seq<(Env, Request)>)
    ensures Inv(Run(trace))
    ensures forall t :: t in Run(trace).subs ==> Run(trace).subs[t].maxUsers >= PlanToMaxUsers(Run(trace).subs[t].plan)
  {
    if trace != [] {
      var last := trace[|trace| - 1];
      LimitCoversPlan(trace[..|trace| - 1]);
      StepKeepsInv(Run(trace[..|trace| - 1]), last.0, last.1);
    }
  }

  // ---------------------------------------------------------------- members above the limit

  function Overage(s: State, t: TenantId): nat {
    if Seated(s, t) > Limit(s, t) then Seated(s, t) - Limit(s, t) else 0
  }

  /** Admitting adds one seat where the pair had none. */
  lemma AdmittedSeats(m: Table, key: Key, id: MemberId, role: Role, t: TenantId)
    ensures InTenant(Admitted(m, key, id, role), t) ==
            if key !in m && key.tenant == t then InTenant(m, t) + {key} else InTenant(m, t)
  {
  }

  /** An acceptance adds one member, to the invitation's tenant, and only below the limit. */
  lemma AcceptSeats(s: State, env: Env, i: InviteId, caller: Option<UserId>, t: TenantId)
    ensures var s' := Accepted(s, env, i, caller);
            && s'.subs == s.subs
            && (Seated(s', t) == Seated(s, t) || (Seated(s', t) == Seated(s, t) + 1 && Seated(s, t) < Limit(s, t)))
  {
    if JudgeAccept(s, env, i, caller).Joined? {
      AdmittedSeats(s.members, Key(caller.OrElse(|s.users|), s.invites[i].tenant), s.memberIds, s.invites[i].role, t);
    }
  }

  lemma OpeningSeats(s: State, env: Env, plan: Plan, owner: Email, t: TenantId)
    requires Inv(s)
    ensures var s' := TenantOpened(s, env, plan, owner);
            && Limit(s', t) >= Limit(s, t)
            && (t != s.tenants ==> Seated(s', t) == Seated(s, t))
            && (t == s.tenants ==> Seated(s, t) == 0 && Seated(s', t) <= 1)
  {
    var s' := TenantOpened(s, env, plan, owner);
    if t != s.tenants {
      assert InTenant(s'.members, t) == InTenant(s.members, t);
    } else {
      assert InTenant(s.members, t) == {};
      var user := IndexOf(s.users, owner);
      if user.Some? {
        SubsetSize(InTenant(s'.members, t), {Key(user.value, t)});
      }
    }
  }

  lemma RoleChangeSeats(s: State, at: TenantId, actor: Role, member: MemberId, role: Role, t: TenantId)
    ensures InTenant(MemberRoleChanged(s, at, actor, member, role).members, t) == InTenant(s.members, t)
  {
  }

  lemma RemovalSeats(s: State, at: TenantId, actor: Role, member: MemberId, t: TenantId)
    ensures InTenant(MemberRemoved(s, at, actor, member).members, t) <= InTenant(s.members, t)
    ensures Seated(MemberRemoved(s, at, actor, member), t) <= Seated(s, t)
  {
    SubsetSize(InTenant(MemberRemoved(s, at, actor, member).members, t), InTenant(s.members, t));
  }

  lemma LimitWritersTouchOnlySubs(s: State, env: Env, r: Request)
    requires WritesLimit(r)
    ensures Next(s, env, r) == s.(subs := Next(s, env, r).subs)
  {
  }

  /** The checked writers leave no member above the limit they set. */
  lemma CheckedWritersCoverMembers(s: State, env: Env, r: Request, t: TenantId)
    requires Inv(s) && WritesLimit(r) && !(r.StripeEvent? && r.tenant == t)
    ensures Overage(Next(s, env, r), t) <= Overage(s, t)
  {
    LimitWritersTouchOnlySubs(s, env, r);
    assert Seated(Next(s, env, r), t) == Seated(s, t);
  }

  lemma MemberWritersKeepOverage(s: State, env: Env, r: Request, t: TenantId)
    requires Inv(s) && !WritesLimit(r)
    ensures Overage(Next(s, env, r), t) <= Overage(s, t)
  {
    if r.OpenTenant? {
      OpeningSeats(s, env, r.plan, r.owner, t);
    } else if r.AcceptInvite? {
      AcceptSeats(s, env, r.invite, r.caller, t);
    } else if r.RemoveMember? {
      RemovalSeats(s, r.tenant, r.actor, r.member, t);
    } else if r.ChangeRole? {
      RoleChangeSeats(s, r.tenant, r.actor, r.member, r.role, t);
    } else {
      assert Next(s, env, r).members == s.members;
    }
  }

  /** No request but a Stripe event for the tenant puts more of its members above the limit. */
  lemma OnlyStripeRaisesOverage(s: State, env: Env, r: Request, t: TenantId)
    requires Inv(s) && !(r.StripeEvent? && r.tenant == t)
    ensures Overage(Next(s, env, r), t) <= Overage(s, t)
  {
    if WritesLimit(r) {
      CheckedWritersCoverMembers(s, env, r, t);
    } else {
      MemberWritersKeepOverage(s, env, r, t);
    }
  }

  /** The event sets a limit below the one in force. */
  predicate LowersLimit(s: State, r: Request, t: TenantId) {
    && r.StripeEvent? && r.tenant == t && t in s.subs && s.subs[t].stripeLinked
    && r.priced.Some? && PlanToMaxUsers(r.priced.value) < Limit(s, t)
  }

  /** Exactly when a Stripe event puts more members above the limit: when the priced plan's limit is
      below both the limit in force and the members. The plan itself need not go down. */
  lemma StripeRaisesOverageExactly(s: State, env: Env, r: Request, t: TenantId)
    requires r.StripeEvent? && r.tenant == t
    ensures Overage(Next(s, env, r), t) > Overage(s, t) <==>
            LowersLimit(s, r, t) && PlanToMaxUsers(r.priced.value) < Seated(s, t)
  {
    assert InTenant(Next(s, env, r).members, t) == InTenant(s.members, t);
  }

  /** An event that confirms the plan takes back seats an administrator had added. */
  lemma SamePlanMayStrandMembers(s: State, env: Env, t: TenantId, status: Status)
    requires t in s.subs && s.subs[t].stripeLinked
    requires PlanToMaxUsers(s.subs[t].plan) < Seated(s, t) <= s.subs[t].maxUsers
    ensures Overage(s, t) == 0
    ensures Overage(Next(s, env, StripeEvent(t, Some(s.subs[t].plan), status)), t) > 0
  {
    StripeRaisesOverageExactly(s, env, StripeEvent(t, Some(s.subs[t].plan), status), t);
  }

  /** From position `n` on the trace has no event that lowers the tenant's limit. */
  ghost predicate NoLowering(trace: seq<(Env, Request)>, n: nat, t: TenantId) {
    |trace| > n ==>
      && NoLowering(trace[..|trace| - 1], n, t)
      && !LowersLimit(Run(trace[..|trace| - 1]), trace[|trace| - 1].1, t)
  }

  /** Over the rest of any run without such an event the members above the limit only become fewer;
      from the start there are none. */
  lemma {:induction false} OverageOnlyShrinks(trace: seq<(Env, Request)>, n: nat, t: TenantId)
    requires n <= |trace| && NoLowering(trace, n, t)
    ensures Overage(Run(trace), t) <= Overage(Run(trace[..n]), t)
    ensures n == 0 ==> Overage(Run(trace), t) == 0
  {
    if |trace| == n {
      assert trace[..n] == trace;
      if n == 0 {
        assert InTenant(Empty.members, t) == {};
      }
    } else {
      var earlier, last := trace[..|trace| - 1], trace[|trace| - 1];
      assert earlier[..n] == trace[..n];
      OverageOnlyShrinks(earlier, n, t);
      LimitCoversPlan(earlier);
      if last.1.StripeEvent? && last.1.tenant == t {
        StripeRaisesOverageExactly(Run(earlier), last.0, last.1, t);
      } else {
        OnlyStripeRaisesOverage(Run(earlier), last.0, last.1, t);
      }
    }
  }

  // ---------------------------------------------------------------- the reservation

  /** Every pending invitation of the tenant has its seat, its own email, and no member yet. */
  ghost predicate Reserved(s: State, t: TenantId) {
    && Seated(s, t) + |Pending(s, t)| <= Limit(s, t)
    && (forall i, j :: i in Pending(s, t) && j in Pending(s, t) && i != j ==> s.invites[i].email != s.invites[j].email)
    && (forall i :: i in Pending(s, t) ==> !IsMember(s, t, s.invites[i].email))
  }

  /** Fewer pending invitations, fewer members, more limit: the reservation holds all the more. */
  lemma ReservedWithLess(s: State, s': State, t: TenantId)
    requires Reserved(s, t)
    requires Limit(s', t) >= Limit(s, t)
    requires InTenant(s'.members, t) <= InTenant(s.members, t) && Pending(s', t) <= Pending(s, t)
    requires forall i :: i in Pending(s', t) ==> s'.invites[i].email == s.invites[i].email
    requires s.users <= s'.users && forall k :: k in s.members ==> k.user < |s.users|
    ensures Reserved(s', t)
  {
    SubsetSize(InTenant(s'.members, t), InTenant(s.members, t));
    SubsetSize(Pending(s', t), Pending(s, t));
    forall i | i in Pending(s', t)
      ensures !IsMember(s', t, s'.invites[i].email)
    {
      forall k | k in s'.members && k.tenant == t
        ensures k in s.members
      {
        assert k in InTenant(s'.members, t);
      }
    }
  }

  lemma OneMorePending(s: State, env: Env, at: TenantId, email: Email, role: Role, t: TenantId)
    ensures Pending(WithInvite(s, env, at, email, role), t) ==
            if at == t then Pending(s, t) + {|s.invites|} else Pending(s, t)
  {
  }

  /** There is a seat for one more, and the email is neither a member's nor a pending invitation's. */
  predicate Free(s: State, t: TenantId, email: Email) {
    Seated(s, t) + |Pending(s, t)| < Limit(s, t) && !IsMember(s, t, email) && PendingFor(s, t, email) == {}
  }

  lemma InviteKeepsReserved(s: State, env: Env, t: TenantId, email: Email, role: Role)
    requires Inv(s) && Reserved(s, t) && Free(s, t, email)
    ensures Reserved(WithInvite(s, env, t, email, role), t)
  {
    var s' := WithInvite(s, env, t, email, role);
    OneMorePending(s, env, t, email, role, t);
    forall i | i in Pending(s, t)
      ensures s'.invites[i].email == s.invites[i].email != email
    {
      assert i in PendingFor(s, t, s.invites[i].email);
    }
    forall i | i in Pending(s', t)
      ensures !IsMember(s', t, s'.invites[i].email)
    {
      assert IsMember(s', t, s'.invites[i].email) == IsMember(s, t, s'.invites[i].email);
    }
  }

  /** An invitation made without those checks overbooks the tenant. */
  lemma UncheckedInviteOverbooks(s: State, env: Env, t: TenantId, email: Email, role: Role)
    requires !Free(s, t, email)
    ensures !Reserved(WithInvite(s, env, t, email, role), t)
  {
    var s', n := WithInvite(s, env, t, email, role), |s.invites|;
    OneMorePending(s, env, t, email, role, t);
    assert n in Pending(s', t) && s'.invites[n].email == email;
    if PendingFor(s, t, email) != {} {
      var i :| i in PendingFor(s, t, email);
      assert i in Pending(s', t) && i != n && s'.invites[i].email == email;
    } else if IsMember(s, t, email) {
      assert IsMember(s', t, email);
    }
  }

  lemma ElsewhereKeepsReserved(s: State, env: Env, at: TenantId, email: Email, role: Role, t: TenantId)
    requires Inv(s) && Reserved(s, t) && at != t
    ensures Reserved(WithInvite(s, env, at, email, role), t)
  {
    OneMorePending(s, env, at, email, role, t);
    ReservedWithLess(s, WithInvite(s, env, at, email, role), t);
  }

  lemma OpeningKeepsReserved(s: State, env: Env, plan: Plan, owner: Email, t: TenantId)
    requires Inv(s) && Reserved(s, t)
    ensures Reserved(TenantOpened(s, env, plan, owner), t)
  {
    var s' := TenantOpened(s, env, plan, owner);
    OpeningSeats(s, env, plan, owner, t);
    if t != s.tenants {
      assert Pending(s', t) == Pending(s, t);
      assert InTenant(s'.members, t) == InTenant(s.members, t);
      ReservedWithLess(s, s', t);
    } else {
      assert Pending(s, t) == {};
      SubsetSize(Pending(s', t), {|s.invites|});
      if |s'.invites| > |s.invites| {
        assert s'.members == s.members;
      }
    }
  }

  /** An acceptance turns the pending invitation into the member it was for. */
  lemma JoiningMovesSeat(s: State, env: Env, i: InviteId, caller: Option<UserId>)
    requires Inv(s) && JudgeAccept(s, env, i, caller).Joined?
    requires Reserved(s, s.invites[i].tenant)
    ensures var t, s' := s.invites[i].tenant, Accepted(s, env, i, caller);
            var key := Key(caller.OrElse(|s.users|), t);
            && key !in s.members
            && InTenant(s'.members, t) == InTenant(s.members, t) + {key}
            && Pending(s', t) == Pending(s, t) - {i}
            && s'.members.Keys == s.members.Keys + {key}
  {
    var key := Key(caller.OrElse(|s.users|), s.invites[i].tenant);
    JoinedTables(s, env, i, caller);
    NewcomerIsNoMember(s, env, i, caller);
    AdmittedSeats(s.members, key, s.memberIds, s.invites[i].role, key.tenant);
    OneLessPending(s, Accepted(s, env, i, caller), i);
  }

  /** The tables after an invitation was accepted. */
  lemma JoinedTables(s: State, env: Env, i: InviteId, caller: Option<UserId>)
    requires JudgeAccept(s, env, i, caller).Joined?
    ensures var s' := Accepted(s, env, i, caller);
            var key := Key(caller.OrElse(|s.users|), s.invites[i].tenant);
            && s'.members == Admitted(s.members, key, s.memberIds, s.invites[i].role)
            && s'.invites == s.invites[i := s.invites[i].(status := ACCEPTED)]
  {
  }

  lemma NewcomerIsNoMember(s: State, env: Env, i: InviteId, caller: Option<UserId>)
    requires Inv(s) && JudgeAccept(s, env, i, caller).Joined?
    requires Reserved(s, s.invites[i].tenant)
    ensures Key(caller.OrElse(|s.users|), s.invites[i].tenant) !in s.members
  {
    assert i in Pending(s, s.invites[i].tenant);
  }

  lemma OneLessPending(s: State, s': State, i: InviteId)
    requires i < |s.invites| && s'.invites == s.invites[i := s.invites[i].(status := ACCEPTED)]
    ensures Pending(s', s.invites[i].tenant) == Pending(s, s.invites[i].tenant) - {i}
  {
  }

  lemma JoiningKeepsOthersOut(s: State, env: Env, i: InviteId, caller: Option<UserId>, email: Email)
    requires Inv(s) && JudgeAccept(s, env, i, caller).Joined?
    requires Reserved(s, s.invites[i].tenant)
    requires email != s.invites[i].email && !IsMember(s, s.invites[i].tenant, email)
    ensures !IsMember(Accepted(s, env, i, caller), s.invites[i].tenant, email)
  {
    JoiningMovesSeat(s, env, i, caller);
  }

  lemma JoiningKeepsCount(s: State, env: Env, i: InviteId, caller: Option<UserId>)
    requires Inv(s) && JudgeAccept(s, env, i, caller).Joined?
    requires Reserved(s, s.invites[i].tenant)
    ensures var t, s' := s.invites[i].tenant, Accepted(s, env, i, caller);
            Seated(s', t) + |Pending(s', t)| == Seated(s, t) + |Pending(s, t)| && Limit(s', t) == Limit(s, t)
  {
    JoiningMovesSeat(s, env, i, caller);
    assert i in Pending(s, s.invites[i].tenant);
  }

  lemma JoiningKeepsReserved(s: State, env: Env, i: InviteId, caller: Option<UserId>)
    requires Inv(s) && JudgeAccept(s, env, i, caller).Joined?
    requires Reserved(s, s.invites[i].tenant)
    ensures Reserved(Accepted(s, env, i, caller), s.invites[i].tenant)
  {
    var t, s' := s.invites[i].tenant, Accepted(s, env, i, caller);
    JoiningKeepsCount(s, env, i, caller);
    JoinedTables(s, env, i, caller);
    OneLessPending(s, s', i);
    assert i in Pending(s, t);
    forall j | j in Pending(s, t) - {i}
      ensures s'.invites[j].email == s.invites[j].email && !IsMember(s', t, s.invites[j].email)
    {
      JoiningKeepsOthersOut(s, env, i, caller, s.invites[j].email);
    }
    assert Pending(s', t) == Pending(s, t) - {i};
  }

  lemma AcceptKeepsReserved(s: State, env: Env, i: InviteId, caller: Option<UserId>, t: TenantId)
    requires Inv(s) && Reserved(s, t)
    ensures Reserved(Accepted(s, env, i, caller), t)
  {
    if JudgeAccept(s, env, i, caller).Joined? {
      if s.invites[i].tenant == t {
        JoiningKeepsReserved(s, env, i, caller);
      } else {
        AdmittedSeats(s.members, Key(caller.OrElse(|s.users|), s.invites[i].tenant), s.memberIds, s.invites[i].role, t);
        ReservedWithLess(s, Accepted(s, env, i, caller), t);
      }
    } else {
      ReservedWithLess(s, Accepted(s, env, i, caller), t);
    }
  }

  lemma InvitationKeepsReserved(s: State, env: Env, r: Request, t: TenantId)
    requires Inv(s) && Reserved(s, t)
    requires (r.CreateInvite? || r.PlatformInvite?) && !Overbooks(s, r, t)
    ensures Reserved(Next(s, env, r), t)
  {
    if Next(s, env, r) != s {
      if r.tenant != t {
        ElsewhereKeepsReserved(s, env, r.tenant, r.email, r.role, t);
      } else {
        InviteKeepsReserved(s, env, t, r.email, r.role);
      }
    }
  }

  /** Requests that only take away members or pending invitations. */
  lemma ReleasingStepKeepsReserved(s: State, env: Env, r: Request, t: TenantId)
    requires Inv(s) && Reserved(s, t)
    requires r.RemoveMember? || r.ChangeRole? || r.RevokeInvite? || r.PlatformRevoke? || r.AddUser?
    ensures Reserved(Next(s, env, r), t)
  {
    match r {
      case RemoveMember(at, actor, member) => RemovalSeats(s, at, actor, member, t);
      case ChangeRole(at, actor, member, role) => RoleChangeSeats(s, at, actor, member, role, t);
      case _ =>
    }
    ReservedWithLess(s, Next(s, env, r), t);
  }

  /** What can be told before the request: members and pending invitations together exceed the limit it
      grants, or the platform makes an invitation that the tenant's own check would have refused. */
  ghost predicate Overbooks(s: State, r: Request, t: TenantId) {
    var used := Seated(s, t) + |Pending(s, t)|;
    match r
    case ChangePlan(at, plan) => at == t && t in s.subs && Seated(s, t) <= PlanToMaxUsers(plan) < used
    case EditBilling(at, e) => at == t && JudgeEdit(s, t, e).Applied? && JudgeEdit(s, t, e).maxUsers < used
    case StripeEvent(at, priced, _) =>
      at == t && t in s.subs && s.subs[t].stripeLinked && priced.Some? && PlanToMaxUsers(priced.value) < used
    case PlatformInvite(at, email, _) => at == t && '@' in email && HasAdmin(s, t) && !Free(s, t, email)
    case _ => false
  }

  lemma LimitWriterKeepsReserved(s: State, env: Env, r: Request, t: TenantId)
    requires Inv(s) && WritesLimit(r) && Reserved(s, t)
    ensures Reserved(Next(s, env, r), t) <==> !Overbooks(s, r, t)
  {
    var s' := Next(s, env, r);
    LimitWritersTouchOnlySubs(s, env, r);
    assert Pending(s', t) == Pending(s, t) && InTenant(s'.members, t) == InTenant(s.members, t);
    forall i | i in Pending(s, t)
      ensures IsMember(s', t, s'.invites[i].email) == IsMember(s, t, s.invites[i].email)
    {
    }
  }

  /** Which single request, of any service, breaks the reservation: exactly one that overbooks. */
  lemma StepKeepsReservedExactly(s: State, env: Env, r: Request, t: TenantId)
    requires Inv(s) && Reserved(s, t)
    ensures Reserved(Next(s, env, r), t) <==> !Overbooks(s, r, t)
  {
    if WritesLimit(r) {
      LimitWriterKeepsReserved(s, env, r, t);
    } else if r.OpenTenant? {
      OpeningKeepsReserved(s, env, r.plan, r.owner, t);
    } else if r.AcceptInvite? {
      AcceptKeepsReserved(s, env, r.invite, r.caller, t);
    } else if r.CreateInvite? || r.PlatformInvite? {
      if Overbooks(s, r, t) {
        UncheckedInviteOverbooks(s, env, t, r.email, r.role);
      } else {
        InvitationKeepsReserved(s, env, r, t);
      }
    } else {
      ReleasingStepKeepsReserved(s, env, r, t);
    }
  }

  /** No request of the trace overbooks the tenant. */
  ghost predicate NeverOverbooked(trace: seq<(Env, Request)>, t: TenantId) {
    trace != [] ==>
      var earlier, last := trace[..|trace| - 1], trace[|trace| - 1];
      NeverOverbooked(earlier, t) && !Overbooks(Run(earlier), last.1, t)
  }

  /** In every such run members and pending invitations fit in the limit, pending emails are distinct
      and belong to no member. */
  lemma {:induction false} SeatsAreReserved(trace: seq<(Env, Request)>, t: TenantId)
    requires NeverOverbooked(trace, t)
    ensures Reserved(Run(trace), t)
  {
    if trace != [] {
      var earlier, last := trace[..|trace| - 1], trace[|trace| - 1];
      SeatsAreReserved(earlier, t);
      LimitCoversPlan(earlier);
      StepKeepsReservedExactly(Run(earlier), last.0, last.1, t);
    } else {
      assert InTenant(Empty.members, t) == {} && Pending(Empty, t) == {};
    }
  }

  /** So whoever may accept a pending invitation of the tenant is never refused for lack of a seat. */
  lemma PendingInviteHasSeat(trace: seq<(Env, Request)>, t: TenantId, env: Env, i: InviteId, caller: Option<UserId>)
    requires NeverOverbooked(trace, t)
    requires i < |Run(trace).invites| && Run(trace).invites[i].tenant == t
    ensures !JudgeAccept(Run(trace), env, i, caller).NoSeat?
  {
    SeatsAreReserved(trace, t);
    if Run(trace).invites[i].status == PENDING {
      assert i in Pending(Run(trace), t);
    }
  }

  /** A plan change looks at members only: it may leave a pending invitation without a seat. */
  lemma DowngradeMayStrandInvite(s: State, env: Env, t: TenantId, plan: Plan, i: InviteId, caller: UserId)
    requires t in s.subs && Seated(s, t) == PlanToMaxUsers(plan)
    requires i in Pending(s, t) && s.invites[i].expiresAt >= env.now && t !in env.unpaid
    requires caller < |s.users| && s.users[caller] == s.invites[i].email
    ensures PlanChanged(s, t, plan).subs[t].plan == plan
    ensures JudgeAccept(PlanChanged(s, t, plan), env, i, Some(caller)).NoSeat?
  {
    assert Seated(PlanChanged(s, t, plan), t) == Seated(s, t);
  }

  // ---------------------------------------------------------------- what a request writes

  /** The seats of the three plans. */
  function SeatsOf(plan: Plan): int {
    if plan == FREE then 3 else if plan == PRO then 10 else 50
  }

  /** How a subscription reads after an event with this price. */
  predicate AppliedPrice(prices: Prices, priceId: Option<string>, before: Subscription, after: Subscription) {
    if priceId.Some? && priceId.value != "" && priceId == prices.pro then after.plan == PRO && after.maxUsers == 10
    else if priceId.Some? && priceId.value != "" && priceId == prices.enterprise then
      after.plan == ENTERPRISE && after.maxUsers == 50
    else after.plan == before.plan && after.maxUsers == before.maxUsers
  }

  /** From the checkout's price to the seats: when both prices are set and differ, an event that carries the
      price the checkout asked for leaves a linked subscription at exactly the plan bought. */
  lemma BoughtPlanIsApplied(s: State, env: Env, t: TenantId, prices: Prices, plan: Plan, status: Status)
    requires Configured(prices) && prices.pro != prices.enterprise && Paid(plan)
    requires t in s.subs && s.subs[t].stripeLinked
    ensures var event := StripeEvent(t, PriceIdToPlan(prices, PlanToPriceId(prices, plan)), status);
            Next(s, env, event) ==
            s.(subs := s.subs[t := Subscription(plan, if plan == PRO then 10 else 50, status, true)])
  {
    PriceRoundTrip(prices);
  }

  /** Exactly when a tenant's invitation is made, and what it is. */
  lemma InvitedExactly(s: State, env: Env, t: TenantId, email: Email, role: Role)
    ensures Next(s, env, CreateInvite(t, email, role)) ==
            if '@' in email && role != OWNER && t in s.subs && s.subs[t].status != CANCELED && Free(s, t, email)
            then s.(invites := s.invites + [Invite(t, email, role, PENDING, env.now + 7 * 86_400_000)])
            else s
  {
  }

  /** An acceptance turns an invitation into a membership exactly when it is pending, not past its date, the
      caller is whom it is for, the tenant may sign in and has a seat; the member gets the role it states,
      unless it had one already, and nobody else's membership changes. */
  lemma AcceptedExactly(s: State, env: Env, i: InviteId, caller: Option<UserId>)
    requires Inv(s)
    ensures var s' := Next(s, env, AcceptInvite(i, caller));
            if && i < |s.invites| && s.invites[i].status == PENDING && env.now <= s.invites[i].expiresAt
               && (if caller.Some? then caller.value < |s.users| && s.users[caller.value] == s.invites[i].email
                   else s.invites[i].email !in s.users)
               && s.invites[i].tenant !in env.unpaid && Seated(s, s.invites[i].tenant) < Limit(s, s.invites[i].tenant)
            then
              var key := Key(if caller.Some? then caller.value else |s.users|, s.invites[i].tenant);
              && i < |s'.invites| && s'.invites[i].status == ACCEPTED
              && key.user < |s'.users| && s'.users[key.user] == s.invites[i].email
              && key in s'.members && s'.members - {key} == s.members - {key}
              && (if key in s.members then s'.members[key] == s.members[key]
                  else s'.members[key].role == s.invites[i].role)
            else s'.members == s.members && forall j :: 0 <= j < |s.invites| && s'.invites[j] != s.invites[j] ==>
                   j == i && s'.invites[j] == s.invites[j].(status := EXPIRED)
  {
  }

  /** What an acceptance leaves behind: an invitation presented late, or by its addressee when there is no
      seat, is EXPIRED; and the public route keeps the account it made, whatever comes of the invitation. */
  lemma LeftBehindExactly(s: State, env: Env, i: InviteId, caller: Option<UserId>)
    requires i < |s.invites|
    ensures var (s', invite) := (Next(s, env, AcceptInvite(i, caller)), s.invites[i]);
            var open := invite.status == PENDING && env.now <= invite.expiresAt;
            var his := if caller.Some? then caller.value < |s.users| && s.users[caller.value] == invite.email
                       else invite.email !in s.users;
            && s'.users == (if open && his && caller.None? then s.users + [invite.email] else s.users)
            && i < |s'.invites| && s'.subs == s.subs && s'.tenants == s.tenants
            && (s'.invites[i].status != invite.status && s'.invites[i].status == EXPIRED <==>
                  || (invite.status == PENDING && env.now > invite.expiresAt)
                  || (open && his && invite.tenant !in env.unpaid
                      && Seated(s, invite.tenant) >= Limit(s, invite.tenant)))
  {
  }

  /** An invitation is open for seven days: until it is accepted, revoked or set aside, it brings its
      addressee in exactly as long as they last and the tenant has a seat and may sign in. */
  lemma InvitationLastsSevenDays(s: State, env: Env, t: TenantId, email: Email, role: Role, since: seq<(Env, Request)>,
                                 env': Env, caller: UserId)
    requires Inv(s) && Next(s, env, CreateInvite(t, email, role)) != s
    requires var late := RunFrom(Next(s, env, CreateInvite(t, email, role)), since);
             && caller < |late.users| && late.users[caller] == email
             && (|s.invites| < |late.invites| ==> late.invites[|s.invites|].status == PENDING)
    ensures var late := RunFrom(Next(s, env, CreateInvite(t, email, role)), since);
            && |s.invites| < |late.invites|
            && (Next(late, env', AcceptInvite(|s.invites|, Some(caller))).invites[|s.invites|].status == ACCEPTED <==>
                  env'.now <= env.now + 604_800_000 && t !in env'.unpaid && Seated(late, t) < Limit(late, t))
  {
    var s1 := Next(s, env, CreateInvite(t, email, role));
    StepKeepsInv(s, env, CreateInvite(t, email, role));
    RunFromKeepsInvites(s1, since, |s.invites|);
    AcceptedExactly(RunFrom(s1, since), env', |s.invites|, Some(caller));
  }

  ghost function RunFrom(s: State, trace: seq<(Env, Request)>): State
    decreases |trace|
  {
    if trace == [] then s else RunFrom(Next(s, trace[0].0, trace[0].1), trace[1..])
  }

  /** Of an invitation only the status ever changes. */
  lemma {:induction false} RunFromKeepsInvites(s: State, trace: seq<(Env, Request)>, i: InviteId)
    requires Inv(s) && i < |s.invites|
    ensures Inv(RunFrom(s, trace)) && i < |RunFrom(s, trace).invites|
    ensures RunFrom(s, trace).invites[i] == s.invites[i].(status := RunFrom(s, trace).invites[i].status)
    decreases |trace|
  {
    if trace != [] {
      StepKeepsInv(s, trace[0].0, trace[0].1);
      StepKeepsInvites(s, trace[0].0, trace[0].1, i);
      RunFromKeepsInvites(Next(s, trace[0].0, trace[0].1), trace[1..], i);
    }
  }

  lemma StepKeepsInvites(s: State, env: Env, r: Request, i: InviteId)
    requires i < |s.invites|
    ensures i < |Next(s, env, r).invites|
    ensures Next(s, env, r).invites[i] == s.invites[i].(status := Next(s, env, r).invites[i].status)
  {
  }

  /** A new tenant has its plan, with the seats of that plan, and its first owner: as an OWNER when the
      account exists, by a pending OWNER invitation of seven days when not. */
  lemma OpenedExactly(s: State, env: Env, plan: Plan, owner: Email)
    requires Inv(s)
    ensures var s' := Next(s, env, OpenTenant(plan, owner));
            var subs := s.subs[s.tenants := Subscription(plan, SeatsOf(plan), ACTIVE, false)];
            && s'.tenants == s.tenants + 1 && s'.subs == subs && s'.users == s.users
            && (if '@' in owner && owner in s.users then
                  && s'.invites == s.invites
                  && exists u: UserId :: u < |s.users| && s.users[u] == owner
                                         && s'.members == s.members[Key(u, s.tenants) := Member(s.memberIds, OWNER)]
                else
                  && s'.members == s.members
                  && s'.invites == s.invites + if '@' in owner
                                               then [Invite(s.tenants, owner, OWNER, PENDING, env.now + 604_800_000)]
                                               else [])
  {
    var user := IndexOf(s.users, owner);
    if '@' in owner && user.Some? {
      assert s.users[user.value] == owner && Key(user.value, s.tenants) !in s.members;
    }
  }

  /** Exactly when an administrator's edit is written, and what. */
  lemma EditedExactly(s: State, env: Env, t: TenantId, e: Edit)
    ensures var s' := Next(s, env, EditBilling(t, e));
            if t !in s.subs then s' == s
            else
              var sub := s.subs[t];
              var plan := if e.plan.Some? then e.plan.value else sub.plan;
              var seats := if e.maxUsers.Some? then e.maxUsers.value
                           else if e.plan.Some? then SeatsOf(plan) else sub.maxUsers;
              if (sub.stripeLinked ==> e.force) && seats >= SeatsOf(plan) && seats >= Seated(s, t) then
                s' == s.(subs := s.subs[t := Subscription(plan, seats, e.status.OrElse(sub.status), sub.stripeLinked)])
              else s' == s
  {
  }

  // ---------------------------------------------------------------- runs that reach both failures

  const CALM := Env(0, {})
  const PLAIN := Subscription(PRO, 10, ACTIVE, false)
  const EXTENDED := Subscription(PRO, 11, ACTIVE, true)

  /** Emails, all different. */
  function Mail(k: nat): (email: Email)
    ensures |email| == k + 1 && '@' in email
  {
    var email := seq(k + 1, _ => '@');
    assert email[0] == '@';
    email
  }

  /** Tenant 0 with its owner and `k` members who came by invitation. */
  ghost predicate IsCrew(s: State, k: nat, sub: Subscription) {
    && s.tenants == 1 && s.subs == map[0 := sub]
    && |s.users| == k + 1 && (forall i :: 0 <= i <= k ==> s.users[i] == Mail(i))
    && |s.invites| == k && (forall i :: 0 <= i < k ==> s.invites[i].status != PENDING)
    && (forall key :: key in s.members ==> key.user <= k && key.tenant == 0)
    && Seated(s, 0) == k + 1
  }

  function Plainly(r: Request): (Env, Request) { (CALM, r) }

  lemma RunSnoc(trace: seq<(Env, Request)>, r: Request)
    ensures Run(trace + [Plainly(r)]) == Next(Run(trace), CALM, r)
  {
    assert (trace + [Plainly(r)])[..|trace|] == trace;
  }

  /** The tenant opened for an existing user. */
  lemma OwnerIsReached() returns (trace: seq<(Env, Request)>)
    ensures IsCrew(Run(trace), 0, PLAIN)
  {
    trace := [];
    RunSnoc(trace, AddUser(Mail(0)));
    trace := trace + [Plainly(AddUser(Mail(0)))];
    RunSnoc(trace, OpenTenant(PRO, Mail(0)));
    trace := trace + [Plainly(OpenTenant(PRO, Mail(0)))];
    assert InTenant(Run(trace).members, 0) == {Key(0, 0)};
  }

  /** And then linked to Stripe and given one seat more than the plan has. */
  lemma ExtendedOwnerIsReached() returns (trace: seq<(Env, Request)>)
    ensures IsCrew(Run(trace), 0, EXTENDED)
  {
    var edit := EditBilling(0, Edit(None, Some(11), None, true));
    trace := OwnerIsReached();
    var s := Run(trace);
    RunSnoc(trace, LinkStripe(0));
    trace := trace + [Plainly(LinkStripe(0))];
    RunSnoc(trace, edit);
    trace := trace + [Plainly(edit)];
    assert InTenant(Run(trace).members, 0) == InTenant(s.members, 0);
  }

  lemma InvitedToCrew(s: State, k: nat, sub: Subscription)
    requires IsCrew(s, k, sub) && sub.status == ACTIVE && k + 1 < sub.maxUsers
    ensures JudgeInvite(s, 0, Mail(k + 1), MEMBER).Created?
  {
    assert Pending(s, 0) == {} && PendingFor(s, 0, Mail(k + 1)) == {};
  }

  lemma JoinedCrew(s: State, k: nat, sub: Subscription)
    requires IsCrew(s, k, sub) && sub.status == ACTIVE && k + 1 < sub.maxUsers
    ensures IsCrew(Accepted(WithInvite(s, CALM, 0, Mail(k + 1), MEMBER), CALM, k, None), k + 1, sub)
  {
    var s1 := WithInvite(s, CALM, 0, Mail(k + 1), MEMBER);
    assert Mail(k + 1) !in s.users;
    assert JudgeAccept(s1, CALM, k, None).Joined?;
    AdmittedSeats(s1.members, Key(k + 1, 0), s1.memberIds, MEMBER, 0);
  }

  lemma OneJoins(trace: seq<(Env, Request)>, k: nat, sub: Subscription)
    requires IsCrew(Run(trace), k, sub) && sub.status == ACTIVE && k + 1 < sub.maxUsers
    ensures IsCrew(Run(trace + [Plainly(CreateInvite(0, Mail(k + 1), MEMBER))] + [Plainly(AcceptInvite(k, None))]),
                   k + 1, sub)
  {
    InvitedToCrew(Run(trace), k, sub);
    JoinedCrew(Run(trace), k, sub);
    RunSnoc(trace, CreateInvite(0, Mail(k + 1), MEMBER));
    RunSnoc(trace + [Plainly(CreateInvite(0, Mail(k + 1), MEMBER))], AcceptInvite(k, None));
  }

  /** `k` times an invitation and its acceptance. */
  lemma {:induction false} CrewIsReached(start: seq<(Env, Request)>, k: nat, sub: Subscription)
    returns (trace: seq<(Env, Request)>)
    requires IsCrew(Run(start), 0, sub) && sub.status == ACTIVE && k < sub.maxUsers
    ensures IsCrew(Run(trace), k, sub)
  {
    trace := start;
    if k > 0 {
      trace := CrewIsReached(start, k - 1, sub);
      OneJoins(trace, k - 1, sub);
      trace := trace + [Plainly(CreateInvite(0, Mail(k), MEMBER))] + [Plainly(AcceptInvite(k - 1, None))];
    }
  }

  /** A run from the empty database to eleven members within an extended limit; a Stripe event that then
      confirms the plan leaves one of them above it. */
  lemma StrandedMemberIsReached() returns (trace: seq<(Env, Request)>)
    ensures Overage(Run(trace), 0) == 0 && Run(trace).subs == map[0 := EXTENDED]
    ensures Overage(Next(Run(trace), CALM, StripeEvent(0, Some(EXTENDED.plan), ACTIVE)), 0) == 1
  {
    trace := ExtendedOwnerIsReached();
    trace := CrewIsReached(trace, 10, EXTENDED);
    ElevenOfTen(Run(trace));
  }

  lemma ElevenOfTen(s: State)
    requires IsCrew(s, 10, EXTENDED)
    ensures Overage(s, 0) == 0 && Overage(StripeApplied(s, 0, Some(PRO), ACTIVE), 0) == 1
  {
    assert Seated(StripeApplied(s, 0, Some(PRO), ACTIVE), 0) == Seated(s, 0);
  }

  /** A run from the empty database to three members and a pending invitation, then a change to the free
      plan: the invited account is refused for lack of a seat. */
  lemma StrandedInviteIsReached() returns (trace: seq<(Env, Request)>)
    ensures JudgeAccept(Run(trace), CALM, 2, Some(3)).NoSeat?
  {
    var owner := OwnerIsReached();
    var crew := CrewIsReached(owner, 2, PLAIN);
    InvitedToCrew(Run(crew), 2, PLAIN);
    trace := crew + [Plainly(CreateInvite(0, Mail(3), MEMBER))];
    RunSnoc(crew, CreateInvite(0, Mail(3), MEMBER));
    RunSnoc(trace, AddUser(Mail(3)));
    trace := trace + [Plainly(AddUser(Mail(3)))];
    RunSnoc(trace, ChangePlan(0, FREE));
    trace := trace + [Plainly(ChangePlan(0, FREE))];
    FourthIsRefused(Run(crew));
  }

  lemma FourthIsRefused(s: State)
    requires IsCrew(s, 2, PLAIN)
    ensures var s' := PlanChanged(UserAdded(WithInvite(s, CALM, 0, Mail(3), MEMBER), Mail(3)), 0, FREE);
            JudgeAccept(s', CALM, 2, Some(3)).NoSeat?
  {
    assert Mail(3) !in s.users;
    var s2 := UserAdded(WithInvite(s, CALM, 0, Mail(3), MEMBER), Mail(3));
    assert Seated(s2, 0) == Seated(s, 0) && 2 in Pending(s2, 0);
    DowngradeMayStrandInvite(s2, CALM, 0, FREE, 2, 3);
  }

  // ---------------------------------------------------------------- the services

  lemma MemberByEmail(s: State, t: TenantId, email: Email)
    requires Inv(s)
    ensures IsMember(s, t, email) <==>
            var u := IndexOf(s.users, email); u.Some? && Key(u.value, t) in s.members
  {
    if k :| k in s.members && k.tenant == t && k.user < |s.users| && s.users[k.user] == email {
      var u := IndexOf(s.users, email);
      assert u.value == k.user;
      assert k == Key(u.value, t);
    }
  }

  /** The invitation, billing and platform services over one database. */
  class SeatStore {
    var tenants: nat
    var users: seq<Email>
    var members: Table
    var memberIds: nat
    var invites: seq<Invite>
    var subs: map<TenantId, Subscription>

    ghost function Current(): State
      reads this
    {
      State(tenants, users, members, memberIds, invites, subs)
    }

    constructor ()
      ensures Current() == Empty && Inv(Current())
    {
      tenants, users, members, memberIds, invites, subs := 0, [], map[], 0, [], map[];
    }

    function PendingRows(t: TenantId): (ids: set<InviteId>)
      reads this
      ensures ids == Pending(Current(), t)
    {
      set i | 0 <= i < |invites| && invites[i].tenant == t && invites[i].status == PENDING
    }

    method CreateInvitation(env: Env, t: TenantId, email: Email, role: Role) returns (v: InviteVerdict)
      requires Inv(Current())
      modifies this`invites
      ensures v == JudgeInvite(old(Current()), t, email, role)
      ensures Current() == Invited(old(Current()), env, t, email, role)
    {
      MemberByEmail(Current(), t, email);
      if '@' !in email {
        return InvalidEmail;
      }
      if role == OWNER {
        return OwnerForbidden;
      }
      if t !in subs {
        return NoSubscription;
      }
      var sub := subs[t];
      if sub.status == CANCELED {
        return Canceled;
      }
      var existingUser := IndexOf(users, email);
      if existingUser.Some? && Key(existingUser.value, t) in members {
        return AlreadyMember;
      }
      if i :| i in PendingRows(t) && invites[i].email == email {
        assert i in PendingFor(Current(), t, email);
        return AlreadyInvited;
      }
      assert PendingFor(Current(), t, email) == {};
      var memberCount := |InTenant(members, t)|;
      var pendingInvites := |PendingRows(t)|;
      if memberCount + pendingInvites >= sub.maxUsers {
        return SeatLimit;
      }
      invites := invites + [Invite(t, email, role, PENDING, env.now + INVITE_TTL)];
      return Created;
    }

    method RevokeInvitation(t: TenantId, i: InviteId) returns (ok: bool)
      modifies this`invites
      ensures Current() == InviteRevoked(old(Current()), t, i)
      ensures ok <==> i < |old(invites)| && old(invites)[i].tenant == t && old(invites)[i].status == PENDING
      ensures invites == if ok then old(invites)[i := old(invites)[i].(status := REVOKED)] else old(invites)
    {
      if i >= |invites| || invites[i].tenant != t {
        return false;
      }
      if invites[i].status != PENDING {
        return false;
      }
      invites := invites[i := invites[i].(status := REVOKED)];
      return true;
    }

    /** The common part of both routes: the invitation is still pending and `user` has its email. */
    method ConsumeInvite(env: Env, i: InviteId, user: UserId) returns (v: AcceptVerdict)
      requires i < |invites| && invites[i].status == PENDING && invites[i].expiresAt >= env.now
      requires user < |users| && users[user] == invites[i].email
      modifies this`members, this`memberIds, this`invites
      ensures v == JudgeAccept(old(Current()), env, i, Some(user))
      ensures Current() == Accepted(old(Current()), env, i, Some(user))
    {
      var invite := invites[i];
      if invite.tenant in env.unpaid {
        return NotEntitled;
      }
      var memberCount := |InTenant(members, invite.tenant)|;
      var maxUsers := if invite.tenant in subs then subs[invite.tenant].maxUsers else PlanToMaxUsers(FREE);
      if memberCount >= maxUsers {
        invites := invites[i := invite.(status := EXPIRED)];
        return NoSeat;
      }
      var key := Key(user, invite.tenant);
      if key !in members {
        members := members[key := Member(memberIds, invite.role)];
      }
      memberIds := memberIds + 1;
      invites := invites[i := invite.(status := ACCEPTED)];
      return Joined;
    }

    method AcceptAuthenticated(env: Env, i: InviteId, caller: UserId) returns (v: AcceptVerdict)
      modifies this`members, this`memberIds, this`invites
      ensures v == JudgeAccept(old(Current()), env, i, Some(caller))
      ensures Current() == Accepted(old(Current()), env, i, Some(caller))
    {
      if i >= |invites| {
        return NoInvite;
      }
      if invites[i].status != PENDING {
        return NotPending;
      }
      if invites[i].expiresAt < env.now {
        invites := invites[i := invites[i].(status := EXPIRED)];
        return TooLate;
      }
      if caller >= |users| || users[caller] != invites[i].email {
        return WrongEmail;
      }
      v := ConsumeInvite(env, i, caller);
    }

    method AcceptPublic(env: Env, i: InviteId) returns (v: AcceptVerdict)
      requires Inv(Current())
      modifies this`users, this`members, this`memberIds, this`invites
      ensures v == JudgeAccept(old(Current()), env, i, None)
      ensures Current() == Accepted(old(Current()), env, i, None)
    {
      if i >= |invites| {
        return NoInvite;
      }
      if invites[i].status != PENDING {
        return NotPending;
      }
      if invites[i].expiresAt < env.now {
        invites := invites[i := invites[i].(status := EXPIRED)];
        return TooLate;
      }
      if invites[i].email in users {
        return HasAccount;
      }
      var user := |users|;
      users := users + [invites[i].email];
      v := ConsumeInvite(env, i, user);
    }

    method ChangePlan(t: TenantId, plan: Plan) returns (ok: bool)
      modifies this`subs
      ensures Current() == PlanChanged(old(Current()), t, plan)
      ensures ok <==> t in old(subs) && Seated(old(Current()), t) <= PlanToMaxUsers(plan)
      ensures ok ==> subs[t] == old(subs)[t].(plan := plan, maxUsers := SeatsOf(plan), status := ACTIVE)
      ensures subs - {t} == old(subs) - {t} && (ok ==> Overage(Current(), t) == 0)
    {
      if t !in subs {
        return false;
      }
      var newMax := PlanToMaxUsers(plan);
      var memberCount := |InTenant(members, t)|;
      if memberCount > newMax {
        return false;
      }
      subs := subs[t := subs[t].(plan := plan, maxUsers := newMax, status := ACTIVE)];
      return true;
    }

    method UpdateTenantBilling(t: TenantId, e: Edit) returns (v: EditVerdict)
      modifies this`subs
      ensures v == JudgeEdit(old(Current()), t, e)
      ensures Current() == BillingEdited(old(Current()), t, e)
    {
      if t !in subs {
        return NoSubscriptionYet;
      }
      var sub := subs[t];
      if sub.stripeLinked && !e.force {
        return StripeManaged;
      }
      var planMax := PlanToMaxUsers(e.plan.OrElse(sub.plan));
      var nextMaxUsers := e.maxUsers.OrElse(if e.plan.Some? then planMax else sub.maxUsers);
      if nextMaxUsers < planMax {
        return BelowPlan;
      }
      var memberCount := |InTenant(members, t)|;
      if memberCount > nextMaxUsers {
        return BelowMembers;
      }
      if e.plan.Some? {
        sub := sub.(plan := e.plan.value, maxUsers := nextMaxUsers);
      } else if e.maxUsers.Some? {
        sub := sub.(maxUsers := nextMaxUsers);
      }
      if e.status.Some? {
        sub := sub.(status := e.status.value);
      }
      subs := subs[t := sub];
      return Applied(nextMaxUsers);
    }

    /** A Stripe event for the tenant's subscription, read through the configured prices. */
    method ApplySubscriptionState(t: TenantId, prices: Prices, priceId: Option<string>, stripeStatus: string)
      returns (updated: bool)
      modifies this`subs
      ensures var (plan, status) := (PriceIdToPlan(prices, priceId), StripeStatusToLocal(stripeStatus));
              Current() == StripeApplied(old(Current()), t, plan, status)
      ensures updated <==> t in old(subs) && old(subs)[t].stripeLinked
      ensures updated ==> t in subs && subs[t].stripeLinked && AppliedPrice(prices, priceId, old(subs)[t], subs[t])
      ensures updated ==> (subs[t].status == ACTIVE <==> stripeStatus == "active" || stripeStatus == "trialing")
      ensures updated ==>
                (subs[t].status == CANCELED <==> stripeStatus == "canceled" || stripeStatus == "incomplete_expired")
      ensures subs - {t} == old(subs) - {t} && (!updated ==> subs == old(subs))
    {
      if t !in subs || !subs[t].stripeLinked {
        return false;
      }
      var plan := PriceIdToPlan(prices, priceId);
      subs := subs[t := subs[t].(status := StripeStatusToLocal(stripeStatus))];
      if plan.Some? {
        subs := subs[t := subs[t].(plan := plan.value, maxUsers := PlanToMaxUsers(plan.value))];
      }
      return true;
    }
  }
}
