/**
 Tenant provisioning from `checkout.session.completed` events.

 Stripe delivers an event any number of times. A delivery reads its pending checkout, asks Stripe
 for the subscription, and then runs a transaction that looks at the checkout again. Deliveries
 interleave; the transaction is modelled twice, as one atomic step and, at the database's default
 isolation, as a first look, reads of what is committed, and a commit that the unique constraints
 may refuse. The audit row written inside the transaction links a tenant to its session.
 */
module Checkouts {
  import opened Options
  import opened Plans
  import FreshNames

  type Email = string
  type Slug = string
  type UserId = nat
  type TenantId = nat
  type SessionId = nat
  type SubscriptionId = nat
  type CustomerId = nat
  type CheckoutId = nat
  type DeliveryId = nat

  datatype CheckoutStatus = PENDING | COMPLETED

  datatype Checkout = Checkout(email: Email, slug: Slug, plan: Plan, session: Option<SessionId>,
                               status: CheckoutStatus, tenant: Option<TenantId>)
  datatype Owner = Owner(user: UserId, tenant: TenantId)
  datatype Subscription = Subscription(plan: Plan, maxUsers: int, stripe: Option<SubscriptionId>,
                                       customer: Option<CustomerId>)
  datatype AuditRow = AuditRow(tenant: TenantId, session: SessionId)

  /** Ids of users, tenants and checkouts are positions: they are only ever appended. */
  datatype Tables = Tables(users: seq<Email>, tenants: seq<Slug>, owners: set<Owner>,
                           subs: map<TenantId, Subscription>, checkouts: seq<Checkout>, audit: seq<AuditRow>)

  /** What Stripe put in each session, the same in every delivery of the event. */
  datatype Stripe = Stripe(subscriptionOf: map<SessionId, SubscriptionId>, customerOf: map<SessionId, CustomerId>)
  {
    function Subscription(s: SessionId): Option<SubscriptionId> {
      if s in subscriptionOf then Some(subscriptionOf[s]) else None
    }

    function Customer(s: SessionId): Option<CustomerId> {
      if s in customerOf then Some(customerOf[s]) else None
    }
  }

  /** `remote` is the customer named by the retrieved subscription, if one was retrieved. */
  datatype Stage =
    | Loaded
    | Retrieved(remote: Option<CustomerId>)
    | Checked(remote: Option<CustomerId>)
    | Planned(remote: Option<CustomerId>, user: Option<UserId>, slug: Slug)
    | Finished

  /** A delivery under way, with the checkout row as its outer read found it. */
  datatype Delivery = Delivery(session: SessionId, id: CheckoutId, row: Checkout, stage: Stage)

  datatype State = State(db: Tables, deliveries: seq<Delivery>)

  const Empty := State(Tables([], [], {}, map[], [], []), [])

  // ---------------------------------------------------------------- steps

  function SessionTaken(db: Tables, session: SessionId): bool {
    exists i :: 0 <= i < |db.checkouts| && db.checkouts[i].session == Some(session)
  }

  /** createCheckoutSession; session ids are new. */
  function Open(s: State, email: Email, slug: Slug, plan: Plan, session: SessionId): State {
    if plan == FREE || slug in s.db.tenants || SessionTaken(s.db, session) then s
    else s.(db := s.db.(checkouts := s.db.checkouts + [Checkout(email, slug, plan, Some(session), PENDING, None)]))
  }

  /** Any other service creating a user or a tenant under the same unique constraints. */
  function AddUser(s: State, email: Email): State {
    if email in s.db.users then s else s.(db := s.db.(users := s.db.users + [email]))
  }

  function AddTenant(s: State, slug: Slug): State {
    if slug in s.db.tenants then s
    else s.(db := s.db.(tenants := s.db.tenants + [slug],
                        subs := s.db.subs[|s.db.tenants| := Subscription(FREE, PlanToMaxUsers(FREE), None, None)]))
  }

  function FindCheckout(cs: seq<Checkout>, session: SessionId): (id: Option<CheckoutId>)
    ensures id.Some? ==> id.value < |cs| && cs[id.value].session == Some(session)
    ensures id.None? ==> forall i :: 0 <= i < |cs| ==> cs[i].session != Some(session)
  {
    if cs == [] then None
    else if cs[0].session == Some(session) then Some(0)
    else
      var rest := FindCheckout(cs[1..], session);
      if rest.Some? then Some(rest.value + 1) else None
  }

  /** A delivery arrives: the outer read. */
  function Receive(s: State, session: SessionId): State {
    match FindCheckout(s.db.checkouts, session)
    case None => s
    case Some(id) =>
      if s.db.checkouts[id].status == COMPLETED then s
      else s.(deliveries := s.deliveries + [Delivery(session, id, s.db.checkouts[id], Loaded)])
  }

  function At(s: State, d: DeliveryId, stage: Stage): State
    requires d < |s.deliveries|
  {
    s.(deliveries := s.deliveries[d := s.deliveries[d].(stage := stage)])
  }

  /** Another row has this customer: the unique constraint. */
  predicate CustomerUsed(db: Tables, t: TenantId, customer: Option<CustomerId>) {
    customer.Some? && exists o :: o in db.subs && o != t && db.subs[o].customer == customer
  }

  /** A plan change, an administrator's edit or a Stripe event rewrites a subscription. Only Stripe events
      touch the customer, and they find the row by its subscription id. */
  function ChangeSubscription(s: State, t: TenantId, plan: Plan, maxUsers: int, customer: Option<CustomerId>): State {
    if t !in s.db.subs then s
    else
      var sub := s.db.subs[t];
      var next := if sub.stripe.Some? then customer else sub.customer;
      if CustomerUsed(s.db, t, next) then s
      else s.(db := s.db.(subs := s.db.subs[t := Subscription(plan, maxUsers, sub.stripe, next)]))
  }

  /** The Stripe fetch, skipped when the session has no subscription. */
  function Retrieve(stripe: Stripe, s: State, d: DeliveryId, remote: Option<CustomerId>): State {
    if d < |s.deliveries| && s.deliveries[d].stage.Loaded? then
      At(s, d, Retrieved(if stripe.Subscription(s.deliveries[d].session).Some? then remote else None))
    else s
  }

  /** The transaction's second look at the checkout. */
  function Begin(s: State, d: DeliveryId): State {
    if d < |s.deliveries| && s.deliveries[d].stage.Retrieved? then
      var v := s.deliveries[d];
      if v.id < |s.db.checkouts| && s.db.checkouts[v.id].status == PENDING then At(s, d, Checked(v.stage.remote))
      else At(s, d, Finished)
    else s
  }

  function Slugs(db: Tables): set<Slug> { set i | 0 <= i < |db.tenants| :: db.tenants[i] }

  /** The transaction's look-up of the user and its search for a free slug. */
  ghost function LookUpNames(s: State, d: DeliveryId): State {
    if d < |s.deliveries| && s.deliveries[d].stage.Checked? then
      var v := s.deliveries[d];
      At(s, d, Planned(v.stage.remote, IndexOf(s.db.users, v.row.email), FreshNames.FreeSlug(v.row.slug, Slugs(s.db))))
    else s
  }

  /** The unique constraints on the email, the slug and the two Stripe ids. */
  predicate StripeIdsUsed(db: Tables, sub: Subscription) {
    || (sub.stripe.Some? && exists t :: t in db.subs && db.subs[t].stripe == sub.stripe)
    || (sub.customer.Some? && exists t :: t in db.subs && db.subs[t].customer == sub.customer)
  }

  predicate Violates(db: Tables, v: Delivery, sub: Subscription)
    requires v.stage.Planned?
  {
    || (v.stage.user.None? && v.row.email in db.users)
    || v.stage.slug in db.tenants
    || StripeIdsUsed(db, sub)
  }

  function NewSubscription(stripe: Stripe, v: Delivery, remote: Option<CustomerId>): Subscription {
    Subscription(v.row.plan, PlanToMaxUsers(v.row.plan), stripe.Subscription(v.session),
                 if remote.Some? then remote else stripe.Customer(v.session))
  }

  /** What the transaction writes. */
  function Written(db: Tables, v: Delivery, user: Option<UserId>, slug: Slug, sub: Subscription): Tables
    requires v.id < |db.checkouts|
  {
    var tenant := |db.tenants|;
    var userId := user.OrElse(|db.users|);
    var completed := db.checkouts[v.id].(status := COMPLETED, tenant := Some(tenant), slug := slug);
    db.(users := if user.None? then db.users + [v.row.email] else db.users,
        tenants := db.tenants + [slug],
        owners := db.owners + {Owner(userId, tenant)},
        subs := db.subs[tenant := sub],
        checkouts := db.checkouts[v.id := completed],
        audit := db.audit + [AuditRow(tenant, v.session)])
  }

  /** The commit: all the writes, or none when a unique constraint is violated. */
  ghost function Commit(stripe: Stripe, s: State, d: DeliveryId): State {
    if d < |s.deliveries| && s.deliveries[d].stage.Planned? && s.deliveries[d].id < |s.db.checkouts| then
      var v := s.deliveries[d];
      var sub := NewSubscription(stripe, v, v.stage.remote);
      if Violates(s.db, v, sub) then At(s, d, Finished)
      else At(s, d, Finished).(db := Written(s.db, v, v.stage.user, v.stage.slug, sub))
    else s
  }

  /** The whole transaction as one step. */
  ghost function Provision(stripe: Stripe, s: State, d: DeliveryId): State {
    Commit(stripe, LookUpNames(Begin(s, d), d), d)
  }

  datatype Step =
    | OpenCheckout(email: Email, slug: Slug, plan: Plan, session: SessionId)
    | OtherUser(email: Email)
    | OtherTenant(slug: Slug)
    | SubscriptionChanged(t: TenantId, plan: Plan, maxUsers: int, customer: Option<CustomerId>)
    | Deliver(session: SessionId)
    | Fetch(d: DeliveryId, remote: Option<CustomerId>)
    | Transaction(d: DeliveryId)
    | FirstLook(d: DeliveryId)
    | LookUp(d: DeliveryId)
    | WriteAll(d: DeliveryId)
  {
    /** A part of a transaction taken on its own. */
    predicate Partial() { FirstLook? || LookUp? || WriteAll? }
  }

  ghost function Next(stripe: Stripe, s: State, step: Step): State {
    match step
    case OpenCheckout(email, slug, plan, session) => Open(s, email, slug, plan, session)
    case OtherUser(email) => AddUser(s, email)
    case OtherTenant(slug) => AddTenant(s, slug)
    case SubscriptionChanged(t, plan, maxUsers, customer) => ChangeSubscription(s, t, plan, maxUsers, customer)
    case Deliver(session) => Receive(s, session)
    case Fetch(d, remote) => Retrieve(stripe, s, d, remote)
    case Transaction(d) => Provision(stripe, s, d)
    case FirstLook(d) => Begin(s, d)
    case LookUp(d) => LookUpNames(s, d)
    case WriteAll(d) => Commit(stripe, s, d)
  }

  ghost function Run(stripe: Stripe, trace: seq<Step>): State {
    if trace == [] then Empty else Next(stripe, Run(stripe, trace[..|trace| - 1]), trace[|trace| - 1])
  }

  // ---------------------------------------------------------------- the invariant

  ghost predicate Distinct<T(!new)>(s: seq<T>) {
    forall i, j :: 0 <= i < j < |s| ==> s[i] != s[j]
  }

  /** A completed checkout has its tenant, under its final slug, with the buyer as OWNER, a subscription,
      and the audit row of its session. */
  ghost predicate Provisioned(db: Tables, c: Checkout) {
    && c.session.Some? && c.tenant.Some? && c.tenant.value < |db.tenants|
    && db.tenants[c.tenant.value] == c.slug
    && AuditRow(c.tenant.value, c.session.value) in db.audit
    && c.tenant.value in db.subs
    && exists o :: o in db.owners && o.tenant == c.tenant.value && o.user < |db.users| && db.users[o.user] == c.email
  }

  /** Its subscription has the plan that was bought, with that plan's limit. */
  ghost predicate ShowsPlan(db: Tables, c: Checkout) {
    && c.tenant.Some? && c.tenant.value in db.subs
    && db.subs[c.tenant.value].plan == c.plan && db.subs[c.tenant.value].maxUsers == PlanToMaxUsers(c.plan)
  }

  ghost predicate SessionsDistinct(cs: seq<Checkout>) {
    forall i, j :: 0 <= i < j < |cs| && cs[i].session.Some? ==> cs[i].session != cs[j].session
  }

  ghost predicate StripeIdsDistinct(subs: map<TenantId, Subscription>) {
    && (forall a, b :: a in subs && b in subs && a != b && subs[a].stripe.Some? ==> subs[a].stripe != subs[b].stripe)
    && (forall a, b :: a in subs && b in subs && a != b && subs[a].customer.Some? ==>
          subs[a].customer != subs[b].customer)
  }

  /** The audit row's tenant carries the Stripe ids of the session. */
  ghost predicate Traced(stripe: Stripe, db: Tables, a: AuditRow) {
    && a.tenant < |db.tenants| && a.tenant in db.subs
    && db.subs[a.tenant].stripe == stripe.Subscription(a.session)
    && (stripe.Subscription(a.session).None? ==> db.subs[a.tenant].customer == stripe.Customer(a.session))
    && exists i :: 0 <= i < |db.checkouts| && db.checkouts[i].session == Some(a.session)
                   && db.checkouts[i].status == COMPLETED
  }

  ghost predicate GoodTables(stripe: Stripe, db: Tables) {
    && Distinct(db.users) && Distinct(db.tenants)
    && SessionsDistinct(db.checkouts)
    && (forall t :: t in db.subs ==> t < |db.tenants|)
    && StripeIdsDistinct(db.subs)
    && (forall i :: 0 <= i < |db.checkouts| && db.checkouts[i].status == COMPLETED ==> Provisioned(db, db.checkouts[i]))
    && (forall k :: 0 <= k < |db.audit| ==> Traced(stripe, db, db.audit[k]))
    && (forall k, l :: 0 <= k < l < |db.audit| ==> db.audit[k].tenant != db.audit[l].tenant)
  }

  ghost predicate GoodDelivery(stripe: Stripe, db: Tables, v: Delivery) {
    && v.id < |db.checkouts|
    && db.checkouts[v.id].session == Some(v.session)
    && db.checkouts[v.id].email == v.row.email && db.checkouts[v.id].plan == v.row.plan
    && (!v.stage.Loaded? && !v.stage.Finished? ==> stripe.Subscription(v.session).None? ==> v.stage.remote.None?)
    && (v.stage.Planned? && v.stage.user.Some? ==>
          v.stage.user.value < |db.users| && db.users[v.stage.user.value] == v.row.email)
  }

  ghost predicate Inv(stripe: Stripe, s: State) {
    && GoodTables(stripe, s.db)
    && forall d :: 0 <= d < |s.deliveries| ==> GoodDelivery(stripe, s.db, s.deliveries[d])
  }

  /** What every step does to the tables: rows are added, of a checkout only the status, tenant and slug
      may change, and a subscription keeps its Stripe id, and its customer when it has none. */
  ghost predicate Grows(db: Tables, db': Tables) {
    && db.users <= db'.users && db.tenants <= db'.tenants && db.owners <= db'.owners && db.audit <= db'.audit
    && (forall t :: t in db.subs ==>
          && t in db'.subs && db'.subs[t].stripe == db.subs[t].stripe
          && (db.subs[t].stripe.None? ==> db'.subs[t].customer == db.subs[t].customer))
    && |db.checkouts| <= |db'.checkouts|
    && forall i :: 0 <= i < |db.checkouts| ==>
         && db'.checkouts[i].session == db.checkouts[i].session
         && db'.checkouts[i].email == db.checkouts[i].email && db'.checkouts[i].plan == db.checkouts[i].plan
         && (db.checkouts[i].status == COMPLETED ==> db'.checkouts[i].status == COMPLETED)
  }

  lemma StillProvisioned(db: Tables, db': Tables, c: Checkout)
    requires Provisioned(db, c) && Grows(db, db')
    ensures Provisioned(db', c)
  {
    var o :| o in db.owners && o.tenant == c.tenant.value && o.user < |db.users| && db.users[o.user] == c.email;
    assert o in db'.owners && db'.users[o.user] == c.email;
    var k :| 0 <= k < |db.audit| && db.audit[k] == AuditRow(c.tenant.value, c.session.value);
    assert db'.audit[k] == AuditRow(c.tenant.value, c.session.value);
  }

  lemma StillTraced(stripe: Stripe, db: Tables, db': Tables, a: AuditRow)
    requires Traced(stripe, db, a) && Grows(db, db')
    ensures Traced(stripe, db', a)
  {
  }

  lemma StillGoodDelivery(stripe: Stripe, db: Tables, db': Tables, v: Delivery)
    requires GoodDelivery(stripe, db, v) && Grows(db, db')
    ensures GoodDelivery(stripe, db', v)
  {
  }

  /** Growing keeps everything said row by row; what is left is distinctness and the rows that are new. */
  lemma GrowingKeepsInv(stripe: Stripe, s: State, db': Tables)
    requires Inv(stripe, s) && Grows(s.db, db')
    requires Distinct(db'.users) && Distinct(db'.tenants) && SessionsDistinct(db'.checkouts)
    requires forall t :: t in db'.subs ==> t < |db'.tenants|
    requires StripeIdsDistinct(db'.subs)
    requires forall i :: 0 <= i < |db'.checkouts| && db'.checkouts[i].status == COMPLETED ==>
               (i < |s.db.checkouts| && db'.checkouts[i] == s.db.checkouts[i]) || Provisioned(db', db'.checkouts[i])
    requires forall k :: |s.db.audit| <= k < |db'.audit| ==> Traced(stripe, db', db'.audit[k])
    requires forall k, l :: 0 <= k < l < |db'.audit| && |s.db.audit| <= l ==> db'.audit[k].tenant != db'.audit[l].tenant
    ensures Inv(stripe, s.(db := db'))
  {
    forall i | 0 <= i < |db'.checkouts| && db'.checkouts[i].status == COMPLETED
      ensures Provisioned(db', db'.checkouts[i])
    {
      if i < |s.db.checkouts| && db'.checkouts[i] == s.db.checkouts[i] {
        StillProvisioned(s.db, db', s.db.checkouts[i]);
      }
    }
    forall k | 0 <= k < |db'.audit|
      ensures Traced(stripe, db', db'.audit[k])
    {
      if k < |s.db.audit| {
        StillTraced(stripe, s.db, db', s.db.audit[k]);
      }
    }
    forall d | 0 <= d < |s.deliveries|
      ensures GoodDelivery(stripe, db', s.deliveries[d])
    {
      StillGoodDelivery(stripe, s.db, db', s.deliveries[d]);
    }
  }

  lemma OpenKeepsInv(stripe: Stripe, s: State, email: Email, slug: Slug, plan: Plan, session: SessionId)
    requires Inv(stripe, s)
    ensures Inv(stripe, Open(s, email, slug, plan, session))
  {
    GrowingKeepsInv(stripe, s, Open(s, email, slug, plan, session).db);
  }

  lemma AddUserKeepsInv(stripe: Stripe, s: State, email: Email)
    requires Inv(stripe, s)
    ensures Inv(stripe, AddUser(s, email))
  {
    GrowingKeepsInv(stripe, s, AddUser(s, email).db);
  }

  lemma AddTenantKeepsInv(stripe: Stripe, s: State, slug: Slug)
    requires Inv(stripe, s)
    ensures Inv(stripe, AddTenant(s, slug))
  {
    GrowingKeepsInv(stripe, s, AddTenant(s, slug).db);
  }

  lemma ChangeKeepsInv(stripe: Stripe, s: State, t: TenantId, plan: Plan, maxUsers: int, customer: Option<CustomerId>)
    requires Inv(stripe, s)
    ensures Inv(stripe, ChangeSubscription(s, t, plan, maxUsers, customer))
  {
    GrowingKeepsInv(stripe, s, ChangeSubscription(s, t, plan, maxUsers, customer).db);
  }

  lemma ReceiveKeepsInv(stripe: Stripe, s: State, session: SessionId)
    requires Inv(stripe, s)
    ensures Inv(stripe, Receive(s, session))
  {
  }

  lemma RetrieveKeepsInv(stripe: Stripe, s: State, d: DeliveryId, remote: Option<CustomerId>)
    requires Inv(stripe, s)
    ensures Inv(stripe, Retrieve(stripe, s, d, remote))
  {
  }

  lemma BeginKeepsInv(stripe: Stripe, s: State, d: DeliveryId)
    requires Inv(stripe, s)
    ensures Inv(stripe, Begin(s, d))
  {
  }

  lemma LookUpKeepsInv(stripe: Stripe, s: State, d: DeliveryId)
    requires Inv(stripe, s)
    ensures Inv(stripe, LookUpNames(s, d))
  {
  }

  lemma FinishKeepsInv(stripe: Stripe, s: State, d: DeliveryId)
    requires Inv(stripe, s) && d < |s.deliveries|
    ensures Inv(stripe, At(s, d, Finished))
  {
  }

  /** The new tenant is complete and traced to its session. */
  lemma WrittenIsProvisioned(stripe: Stripe, db: Tables, v: Delivery)
    requires GoodDelivery(stripe, db, v) && v.stage.Planned? && GoodTables(stripe, db)
    ensures var sub := NewSubscription(stripe, v, v.stage.remote);
            var db' := Written(db, v, v.stage.user, v.stage.slug, sub);
            && Grows(db, db')
            && Provisioned(db', db'.checkouts[v.id]) && ShowsPlan(db', db'.checkouts[v.id])
            && db'.audit == db.audit + [AuditRow(|db.tenants|, v.session)]
            && Traced(stripe, db', AuditRow(|db.tenants|, v.session))
  {
    var sub := NewSubscription(stripe, v, v.stage.remote);
    var db' := Written(db, v, v.stage.user, v.stage.slug, sub);
    assert db'.audit[|db.audit|] == AuditRow(|db.tenants|, v.session);
    assert Owner(v.stage.user.OrElse(|db.users|), |db.tenants|) in db'.owners;
    assert db'.checkouts[v.id].session == Some(v.session);
  }

  /** A write that violates no constraint keeps everything distinct. */
  lemma WrittenIsDistinct(stripe: Stripe, db: Tables, v: Delivery, sub: Subscription)
    requires GoodTables(stripe, db) && v.stage.Planned? && v.id < |db.checkouts| && !Violates(db, v, sub)
    ensures var db' := Written(db, v, v.stage.user, v.stage.slug, sub);
            && Distinct(db'.users) && Distinct(db'.tenants) && SessionsDistinct(db'.checkouts)
            && StripeIdsDistinct(db'.subs)
            && (forall t :: t in db'.subs ==> t < |db'.tenants|)
            && (forall k, l :: 0 <= k < l < |db'.audit| && |db.audit| <= l ==>
                  db'.audit[k].tenant != db'.audit[l].tenant)
  {
    assert forall k :: 0 <= k < |db.audit| ==> Traced(stripe, db, db.audit[k]);
  }

  lemma CommitKeepsInv(stripe: Stripe, s: State, d: DeliveryId)
    requires Inv(stripe, s)
    ensures Inv(stripe, Commit(stripe, s, d))
  {
    if d < |s.deliveries| && s.deliveries[d].stage.Planned? {
      var v := s.deliveries[d];
      var sub := NewSubscription(stripe, v, v.stage.remote);
      FinishKeepsInv(stripe, s, d);
      if !Violates(s.db, v, sub) {
        WrittenIsProvisioned(stripe, s.db, v);
        WrittenIsDistinct(stripe, s.db, v, sub);
        GrowingKeepsInv(stripe, At(s, d, Finished), Written(s.db, v, v.stage.user, v.stage.slug, sub));
      }
    }
  }

  lemma ProvisionKeepsInv(stripe: Stripe, s: State, d: DeliveryId)
    requires Inv(stripe, s)
    ensures Inv(stripe, Provision(stripe, s, d))
  {
    BeginKeepsInv(stripe, s, d);
    LookUpKeepsInv(stripe, Begin(s, d), d);
    CommitKeepsInv(stripe, LookUpNames(Begin(s, d), d), d);
  }

  lemma StepKeepsInv(stripe: Stripe, s: State, step: Step)
    requires Inv(stripe, s)
    ensures Inv(stripe, Next(stripe, s, step))
  {
    match step {
      case OpenCheckout(email, slug, plan, session) => OpenKeepsInv(stripe, s, email, slug, plan, session);
      case OtherUser(email) => AddUserKeepsInv(stripe, s, email);
      case OtherTenant(slug) => AddTenantKeepsInv(stripe, s, slug);
      case SubscriptionChanged(t, plan, maxUsers, customer) => ChangeKeepsInv(stripe, s, t, plan, maxUsers, customer);
      case Deliver(session) => ReceiveKeepsInv(stripe, s, session);
      case Fetch(d, remote) => RetrieveKeepsInv(stripe, s, d, remote);
      case Transaction(d) => ProvisionKeepsInv(stripe, s, d);
      case FirstLook(d) => BeginKeepsInv(stripe, s, d);
      case LookUp(d) => LookUpKeepsInv(stripe, s, d);
      case WriteAll(d) => CommitKeepsInv(stripe, s, d);
    }
  }

  lemma {:induction false} RunKeepsInv(stripe: Stripe, trace: seq<Step>)
    ensures Inv(stripe, Run(stripe, trace))
  {
    if trace != [] {
      RunKeepsInv(stripe, trace[..|trace| - 1]);
      StepKeepsInv(stripe, Run(stripe, trace[..|trace| - 1]), trace[|trace| - 1]);
    }
  }

  // ---------------------------------------------------------------- what holds in every interleaving

  /** The checkout of a session that has an audit row is completed. */
  lemma AuditedIsCompleted(stripe: Stripe, db: Tables, k: nat, i: CheckoutId)
    requires GoodTables(stripe, db)
    requires k < |db.audit| && i < |db.checkouts| && db.checkouts[i].session == Some(db.audit[k].session)
    ensures db.checkouts[i].status == COMPLETED
  {
    assert Traced(stripe, db, db.audit[k]);
    var j :| 0 <= j < |db.checkouts| && db.checkouts[j].session == Some(db.audit[k].session)
             && db.checkouts[j].status == COMPLETED;
    assert j == i;
  }

  /** A tenant was created for the session. */
  ghost predicate Created(db: Tables, session: SessionId) {
    exists k :: 0 <= k < |db.audit| && db.audit[k].session == session
  }

  lemma CompletedIffCreated(stripe: Stripe, db: Tables, i: CheckoutId)
    requires GoodTables(stripe, db) && i < |db.checkouts| && db.checkouts[i].session.Some?
    ensures db.checkouts[i].status == COMPLETED <==> Created(db, db.checkouts[i].session.value)
  {
    if db.checkouts[i].status == COMPLETED {
      var c := db.checkouts[i];
      assert Provisioned(db, c);
      var k :| 0 <= k < |db.audit| && db.audit[k] == AuditRow(c.tenant.value, c.session.value);
    } else if k :| 0 <= k < |db.audit| && db.audit[k].session == db.checkouts[i].session.value {
      AuditedIsCompleted(stripe, db, k, i);
    }
  }

  /** No email gets two users, no two tenants share a slug, and a checkout is COMPLETED exactly when
      a tenant was created for its session, and then that tenant is all there. */
  lemma CompletedExactlyWhenProvisioned(stripe: Stripe, trace: seq<Step>)
    ensures var db := Run(stripe, trace).db;
            && Distinct(db.users) && Distinct(db.tenants)
            && forall i :: 0 <= i < |db.checkouts| && db.checkouts[i].session.Some? ==>
                 && (db.checkouts[i].status == COMPLETED <==> Created(db, db.checkouts[i].session.value))
                 && (db.checkouts[i].status == COMPLETED ==>
                       Provisioned(db, db.checkouts[i]) && CarriesStripeId(stripe, db, db.checkouts[i]))
  {
    RunKeepsInv(stripe, trace);
    var db := Run(stripe, trace).db;
    forall i | 0 <= i < |db.checkouts| && db.checkouts[i].session.Some?
      ensures db.checkouts[i].status == COMPLETED <==> Created(db, db.checkouts[i].session.value)
      ensures db.checkouts[i].status == COMPLETED ==> CarriesStripeId(stripe, db, db.checkouts[i])
    {
      CompletedIffCreated(stripe, db, i);
      if db.checkouts[i].status == COMPLETED {
        CompletedCarriesStripeId(stripe, db, db.checkouts[i]);
      }
    }
  }

  /** The tenant's subscription is the one Stripe put in the session. */
  ghost predicate CarriesStripeId(stripe: Stripe, db: Tables, c: Checkout) {
    && c.session.Some? && c.tenant.Some? && c.tenant.value in db.subs
    && db.subs[c.tenant.value].stripe == stripe.Subscription(c.session.value)
  }

  lemma CompletedCarriesStripeId(stripe: Stripe, db: Tables, c: Checkout)
    requires GoodTables(stripe, db) && Provisioned(db, c)
    ensures CarriesStripeId(stripe, db, c)
  {
    var k :| 0 <= k < |db.audit| && db.audit[k] == AuditRow(c.tenant.value, c.session.value);
    assert Traced(stripe, db, db.audit[k]);
  }

  /** A completed checkout shows the plan that was bought until somebody changes the subscription of its
      tenant. */
  lemma {:induction false} PlanUntilChanged(stripe: Stripe, trace: seq<Step>, i: CheckoutId)
    requires i < |Run(stripe, trace).db.checkouts| && Run(stripe, trace).db.checkouts[i].status == COMPLETED
    requires forall k :: 0 <= k < |trace| && trace[k].SubscriptionChanged? ==>
               Some(trace[k].t) != Run(stripe, trace).db.checkouts[i].tenant
    ensures ShowsPlan(Run(stripe, trace).db, Run(stripe, trace).db.checkouts[i])
  {
    if trace != [] {
      var earlier, step := trace[..|trace| - 1], trace[|trace| - 1];
      var s, s' := Run(stripe, earlier), Run(stripe, trace);
      RunKeepsInv(stripe, earlier);
      StepShowsPlan(stripe, s, step, i);
      if i < |s.db.checkouts| && s'.db.checkouts[i] == s.db.checkouts[i] {
        PlanUntilChanged(stripe, earlier, i);
      }
    }
  }

  // ---------------------------------------------------------------- the customer

  /** Somewhere in the trace a delivery of the session fetched this from Stripe. */
  ghost predicate Fetched(stripe: Stripe, trace: seq<Step>, session: SessionId, remote: Option<CustomerId>) {
    exists k :: 0 <= k < |trace| && FetchedAt(Run(stripe, trace[..k]), trace[k], session, remote)
  }

  ghost predicate FetchedAt(s: State, step: Step, session: SessionId, remote: Option<CustomerId>) {
    && step.Fetch? && step.remote == remote
    && step.d < |s.deliveries| && s.deliveries[step.d].session == session && s.deliveries[step.d].stage.Loaded?
  }

  lemma StillFetched(stripe: Stripe, trace: seq<Step>, step: Step, session: SessionId, remote: Option<CustomerId>)
    requires Fetched(stripe, trace, session, remote) || FetchedAt(Run(stripe, trace), step, session, remote)
    ensures Fetched(stripe, trace + [step], session, remote)
  {
    var longer := trace + [step];
    if k :| 0 <= k < |trace| && FetchedAt(Run(stripe, trace[..k]), trace[k], session, remote) {
      assert longer[..k] == trace[..k] && longer[k] == trace[k];
    } else {
      assert longer[..|trace|] == trace && longer[|trace|] == step;
    }
  }

  predicate Fetching(stage: Stage) { stage.Retrieved? || stage.Checked? || stage.Planned? }

  /** A subscription that was not changed has the customer named by the subscription a delivery of the
      session fetched, or else the session's. */
  ghost predicate ShowsCustomer(stripe: Stripe, trace: seq<Step>, db: Tables, c: Checkout) {
    && c.tenant.Some? && c.tenant.value in db.subs && c.session.Some?
    && CustomerFrom(stripe, trace, c.session.value, db.subs[c.tenant.value].customer)
  }

  ghost predicate CustomerFrom(stripe: Stripe, trace: seq<Step>, session: SessionId, customer: Option<CustomerId>) {
    if session in stripe.subscriptionOf then
      exists remote :: Fetched(stripe, trace, session, remote)
                       && customer == if remote.Some? then remote else stripe.Customer(session)
    else customer == stripe.Customer(session)
  }

  lemma StillFrom(stripe: Stripe, trace: seq<Step>, step: Step, session: SessionId, customer: Option<CustomerId>)
    requires CustomerFrom(stripe, trace, session, customer)
    ensures CustomerFrom(stripe, trace + [step], session, customer)
  {
    if session in stripe.subscriptionOf {
      var remote :| Fetched(stripe, trace, session, remote)
                    && customer == if remote.Some? then remote else stripe.Customer(session);
      StillFetched(stripe, trace, step, session, remote);
    }
  }

  /** What a delivery carries it fetched itself, or it fetched nothing. */
  ghost predicate Carries(stripe: Stripe, trace: seq<Step>, v: Delivery) {
    Fetching(v.stage) ==>
      if v.session in stripe.subscriptionOf then Fetched(stripe, trace, v.session, v.stage.remote)
      else v.stage.remote.None?
  }

  lemma {:induction false} DeliveriesCarry(stripe: Stripe, trace: seq<Step>, d: DeliveryId)
    requires d < |Run(stripe, trace).deliveries|
    ensures Carries(stripe, trace, Run(stripe, trace).deliveries[d])
  {
    if trace != [] {
      var earlier, step := trace[..|trace| - 1], trace[|trace| - 1];
      var s := Run(stripe, earlier);
      assert trace == earlier + [step];
      StepCarries(stripe, s, step, d);
      if d < |s.deliveries| {
        DeliveriesCarry(stripe, earlier, d);
        var v, v' := s.deliveries[d], Run(stripe, trace).deliveries[d];
        if Fetching(v'.stage) && v'.session in stripe.subscriptionOf {
          StillFetched(stripe, earlier, step, v'.session, v'.stage.remote);
        }
      }
    }
  }

  /** One step: a delivery keeps its session and what it carries; only its own fetch gives it something. */
  lemma StepCarries(stripe: Stripe, s: State, step: Step, d: DeliveryId)
    requires d < |Next(stripe, s, step).deliveries|
    ensures var v' := Next(stripe, s, step).deliveries[d];
            if d >= |s.deliveries| then !Fetching(v'.stage)
            else
              && v'.session == s.deliveries[d].session
              && (Fetching(v'.stage) ==>
                    || (Fetching(s.deliveries[d].stage) && v'.stage.remote == s.deliveries[d].stage.remote)
                    || (if v'.session in stripe.subscriptionOf then FetchedAt(s, step, v'.session, v'.stage.remote)
                        else v'.stage.remote.None?))
  {
  }

  /** In every run, however deliveries interleave, the tenant of a completed checkout has that customer until
      somebody changes its subscription. */
  lemma {:induction false} CustomerUntilChanged(stripe: Stripe, trace: seq<Step>, i: CheckoutId)
    requires i < |Run(stripe, trace).db.checkouts| && Run(stripe, trace).db.checkouts[i].status == COMPLETED
    requires forall k :: 0 <= k < |trace| && trace[k].SubscriptionChanged? ==>
               Some(trace[k].t) != Run(stripe, trace).db.checkouts[i].tenant
    ensures ShowsCustomer(stripe, trace, Run(stripe, trace).db, Run(stripe, trace).db.checkouts[i])
  {
    if trace != [] {
      var earlier, step := trace[..|trace| - 1], trace[|trace| - 1];
      var s, s' := Run(stripe, earlier), Run(stripe, trace);
      var c := s'.db.checkouts[i];
      assert trace == earlier + [step];
      RunKeepsInv(stripe, earlier);
      StepSetsCustomer(stripe, s, step, i);
      if i < |s.db.checkouts| && s.db.checkouts[i] == c && !Writes(stripe, s, step, i) {
        CustomerUntilChanged(stripe, earlier, i);
        StillFrom(stripe, earlier, step, c.session.value, s.db.subs[c.tenant.value].customer);
      } else {
        DeliveriesCarry(stripe, earlier, step.d);
        CarriedCustomer(stripe, earlier, s.deliveries[step.d]);
        StillFrom(stripe, earlier, step, c.session.value, s'.db.subs[c.tenant.value].customer);
      }
    }
  }

  /** The customer a delivery brings to a new subscription. */
  function Brought(stripe: Stripe, v: Delivery): Option<CustomerId>
    requires Fetching(v.stage)
  {
    if v.stage.remote.Some? then v.stage.remote else stripe.Customer(v.session)
  }

  lemma CarriedCustomer(stripe: Stripe, trace: seq<Step>, v: Delivery)
    requires Fetching(v.stage) && Carries(stripe, trace, v)
    ensures CustomerFrom(stripe, trace, v.session, Brought(stripe, v))
  {
  }

  /** The step completes the checkout. */
  ghost predicate Writes(stripe: Stripe, s: State, step: Step, i: CheckoutId) {
    && (step.Transaction? || step.WriteAll?) && step.d < |s.deliveries| && s.deliveries[step.d].id == i
    && Next(stripe, s, step).db != s.db
  }

  lemma StepSetsCustomer(stripe: Stripe, s: State, step: Step, i: CheckoutId)
    requires Inv(stripe, s)
    requires i < |Next(stripe, s, step).db.checkouts| && Next(stripe, s, step).db.checkouts[i].status == COMPLETED
    ensures var (c, db') := (Next(stripe, s, step).db.checkouts[i], Next(stripe, s, step).db);
            if Writes(stripe, s, step, i) then
              && Fetching(s.deliveries[step.d].stage) && c.session == Some(s.deliveries[step.d].session)
              && c.tenant.Some? && c.tenant.value in db'.subs
              && db'.subs[c.tenant.value].customer == Brought(stripe, s.deliveries[step.d])
            else
              && i < |s.db.checkouts| && s.db.checkouts[i] == c && c.tenant.Some? && c.tenant.value in s.db.subs
              && (!(step.SubscriptionChanged? && Some(step.t) == c.tenant) ==>
                    c.tenant.value in db'.subs && db'.subs[c.tenant.value] == s.db.subs[c.tenant.value])
  {
    if step.Transaction? {
      var s2 := LookUpNames(Begin(s, step.d), step.d);
      BeginKeepsInv(stripe, s, step.d);
      LookUpKeepsInv(stripe, Begin(s, step.d), step.d);
      assert s2.db == s.db;
      CommitSetsCustomer(stripe, s2, step.d, i);
    } else if step.WriteAll? {
      CommitSetsCustomer(stripe, s, step.d, i);
    } else {
      OtherStepsComplete(stripe, s, step, i);
      assert Provisioned(s.db, s.db.checkouts[i]);
    }
  }

  lemma CommitSetsCustomer(stripe: Stripe, s: State, d: DeliveryId, i: CheckoutId)
    requires Inv(stripe, s)
    requires i < |s.db.checkouts| && Commit(stripe, s, d).db.checkouts[i].status == COMPLETED
    ensures var (c, db') := (Commit(stripe, s, d).db.checkouts[i], Commit(stripe, s, d).db);
            if db' != s.db && s.deliveries[d].id == i then
              && s.deliveries[d].stage.Planned? && c.session == Some(s.deliveries[d].session)
              && c.tenant.Some? && c.tenant.value in db'.subs
              && db'.subs[c.tenant.value].customer == Brought(stripe, s.deliveries[d])
            else
              && s.db.checkouts[i] == c && c.tenant.Some? && c.tenant.value in s.db.subs
              && c.tenant.value in db'.subs && db'.subs[c.tenant.value] == s.db.subs[c.tenant.value]
  {
    if s.db.checkouts[i].status == COMPLETED {
      assert Provisioned(s.db, s.db.checkouts[i]);
    }
  }

  /** A step that completes a checkout shows its plan; one that does not leaves its tenant's subscription
      as it was, unless it is a change of that. */
  lemma StepShowsPlan(stripe: Stripe, s: State, step: Step, i: CheckoutId)
    requires Inv(stripe, s)
    requires i < |Next(stripe, s, step).db.checkouts| && Next(stripe, s, step).db.checkouts[i].status == COMPLETED
    ensures var (c, db') := (Next(stripe, s, step).db.checkouts[i], Next(stripe, s, step).db);
            || ShowsPlan(db', c)
            || (i < |s.db.checkouts| && s.db.checkouts[i] == c
                && (ShowsPlan(s.db, c) && !(step.SubscriptionChanged? && Some(step.t) == c.tenant) ==>
                      ShowsPlan(db', c)))
  {
    if step.Transaction? {
      var s2 := LookUpNames(Begin(s, step.d), step.d);
      BeginKeepsInv(stripe, s, step.d);
      LookUpKeepsInv(stripe, Begin(s, step.d), step.d);
      assert s2.db == s.db;
      CommitShowsPlan(stripe, s2, step.d, i);
    } else if step.WriteAll? {
      CommitShowsPlan(stripe, s, step.d, i);
    } else {
      OtherStepsComplete(stripe, s, step, i);
    }
  }

  /** No other step completes a checkout or changes a subscription. */
  lemma OtherStepsComplete(stripe: Stripe, s: State, step: Step, i: CheckoutId)
    requires !step.Transaction? && !step.WriteAll?
    requires forall t :: t in s.db.subs ==> t < |s.db.tenants|
    requires i < |Next(stripe, s, step).db.checkouts| && Next(stripe, s, step).db.checkouts[i].status == COMPLETED
    ensures var db' := Next(stripe, s, step).db;
            && i < |s.db.checkouts| && db'.checkouts[i] == s.db.checkouts[i]
            && forall t :: t in s.db.subs && !(step.SubscriptionChanged? && step.t == t) ==>
                 t in db'.subs && db'.subs[t] == s.db.subs[t]
  {
  }

  lemma CommitShowsPlan(stripe: Stripe, s: State, d: DeliveryId, i: CheckoutId)
    requires Inv(stripe, s)
    requires i < |s.db.checkouts| && Commit(stripe, s, d).db.checkouts[i].status == COMPLETED
    ensures var (c, db') := (Commit(stripe, s, d).db.checkouts[i], Commit(stripe, s, d).db);
            ShowsPlan(db', c) || (s.db.checkouts[i] == c && (ShowsPlan(s.db, c) ==> ShowsPlan(db', c)))
  {
    if d < |s.deliveries| && s.deliveries[d].stage.Planned? {
      WrittenIsProvisioned(stripe, s.db, s.deliveries[d]);
    }
  }

  /** At most one tenant was created for the session. */
  ghost predicate AtMostOnce(db: Tables, session: SessionId) {
    forall k, l :: 0 <= k < l < |db.audit| ==> !(db.audit[k].session == session == db.audit[l].session)
  }

  /** No delivery is inside its transaction. */
  ghost predicate BetweenTransactions(s: State) {
    forall d :: 0 <= d < |s.deliveries| ==> !s.deliveries[d].stage.Checked? && !s.deliveries[d].stage.Planned?
  }

  lemma WholeStep(stripe: Stripe, s: State, step: Step, session: SessionId)
    requires Inv(stripe, s) && BetweenTransactions(s) && AtMostOnce(s.db, session) && !step.Partial()
    ensures BetweenTransactions(Next(stripe, s, step)) && AtMostOnce(Next(stripe, s, step).db, session)
  {
    if step.Transaction? {
      TransactionIsOnce(stripe, s, step.d, session);
    }
  }

  /** With the transaction as one step, however deliveries repeat and interleave, a checkout creates
      at most one tenant. */
  lemma {:induction false} AtomicProvisioningIsOnce(stripe: Stripe, trace: seq<Step>, session: SessionId)
    requires forall i :: 0 <= i < |trace| ==> !trace[i].Partial()
    ensures AtMostOnce(Run(stripe, trace).db, session)
    ensures BetweenTransactions(Run(stripe, trace))
  {
    if trace != [] {
      var earlier, step := trace[..|trace| - 1], trace[|trace| - 1];
      AtomicProvisioningIsOnce(stripe, earlier, session);
      RunKeepsInv(stripe, earlier);
      WholeStep(stripe, Run(stripe, earlier), step, session);
    }
  }

  /** A transaction changes nothing, or it found its checkout pending and adds one audit row for it. */
  lemma TransactionAudits(stripe: Stripe, s: State, d: DeliveryId)
    requires BetweenTransactions(s)
    ensures var s' := Provision(stripe, s, d);
            && BetweenTransactions(s')
            && (s'.db == s.db
                || (&& d < |s.deliveries| && s.deliveries[d].id < |s.db.checkouts|
                    && s.db.checkouts[s.deliveries[d].id].status == PENDING
                    && s'.db.audit == s.db.audit + [AuditRow(|s.db.tenants|, s.deliveries[d].session)]))
  {
    var s2 := LookUpNames(Begin(s, d), d);
    assert s2.db == s.db;
  }

  lemma TransactionIsOnce(stripe: Stripe, s: State, d: DeliveryId, session: SessionId)
    requires Inv(stripe, s) && AtMostOnce(s.db, session)
    requires BetweenTransactions(s)
    ensures AtMostOnce(Provision(stripe, s, d).db, session)
    ensures BetweenTransactions(Provision(stripe, s, d))
  {
    TransactionAudits(stripe, s, d);
    var db' := Provision(stripe, s, d).db;
    if db' != s.db {
      NotYetAudited(stripe, s, d);
      NewSessionAudited(s.db, db', AuditRow(|s.db.tenants|, s.deliveries[d].session), session);
    }
  }

  lemma NotYetAudited(stripe: Stripe, s: State, d: DeliveryId)
    requires Inv(stripe, s) && d < |s.deliveries| && s.deliveries[d].id < |s.db.checkouts|
    requires s.db.checkouts[s.deliveries[d].id].status == PENDING
    ensures forall k :: 0 <= k < |s.db.audit| ==> s.db.audit[k].session != s.deliveries[d].session
  {
    forall k | 0 <= k < |s.db.audit|
      ensures s.db.audit[k].session != s.deliveries[d].session
    {
      if s.db.audit[k].session == s.deliveries[d].session {
        AuditedIsCompleted(stripe, s.db, k, s.deliveries[d].id);
      }
    }
  }

  lemma NewSessionAudited(db: Tables, db': Tables, row: AuditRow, session: SessionId)
    requires AtMostOnce(db, session) && db'.audit == db.audit + [row]
    requires forall k :: 0 <= k < |db.audit| ==> db.audit[k].session != row.session
    ensures AtMostOnce(db', session)
  {
  }

  /** Even when transactions interleave, the unique Stripe ids allow one tenant per session that
      carries one. */
  lemma StripeIdsAllowOne(stripe: Stripe, trace: seq<Step>, session: SessionId)
    requires stripe.Subscription(session).Some? || stripe.Customer(session).Some?
    ensures AtMostOnce(Run(stripe, trace).db, session)
  {
    RunKeepsInv(stripe, trace);
    var db := Run(stripe, trace).db;
    forall k, l | 0 <= k < l < |db.audit|
      ensures !(db.audit[k].session == session == db.audit[l].session)
    {
      assert Traced(stripe, db, db.audit[k]) && Traced(stripe, db, db.audit[l]);
    }
  }

  lemma RunSnoc(stripe: Stripe, trace: seq<Step>, step: Step)
    ensures Run(stripe, trace + [step]) == Next(stripe, Run(stripe, trace), step)
  {
    assert (trace + [step])[..|trace|] == trace;
  }

  function Row(session: SessionId): Checkout {
    Checkout("buyer", "acme", PRO, Some(session), PENDING, None)
  }

  function TwoAt(session: SessionId, stage: Stage, stage': Stage): State {
    State(Empty.db.(checkouts := [Row(session)]),
          [Delivery(session, 0, Row(session), stage), Delivery(session, 0, Row(session), stage')])
  }

  function Opened(session: SessionId): State {
    State(Empty.db.(checkouts := [Row(session)]), [])
  }

  lemma ReceivedTwice(session: SessionId)
    ensures Receive(Receive(Opened(session), session), session) == TwoAt(session, Loaded, Loaded)
  {
    var delivered := Receive(Opened(session), session);
    assert delivered == Opened(session).(deliveries := [Delivery(session, 0, Row(session), Loaded)]);
  }

  lemma BothLoaded(stripe: Stripe, session: SessionId) returns (trace: seq<Step>)
    ensures Run(stripe, trace) == TwoAt(session, Loaded, Loaded)
  {
    var open, deliver := OpenCheckout("buyer", "acme", PRO, session), Deliver(session);
    var first := Opened(session);
    RunSnoc(stripe, [], open);
    trace := [] + [open];
    assert Run(stripe, trace) == first;
    RunSnoc(stripe, trace, deliver);
    trace := trace + [deliver];
    assert Run(stripe, trace) == Receive(first, session);
    RunSnoc(stripe, trace, deliver);
    trace := trace + [deliver];
    assert Run(stripe, trace) == Receive(Receive(first, session), session);
    ReceivedTwice(session);
  }

  lemma BothChecked(stripe: Stripe, session: SessionId) returns (trace: seq<Step>)
    requires stripe.Subscription(session).None?
    ensures Run(stripe, trace) == TwoAt(session, Checked(None), Checked(None))
  {
    trace := BothLoaded(stripe, session);
    RunSnoc(stripe, trace, Fetch(0, None));
    trace := trace + [Fetch(0, None)];
    assert Run(stripe, trace) == TwoAt(session, Retrieved(None), Loaded);
    RunSnoc(stripe, trace, Fetch(1, None));
    trace := trace + [Fetch(1, None)];
    assert Run(stripe, trace) == TwoAt(session, Retrieved(None), Retrieved(None));
    RunSnoc(stripe, trace, FirstLook(0));
    trace := trace + [FirstLook(0)];
    assert Run(stripe, trace) == TwoAt(session, Checked(None), Retrieved(None));
    RunSnoc(stripe, trace, FirstLook(1));
    trace := trace + [FirstLook(1)];
  }

  /** Two deliveries of one event, both past their second look before either commits. */
  lemma TwoTenantsForOneSession(stripe: Stripe, session: SessionId) returns (trace: seq<Step>)
    requires stripe.Subscription(session).None? && stripe.Customer(session).None?
    ensures !AtMostOnce(Run(stripe, trace).db, session)
  {
    trace := BothChecked(stripe, session);
    var s7 := Run(stripe, trace);
    RunSnoc(stripe, trace, LookUp(0));
    var s8 := Next(stripe, s7, LookUp(0));
    RunSnoc(stripe, trace + [LookUp(0)], WriteAll(0));
    var s9 := Next(stripe, s8, WriteAll(0));
    assert s9.db.audit == [AuditRow(0, session)];
    trace := trace + [LookUp(0)] + [WriteAll(0)];
    RunSnoc(stripe, trace, LookUp(1));
    var s10 := Next(stripe, s9, LookUp(1));
    RunSnoc(stripe, trace + [LookUp(1)], WriteAll(1));
    var s11 := Next(stripe, s10, WriteAll(1));
    trace := trace + [LookUp(1)] + [WriteAll(1)];
    assert s11.db.audit == [AuditRow(0, session), AuditRow(1, session)];
    assert s11.db.audit[0].session == session == s11.db.audit[1].session;
  }

  ghost predicate AlwaysOnce(stripe: Stripe, session: SessionId) {
    forall trace :: AtMostOnce(Run(stripe, trace).db, session)
  }

  /** Exactly when interleaved transactions keep to one tenant: when Stripe put a subscription or a
      customer in the session. */
  lemma InterleavedProvisioningIsOnce(stripe: Stripe, session: SessionId)
    ensures AlwaysOnce(stripe, session) <==> stripe.Subscription(session).Some? || stripe.Customer(session).Some?
  {
    if stripe.Subscription(session).Some? || stripe.Customer(session).Some? {
      forall trace
        ensures AtMostOnce(Run(stripe, trace).db, session)
      {
        StripeIdsAllowOne(stripe, trace, session);
      }
    } else {
      var trace := TwoTenantsForOneSession(stripe, session);
    }
  }

  /** The transaction when nothing runs in between. */
  ghost function Outcome(stripe: Stripe, s: State, d: DeliveryId): State
    requires d < |s.deliveries| && s.deliveries[d].stage.Retrieved? && s.deliveries[d].id < |s.db.checkouts|
  {
    var v := s.deliveries[d];
    var sub := NewSubscription(stripe, v, v.stage.remote);
    if s.db.checkouts[v.id].status == COMPLETED || StripeIdsUsed(s.db, sub) then At(s, d, Finished)
    else At(s, d, Finished).(db := Written(s.db, v, IndexOf(s.db.users, v.row.email),
                                           FreshNames.FreeSlug(v.row.slug, Slugs(s.db)), sub))
  }

  /** As one step, neither the email nor the slug can stand in the transaction's way. */
  lemma ProvisionIsOutcome(stripe: Stripe, s: State, d: DeliveryId)
    requires Inv(stripe, s) && d < |s.deliveries| && s.deliveries[d].stage.Retrieved?
    ensures Provision(stripe, s, d) == Outcome(stripe, s, d)
  {
    assert forall slug :: slug in s.db.tenants ==> slug in Slugs(s.db);
    var s1 := Begin(s, d);
    if s.db.checkouts[s.deliveries[d].id].status == PENDING {
      var s2 := LookUpNames(s1, d);
      assert s2.db == s.db;
      assert At(s2, d, Finished).deliveries == At(s, d, Finished).deliveries;
    }
  }

  lemma OutcomeKeepsInv(stripe: Stripe, s: State, d: DeliveryId)
    requires Inv(stripe, s) && d < |s.deliveries| && s.deliveries[d].stage.Retrieved?
    ensures Inv(stripe, Outcome(stripe, s, d))
  {
    ProvisionKeepsInv(stripe, s, d);
    ProvisionIsOutcome(stripe, s, d);
  }

  /** A delivery is not lost: when its transaction finds the checkout pending and the Stripe ids
      unused, the checkout is completed by it. */
  lemma PendingIsProvisioned(stripe: Stripe, s: State, d: DeliveryId)
    requires Inv(stripe, s) && d < |s.deliveries| && s.deliveries[d].stage.Retrieved?
    requires s.db.checkouts[s.deliveries[d].id].status == PENDING
    requires !StripeIdsUsed(s.db, NewSubscription(stripe, s.deliveries[d], s.deliveries[d].stage.remote))
    ensures var (db', c) := (Provision(stripe, s, d).db, Provision(stripe, s, d).db.checkouts[s.deliveries[d].id]);
            && c.status == COMPLETED && Provisioned(db', c) && ShowsPlan(db', c) && CarriesStripeId(stripe, db', c)
            && db'.subs[c.tenant.value].customer == Brought(stripe, s.deliveries[d])
  {
    var db' := Provision(stripe, s, d).db;
    ProvisionIsOutcome(stripe, s, d);
    OutcomeKeepsInv(stripe, s, d);
    CompletedCarriesStripeId(stripe, db', db'.checkouts[s.deliveries[d].id]);
  }

  // ---------------------------------------------------------------- the service

  class CheckoutService {
    const stripe: Stripe
    var db: Tables
    var deliveries: seq<Delivery>

    ghost function Current(): State
      reads this
    {
      State(db, deliveries)
    }

    constructor (stripe: Stripe)
      ensures this.stripe == stripe && Current() == Empty && Inv(stripe, Current())
    {
      this.stripe := stripe;
      db := Empty.db;
      deliveries := [];
    }

    /** The outer read of a delivery. */
    method ReceiveEvent(session: SessionId)
      modifies this
      ensures db == old(db)
      ensures (forall i :: 0 <= i < |db.checkouts| && db.checkouts[i].session == Some(session) ==>
                 db.checkouts[i].status == COMPLETED) ==> deliveries == old(deliveries)
      ensures || deliveries == old(deliveries)
              || (exists i :: && 0 <= i < |db.checkouts| && db.checkouts[i].session == Some(session)
                              && db.checkouts[i].status == PENDING
                              && deliveries == old(deliveries) + [Delivery(session, i, db.checkouts[i], Loaded)])
      ensures SessionsDistinct(db.checkouts) && deliveries == old(deliveries) ==>
                forall i :: 0 <= i < |db.checkouts| && db.checkouts[i].session == Some(session) ==>
                  db.checkouts[i].status == COMPLETED
      ensures Current() == Receive(old(Current()), session)
    {
      var id := FindCheckout(db.checkouts, session);
      if id.None? {
        return;
      }
      var pending := db.checkouts[id.value];
      if pending.status == COMPLETED {
        return;
      }
      deliveries := deliveries + [Delivery(session, id.value, pending, Loaded)];
    }

    /** The transaction of a delivery. It ends without a trace when a unique constraint is violated. */
    method Transact(d: DeliveryId) returns (created: Option<TenantId>)
      requires Inv(stripe, Current())
      requires d < |deliveries| && deliveries[d].stage.Retrieved?
      modifies this
      ensures Current() == Outcome(stripe, old(Current()), d)
      ensures Inv(stripe, Current())
      ensures created == if |db.tenants| == |old(db.tenants)| then None else Some(|old(db.tenants)|)
    {
      OutcomeKeepsInv(stripe, Current(), d);
      var v := deliveries[d];
      deliveries := deliveries[d := v.(stage := Finished)];
      var again := db.checkouts[v.id];
      if again.status == COMPLETED {
        return None;
      }
      var user := IndexOf(db.users, v.row.email);
      var users, userId := db.users, 0;
      if user.Some? {
        userId := user.value;
      } else {
        userId, users := |users|, users + [v.row.email];
      }
      var slug, _ := FreshNames.FindSlug(v.row.slug, Slugs(db));
      var tenant := |db.tenants|;
      var customer := if v.stage.remote.Some? then v.stage.remote else stripe.Customer(v.session);
      var sub := Subscription(v.row.plan, PlanToMaxUsers(v.row.plan), stripe.Subscription(v.session), customer);
      if StripeIdsUsed(db, sub) {
        return None;
      }
      var completed := again.(status := COMPLETED, tenant := Some(tenant), slug := slug);
      db := Tables(users, db.tenants + [slug], db.owners + {Owner(userId, tenant)}, db.subs[tenant := sub],
                   db.checkouts[v.id := completed], db.audit + [AuditRow(tenant, v.session)]);
      return Some(tenant);
    }
  }
}
