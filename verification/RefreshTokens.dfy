/**
 Refresh-token rotation with families and reuse detection (section 4.14 of RFC 9700).

 Rows are kept in creation order and a row's id is its position: ids and token hashes are
 random in the original, so all that matters is that each is new. A presented token is the id of
 the row its hash finds, or an id beyond the table when the hash is unknown. Family ids are
 drawn fresh in the same way.
 */
module RefreshTokens {
  import opened Options
  import opened Memberships

  type TokenId = nat
  type FamilyId = nat
  type Time = int

  datatype Row = Row(user: UserId, tenant: TenantId, member: MemberId, family: FamilyId,
                     expiresAt: Time, revokedAt: Option<Time>, replacedBy: Option<TokenId>)
  {
    function Holder(): Key { Key(user, tenant) }
    predicate Live() { revokedAt.None? }
  }

  datatype State = State(rows: seq<Row>, families: nat, members: Table, memberIds: nat)

  /** What a request reads beside these tables: the clock (ms), the token lifetime (s), and the
      user, tenant and subscription rows, which other services may change at any time. */
  datatype Env = Env(now: Time, ttlSeconds: nat, activeUsers: set<UserId>,
                     activeTenants: set<TenantId>, unpaid: set<TenantId>)
  {
    predicate Admits(key: Key) {
      key.user in activeUsers && key.tenant in activeTenants && key.tenant !in unpaid
    }
  }

  // ---------------------------------------------------------------- the operations, on values

  function NewRow(env: Env, key: Key, member: MemberId, family: FamilyId): Row {
    Row(key.user, key.tenant, member, family, (env.now / 1000 + env.ttlSeconds) * 1000, None, None)
  }

  /** issueTokens without a family: a family of its own. */
  function Issued(s: State, env: Env, key: Key, member: MemberId): State {
    s.(rows := s.rows + [NewRow(env, key, member, s.families)], families := s.families + 1)
  }

  function FamilyRevoked(rows: seq<Row>, family: FamilyId, now: Time): seq<Row> {
    seq(|rows|, i requires 0 <= i < |rows| =>
      if rows[i].family == family && rows[i].Live() then rows[i].(revokedAt := Some(now)) else rows[i])
  }

  function HolderRevoked(rows: seq<Row>, key: Key, now: Time): seq<Row> {
    seq(|rows|, i requires 0 <= i < |rows| =>
      if rows[i].Holder() == key && rows[i].Live() then rows[i].(revokedAt := Some(now)) else rows[i])
  }

  datatype RefreshOutcome =
    | Unknown
    | Mismatch
    | Reuse
    | Expired
    | UserInactive
    | TenantUnavailable
    | NotEntitled
    | NoMembership
    | Rotated
  {
    predicate KillsFamily() { Mismatch? || Reuse? || NoMembership? }
  }

  function JudgeRefresh(s: State, env: Env, token: TokenId, sub: UserId, tid: TenantId): (o: RefreshOutcome)
    ensures !o.Unknown? ==> token < |s.rows|
    ensures o.Rotated? ==> s.rows[token].Live() && s.rows[token].Holder() in s.members
  {
    if token >= |s.rows| then Unknown
    else
      var row := s.rows[token];
      if row.tenant != tid || row.user != sub then Mismatch
      else if !row.Live() then Reuse
      else if row.expiresAt < env.now then Expired
      else if row.user !in env.activeUsers then UserInactive
      else if row.tenant !in env.activeTenants then TenantUnavailable
      else if row.tenant in env.unpaid then NotEntitled
      else if row.Holder() !in s.members then NoMembership
      else Rotated
  }

  /** The table after rotating `token`: a successor in the same family, and the old row closed. */
  function Rotation(s: State, env: Env, token: TokenId): State
    requires token < |s.rows| && s.rows[token].Holder() in s.members
  {
    var row := s.rows[token];
    var closed := row.(revokedAt := Some(env.now), replacedBy := Some(|s.rows|));
    var successor := NewRow(env, row.Holder(), s.members[row.Holder()].id, row.family);
    s.(rows := s.rows[token := closed] + [successor])
  }

  function Refreshed(s: State, env: Env, token: TokenId, sub: UserId, tid: TenantId): State {
    var outcome := JudgeRefresh(s, env, token, sub, tid);
    if outcome.Rotated? then Rotation(s, env, token)
    else if outcome.KillsFamily() then s.(rows := FamilyRevoked(s.rows, s.rows[token].family, env.now))
    else s
  }

  function LoggedIn(s: State, env: Env, key: Key): State {
    if env.Admits(key) && key in s.members then Issued(s, env, key, s.members[key].id) else s
  }

  ghost function SessionIssued(s: State, env: Env, user: UserId, member: MemberId): State {
    match KeyOf(s.members, member)
    case Some(key) => if key.user == user && env.Admits(key) then Issued(s, env, key, member) else s
    case None => s
  }

  /** Logout with a token: the tenant must match; the user is not compared. */
  function LoggedOut(s: State, env: Env, tenant: TenantId, token: TokenId): State {
    if token < |s.rows| && s.rows[token].tenant == tenant && s.rows[token].Live() then
      s.(rows := FamilyRevoked(s.rows, s.rows[token].family, env.now))
    else
      s
  }

  function LoggedOutEverywhere(s: State, env: Env, key: Key): State {
    s.(rows := HolderRevoked(s.rows, key, env.now))
  }

  ghost function MembershipEnded(s: State, env: Env, tenant: TenantId, actor: Role, member: MemberId): State {
    var verdict := JudgeRemoval(s.members, tenant, actor, member);
    if verdict.Granted? then
      s.(members := s.members - {verdict.key}, rows := HolderRevoked(s.rows, verdict.key, env.now))
    else
      s
  }

  ghost function RoleOfMemberChanged(s: State, tenant: TenantId, actor: Role, member: MemberId, role: Role): State {
    s.(members := RoleChanged(s.members, tenant, actor, member, role))
  }

  function MemberAdmitted(s: State, key: Key, role: Role): State {
    s.(members := Admitted(s.members, key, s.memberIds, role), memberIds := s.memberIds + 1)
  }

  // ---------------------------------------------------------------- runs

  datatype Request =
    | Login(key: Key)
    | IssueSession(user: UserId, member: MemberId)
    | Refresh(token: TokenId, sub: UserId, tid: TenantId)
    | Logout(tenant: TenantId, token: TokenId)
    | LogoutEverywhere(key: Key)
    | RemoveMember(tenant: TenantId, actor: Role, member: MemberId)
    | ChangeRole(tenant: TenantId, actor: Role, member: MemberId, role: Role)
    | Admit(key: Key, role: Role)

  ghost function Next(s: State, env: Env, r: Request): State {
    match r
    case Login(key) => LoggedIn(s, env, key)
    case IssueSession(user, member) => SessionIssued(s, env, user, member)
    case Refresh(token, sub, tid) => Refreshed(s, env, token, sub, tid)
    case Logout(tenant, token) => LoggedOut(s, env, tenant, token)
    case LogoutEverywhere(key) => LoggedOutEverywhere(s, env, key)
    case RemoveMember(tenant, actor, member) => MembershipEnded(s, env, tenant, actor, member)
    case ChangeRole(tenant, actor, member, role) => RoleOfMemberChanged(s, tenant, actor, member, role)
    case Admit(key, role) => MemberAdmitted(s, key, role)
  }

  ghost function Run(s: State, trace: seq<(Env, Request)>): State
    decreases |trace|
  {
    if trace == [] then s else Run(Next(s, trace[0].0, trace[0].1), trace[1..])
  }

  const Empty := State([], 0, map[], 0)

  // ---------------------------------------------------------------- the invariant

  /** Links go forward to the next row of the same family, and only the newest row has none. */
  ghost predicate Chained(rows: seq<Row>) {
    && (forall i :: 0 <= i < |rows| && rows[i].replacedBy.Some? ==>
          i < rows[i].replacedBy.value < |rows|
          && rows[rows[i].replacedBy.value].family == rows[i].family
          && !rows[i].Live())
    && (forall i, j :: 0 <= i < j < |rows| && rows[i].family == rows[j].family ==>
          rows[i].replacedBy.Some? && rows[i].replacedBy.value <= j
          && rows[i].Holder() == rows[j].Holder())
  }

  ghost predicate Anchored(s: State) {
    forall i :: 0 <= i < |s.rows| && s.rows[i].Live() ==>
      s.rows[i].Holder() in s.members && s.members[s.rows[i].Holder()].id == s.rows[i].member
  }

  ghost predicate Inv(s: State) {
    && Chained(s.rows)
    && (forall i :: 0 <= i < |s.rows| ==> s.rows[i].family < s.families)
    && Anchored(s)
    && IdsDistinct(s.members)
    && (forall k :: k in s.members ==> s.members[k].id < s.memberIds)
  }

  /** An updateMany that sets revokedAt where it was null. */
  ghost predicate OnlyRevokes(rows: seq<Row>, rows': seq<Row>) {
    |rows'| == |rows|
    && forall i :: 0 <= i < |rows| ==>
         rows'[i] == rows[i].(revokedAt := rows'[i].revokedAt)
         && (!rows[i].Live() ==> rows'[i] == rows[i])
  }

  lemma RevokingKeepsInv(s: State, rows: seq<Row>)
    requires Inv(s) && OnlyRevokes(s.rows, rows)
    ensures Inv(s.(rows := rows))
  {
  }

  /** The live row of a family is its newest. */
  lemma LiveIsNewest(rows: seq<Row>, token: TokenId, i: TokenId)
    requires Chained(rows) && token < |rows| && rows[token].Live()
    requires i < |rows| && rows[i].family == rows[token].family
    ensures i <= token
  {
  }

  lemma RotationKeepsChain(rows: seq<Row>, token: TokenId, at: Time, successor: Row)
    requires Chained(rows) && token < |rows| && rows[token].Live()
    requires successor.family == rows[token].family && successor.Holder() == rows[token].Holder()
    requires successor.replacedBy.None?
    ensures Chained(rows[token := rows[token].(revokedAt := Some(at), replacedBy := Some(|rows|))] + [successor])
  {
    forall i: TokenId | i < |rows| && rows[i].family == rows[token].family
      ensures i <= token
    {
      LiveIsNewest(rows, token, i);
    }
  }

  lemma RotationKeepsInv(s: State, env: Env, token: TokenId)
    requires Inv(s) && token < |s.rows| && s.rows[token].Live()
    ensures s.rows[token].Holder() in s.members
    ensures Inv(Rotation(s, env, token))
  {
    var row := s.rows[token];
    RotationKeepsChain(s.rows, token, env.now, NewRow(env, row.Holder(), s.members[row.Holder()].id, row.family));
  }

  lemma IssueKeepsInv(s: State, env: Env, key: Key)
    requires Inv(s) && key in s.members
    ensures Inv(Issued(s, env, key, s.members[key].id))
  {
  }

  lemma RemovalKeepsInv(s: State, env: Env, tenant: TenantId, actor: Role, member: MemberId)
    requires Inv(s)
    ensures Inv(MembershipEnded(s, env, tenant, actor, member))
  {
    var verdict := JudgeRemoval(s.members, tenant, actor, member);
    if verdict.Granted? {
      var rows := HolderRevoked(s.rows, verdict.key, env.now);
      RevokingKeepsInv(s, rows);
      assert forall i :: 0 <= i < |rows| ==> rows[i].Live() ==> rows[i].Holder() != verdict.key;
    }
  }

  lemma RoleChangeKeepsInv(s: State, tenant: TenantId, actor: Role, member: MemberId, role: Role)
    requires Inv(s)
    ensures Inv(RoleOfMemberChanged(s, tenant, actor, member, role))
  {
  }

  lemma AdmissionKeepsInv(s: State, key: Key, role: Role)
    requires Inv(s)
    ensures Inv(MemberAdmitted(s, key, role))
  {
  }

  lemma RefreshKeepsInv(s: State, env: Env, token: TokenId, sub: UserId, tid: TenantId)
    requires Inv(s)
    ensures Inv(Refreshed(s, env, token, sub, tid))
  {
    var outcome := JudgeRefresh(s, env, token, sub, tid);
    if outcome.Rotated? {
      RotationKeepsInv(s, env, token);
    } else if outcome.KillsFamily() {
      RevokingKeepsInv(s, FamilyRevoked(s.rows, s.rows[token].family, env.now));
    }
  }

  lemma LogoutKeepsInv(s: State, env: Env, tenant: TenantId, token: TokenId)
    requires Inv(s)
    ensures Inv(LoggedOut(s, env, tenant, token))
  {
    if token < |s.rows| {
      RevokingKeepsInv(s, FamilyRevoked(s.rows, s.rows[token].family, env.now));
    }
  }

  lemma LogoutEverywhereKeepsInv(s: State, env: Env, key: Key)
    requires Inv(s)
    ensures Inv(LoggedOutEverywhere(s, env, key))
  {
    RevokingKeepsInv(s, HolderRevoked(s.rows, key, env.now));
  }

  lemma LoginKeepsInv(s: State, env: Env, key: Key)
    requires Inv(s)
    ensures Inv(LoggedIn(s, env, key))
  {
    if key in s.members { IssueKeepsInv(s, env, key); }
  }

  lemma SessionKeepsInv(s: State, env: Env, user: UserId, member: MemberId)
    requires Inv(s)
    ensures Inv(SessionIssued(s, env, user, member))
  {
    var found := KeyOf(s.members, member);
    if found.Some? { IssueKeepsInv(s, env, found.value); }
  }

  lemma StepKeepsInv(s: State, env: Env, r: Request)
    requires Inv(s)
    ensures Inv(Next(s, env, r))
  {
    match r {
      case Login(key) => LoginKeepsInv(s, env, key);
      case IssueSession(user, member) => SessionKeepsInv(s, env, user, member);
      case Refresh(token, sub, tid) => RefreshKeepsInv(s, env, token, sub, tid);
      case Logout(tenant, token) => LogoutKeepsInv(s, env, tenant, token);
      case LogoutEverywhere(key) => LogoutEverywhereKeepsInv(s, env, key);
      case RemoveMember(tenant, actor, member) => RemovalKeepsInv(s, env, tenant, actor, member);
      case ChangeRole(tenant, actor, member, role) => RoleChangeKeepsInv(s, tenant, actor, member, role);
      case Admit(key, role) => AdmissionKeepsInv(s, key, role);
    }
  }

  /** In every run the tables stay well formed. */
  lemma {:induction false} RunKeepsInv(s: State, trace: seq<(Env, Request)>)
    requires Inv(s)
    ensures Inv(Run(s, trace))
    decreases |trace|
  {
    if trace != [] {
      StepKeepsInv(s, trace[0].0, trace[0].1);
      RunKeepsInv(Next(s, trace[0].0, trace[0].1), trace[1..]);
    }
  }

  // ---------------------------------------------------------------- a family is one chain

  /** The rows of a family from position `i` on, in creation order. */
  function FamilyFrom(rows: seq<Row>, family: FamilyId, i: nat): (ids: seq<TokenId>)
    ensures forall k :: 0 <= k < |ids| ==> i <= ids[k] < |rows| && rows[ids[k]].family == family
    decreases |rows| - i
  {
    if i >= |rows| then []
    else if rows[i].family == family then [i] + FamilyFrom(rows, family, i + 1)
    else FamilyFrom(rows, family, i + 1)
  }

  /** The tokens met by following replacedById from `i`. */
  function Walk(rows: seq<Row>, i: TokenId): seq<TokenId>
    requires i < |rows|
    decreases |rows| - i
  {
    match rows[i].replacedBy
    case Some(j) => if i < j < |rows| then [i] + Walk(rows, j) else [i]
    case None => [i]
  }

  lemma {:induction false} NoneBetween(rows: seq<Row>, family: FamilyId, i: nat, j: nat)
    requires i <= j <= |rows|
    requires forall k :: i <= k < j ==> rows[k].family != family
    ensures FamilyFrom(rows, family, i) == FamilyFrom(rows, family, j)
    decreases j - i
  {
    if i < j {
      NoneBetween(rows, family, i + 1, j);
    }
  }

  /** Following the links from any row visits exactly the family's rows from there on. */
  lemma {:induction false} WalkIsFamily(rows: seq<Row>, i: TokenId)
    requires Chained(rows) && i < |rows|
    ensures Walk(rows, i) == FamilyFrom(rows, rows[i].family, i)
    decreases |rows| - i
  {
    match rows[i].replacedBy {
      case Some(j) =>
        NoneBetween(rows, rows[i].family, i + 1, j);
        WalkIsFamily(rows, j);
      case None =>
        NoneBetween(rows, rows[i].family, i + 1, |rows|);
    }
  }

  lemma {:induction false} FamilyListed(rows: seq<Row>, family: FamilyId, i: nat)
    ensures forall t :: i <= t < |rows| && rows[t].family == family ==> t in FamilyFrom(rows, family, i)
    ensures forall k, l :: 0 <= k < l < |FamilyFrom(rows, family, i)| ==>
              FamilyFrom(rows, family, i)[k] < FamilyFrom(rows, family, i)[l]
    decreases |rows| - i
  {
    if i < |rows| {
      FamilyListed(rows, family, i + 1);
    }
  }

  /** The rows of a family in creation order are the walk along replacedById from the first; they
      belong to one (user, tenant); every row but the newest is revoked; and a live row names the
      current membership of its holder. */
  ghost predicate OneChain(s: State, ids: seq<TokenId>)
    requires forall k :: 0 <= k < |ids| ==> ids[k] < |s.rows|
  {
    && (ids != [] ==> Walk(s.rows, ids[0]) == ids)
    && (forall k :: 0 <= k < |ids| ==> s.rows[ids[k]].Holder() == s.rows[ids[0]].Holder())
    && (forall k :: 0 <= k < |ids| - 1 ==> !s.rows[ids[k]].Live())
    && (forall k :: 0 <= k < |ids| && s.rows[ids[k]].Live() ==>
          s.rows[ids[k]].Holder() in s.members
          && s.members[s.rows[ids[k]].Holder()].id == s.rows[ids[k]].member)
  }

  /** The shape of every family in every run of the service. */
  lemma FamilyIsOneChain(trace: seq<(Env, Request)>, family: FamilyId)
    ensures OneChain(Run(Empty, trace), FamilyFrom(Run(Empty, trace).rows, family, 0))
    ensures forall t :: 0 <= t < |Run(Empty, trace).rows| && Run(Empty, trace).rows[t].family == family ==>
              t in FamilyFrom(Run(Empty, trace).rows, family, 0)
  {
    RunKeepsInv(Empty, trace);
    InvGivesOneChain(Run(Empty, trace), family);
  }

  lemma FirstOfFamily(rows: seq<Row>, family: FamilyId)
    requires FamilyFrom(rows, family, 0) != []
    ensures FamilyFrom(rows, family, FamilyFrom(rows, family, 0)[0]) == FamilyFrom(rows, family, 0)
  {
    var ids := FamilyFrom(rows, family, 0);
    FamilyListed(rows, family, 0);
    forall k | 0 <= k < ids[0]
      ensures rows[k].family != family
    {
      assert k !in ids;
    }
    NoneBetween(rows, family, 0, ids[0]);
  }

  lemma Superseded(rows: seq<Row>, i: TokenId, j: TokenId)
    requires Chained(rows) && i < j < |rows| && rows[i].family == rows[j].family
    ensures !rows[i].Live() && rows[i].Holder() == rows[j].Holder()
  {
  }

  /** Rows of one family in creation order share their holder, and all but the last are revoked. */
  lemma InOneFamily(rows: seq<Row>, family: FamilyId, ids: seq<TokenId>)
    requires Chained(rows) && ids != []
    requires forall k :: 0 <= k < |ids| ==> ids[k] < |rows| && rows[ids[k]].family == family
    requires forall k, l :: 0 <= k < l < |ids| ==> ids[k] < ids[l]
    ensures forall k :: 0 <= k < |ids| ==> rows[ids[k]].Holder() == rows[ids[0]].Holder()
    ensures forall k :: 0 <= k < |ids| - 1 ==> !rows[ids[k]].Live()
  {
    forall k | 0 <= k < |ids|
      ensures rows[ids[k]].Holder() == rows[ids[0]].Holder()
    {
      if k > 0 {
        Superseded(rows, ids[0], ids[k]);
      }
    }
    forall k | 0 <= k < |ids| - 1
      ensures !rows[ids[k]].Live()
    {
      Superseded(rows, ids[k], ids[k + 1]);
    }
  }

  lemma InvGivesOneChain(s: State, family: FamilyId)
    requires Inv(s)
    ensures OneChain(s, FamilyFrom(s.rows, family, 0))
    ensures forall t :: 0 <= t < |s.rows| && s.rows[t].family == family ==> t in FamilyFrom(s.rows, family, 0)
  {
    var ids := FamilyFrom(s.rows, family, 0);
    FamilyListed(s.rows, family, 0);
    if ids != [] {
      FirstOfFamily(s.rows, family);
      WalkIsFamily(s.rows, ids[0]);
      InOneFamily(s.rows, family, ids);
    }
  }

  // ---------------------------------------------------------------- what never comes back

  /** Rows are never deleted, a row's identity never changes and a revocation is final. */
  ghost predicate Later(s: State, s': State) {
    && |s.rows| <= |s'.rows|
    && s.families <= s'.families
    && forall i :: 0 <= i < |s.rows| ==>
         && s'.rows[i].Holder() == s.rows[i].Holder()
         && s'.rows[i].family == s.rows[i].family
         && s'.rows[i].expiresAt == s.rows[i].expiresAt
         && (!s.rows[i].Live() ==> s'.rows[i] == s.rows[i])
  }

  /** A family that was opened and has no live row. */
  ghost predicate Dead(s: State, family: FamilyId) {
    && family < s.families
    && forall i :: 0 <= i < |s.rows| && s.rows[i].family == family ==> !s.rows[i].Live()
  }

  lemma StepGoesForward(s: State, env: Env, r: Request)
    ensures Later(s, Next(s, env, r))
  {
  }

  lemma StepKeepsDead(s: State, env: Env, r: Request, family: FamilyId)
    requires Dead(s, family)
    ensures Dead(Next(s, env, r), family)
    ensures forall i :: |s.rows| <= i < |Next(s, env, r).rows| ==> Next(s, env, r).rows[i].family != family
  {
  }

  lemma {:induction false} RunGoesForward(s: State, trace: seq<(Env, Request)>)
    ensures Later(s, Run(s, trace))
    decreases |trace|
  {
    if trace != [] {
      var s' := Next(s, trace[0].0, trace[0].1);
      StepGoesForward(s, trace[0].0, trace[0].1);
      RunGoesForward(s', trace[1..]);
    }
  }

  /** Once a family has no live row, whatever the reason, no later request adds a row to it or
      changes one, and none of its tokens is ever accepted again. */
  lemma {:induction false} DeadFamilyIsFrozen(s: State, trace: seq<(Env, Request)>, family: FamilyId)
    requires Dead(s, family)
    ensures Dead(Run(s, trace), family)
    ensures FamilyFrom(Run(s, trace).rows, family, 0) == FamilyFrom(s.rows, family, 0)
    ensures |s.rows| <= |Run(s, trace).rows|
    ensures forall t :: 0 <= t < |s.rows| && s.rows[t].family == family ==> Run(s, trace).rows[t] == s.rows[t]
    ensures forall t, env, sub, tid :: 0 <= t < |Run(s, trace).rows| && Run(s, trace).rows[t].family == family ==>
              !JudgeRefresh(Run(s, trace), env, t, sub, tid).Rotated?
    decreases |trace|
  {
    if trace != [] {
      var s' := Next(s, trace[0].0, trace[0].1);
      StepGoesForward(s, trace[0].0, trace[0].1);
      StepKeepsDead(s, trace[0].0, trace[0].1, family);
      SameFamily(s.rows, s'.rows, family, 0);
      DeadFamilyIsFrozen(s', trace[1..], family);
    }
  }

  lemma {:induction false} SameFamily(rows: seq<Row>, rows': seq<Row>, family: FamilyId, i: nat)
    requires |rows| <= |rows'|
    requires forall k :: 0 <= k < |rows| ==> rows'[k].family == rows[k].family
    requires forall k :: |rows| <= k < |rows'| ==> rows'[k].family != family
    ensures FamilyFrom(rows', family, i) == FamilyFrom(rows, family, i)
    decreases |rows'| - i
  {
    if i < |rows'| {
      SameFamily(rows, rows', family, i + 1);
    }
  }

  /** Reuse detection: when a token was rotated once and is presented again, by anyone and however
      much later, its whole family is dead from then on. */
  lemma ReplayKillsFamily(s: State, env: Env, token: TokenId, sub: UserId, tid: TenantId,
                          between: seq<(Env, Request)>, env': Env, sub': UserId, tid': TenantId)
    requires Inv(s)
    requires JudgeRefresh(s, env, token, sub, tid).Rotated?
    ensures var late := Run(Refreshed(s, env, token, sub, tid), between);
            && JudgeRefresh(late, env', token, sub', tid').KillsFamily()
            && Dead(Refreshed(late, env', token, sub', tid'), s.rows[token].family)
  {
    var s1 := Refreshed(s, env, token, sub, tid);
    var late := Run(s1, between);
    RunGoesForward(s1, between);
    RefreshKeepsInv(s, env, token, sub, tid);
    RunKeepsInv(s1, between);
  }

  /** A member's removal closes every session it had: no refresh token issued for the pair before
      the removal is accepted afterwards, even if the user is admitted again. */
  lemma RemovedMemberStaysOut(s: State, env: Env, tenant: TenantId, actor: Role, member: MemberId,
                              after: seq<(Env, Request)>, token: TokenId, env': Env, sub: UserId, tid: TenantId)
    requires JudgeRemoval(s.members, tenant, actor, member).Granted?
    requires token < |s.rows| && s.rows[token].Holder() == JudgeRemoval(s.members, tenant, actor, member).key
    ensures !JudgeRefresh(Run(MembershipEnded(s, env, tenant, actor, member), after), env', token, sub, tid).Rotated?
  {
    RunGoesForward(MembershipEnded(s, env, tenant, actor, member), after);
  }

  /** The no-membership branch of refresh is unreachable when requests are serialised. */
  lemma MembershipNeverMissing(trace: seq<(Env, Request)>, env: Env, token: TokenId, sub: UserId, tid: TenantId)
    ensures !JudgeRefresh(Run(Empty, trace), env, token, sub, tid).NoMembership?
  {
    RunKeepsInv(Empty, trace);
  }

  /** A tenant that has an OWNER keeps one over every run. */
  lemma {:induction false} OwnerKept(s: State, trace: seq<(Env, Request)>, tenant: TenantId)
    requires Owners(s.members, tenant) != {}
    ensures Owners(Run(s, trace).members, tenant) != {}
    decreases |trace|
  {
    if trace != [] {
      var r := trace[0].1;
      var s' := Next(s, trace[0].0, r);
      match r {
        case RemoveMember(at, actor, member) => OwnerStays(s.members, tenant, at, actor, member, OWNER);
        case ChangeRole(at, actor, member, role) => OwnerStays(s.members, tenant, at, actor, member, role);
        case Admit(key, role) =>
          var o :| o in Owners(s.members, tenant);
          assert o in Owners(s'.members, tenant);
        case _ =>
      }
      OwnerKept(s', trace[1..], tenant);
    }
  }

  // ---------------------------------------------------------------- when a token is issued, taken and closed

  /** The user and the tenant are active and the subscription entitles. */
  predicate MaySignIn(env: Env, key: Key) {
    key.user in env.activeUsers && key.tenant in env.activeTenants && key.tenant !in env.unpaid
  }

  /** The row a request finds: live, of the claimed user and tenant, and not past its date. */
  predicate Good(s: State, now: Time, token: TokenId, key: Key) {
    && token < |s.rows| && s.rows[token].revokedAt.None?
    && s.rows[token].user == key.user && s.rows[token].tenant == key.tenant
    && now <= s.rows[token].expiresAt
  }

  /** Whom a request asks a session for, if anybody it may. */
  ghost predicate Asks(s: State, env: Env, r: Request, key: Key) {
    match r
    case Login(k) => k == key
    case IssueSession(user, member) => user == key.user && key in s.members && s.members[key].id == member
    case Refresh(token, sub, tid) => key == Key(sub, tid) && Good(s, env.now, token, key)
    case _ => false
  }

  /** Exactly which requests issue a token, and what is in its row. */
  lemma IssuedExactly(s: State, env: Env, r: Request)
    requires Inv(s)
    ensures |s.rows| <= |Next(s, env, r).rows| <= |s.rows| + 1
    ensures |Next(s, env, r).rows| > |s.rows| <==>
            exists key :: Asks(s, env, r, key) && MaySignIn(env, key) && key in s.members
    ensures |Next(s, env, r).rows| > |s.rows| ==>
              var row := Next(s, env, r).rows[|s.rows|];
              var key := Key(row.user, row.tenant);
              && Asks(s, env, r, key) && MaySignIn(env, key)
              && key in s.members && row.member == s.members[key].id
              && row.expiresAt == (env.now / 1000 + env.ttlSeconds) * 1000
              && row.revokedAt.None? && row.replacedBy.None?
  {
    match r {
      case Login(key) => assert Asks(s, env, r, key);
      case IssueSession(user, member) =>
        var found := KeyOf(s.members, member);
        if found.Some? { assert found.value.user == user ==> Asks(s, env, r, found.value); }
      case Refresh(token, sub, tid) =>
        var key := Key(sub, tid);
        assert Good(s, env.now, token, key) ==> Asks(s, env, r, key);
      case _ =>
    }
  }

  /** A token lives until its date and not longer: as long as nothing has revoked it, its holder gets a new
      one for it, whatever happened since, exactly while the holder may sign in and the lifetime that began
      at the last full second is not over. */
  lemma AcceptedUntilExpiry(trace: seq<(Env, Request)>, env: Env, r: Request, since: seq<(Env, Request)>,
                            env': Env, sub: UserId, tid: TenantId)
    requires |Next(Run(Empty, trace), env, r).rows| > |Run(Empty, trace).rows|
    requires var (late, id) := (Run(Next(Run(Empty, trace), env, r), since), |Run(Empty, trace).rows|);
             id < |late.rows| ==> late.rows[id].revokedAt.None?
    ensures var (s, s1) := (Run(Empty, trace), Next(Run(Empty, trace), env, r));
            var (late, id) := (Run(s1, since), |s.rows|);
            && id < |late.rows|
            && (|Next(late, env', Refresh(id, sub, tid)).rows| > |late.rows| <==>
                  && sub == s1.rows[id].user && tid == s1.rows[id].tenant
                  && MaySignIn(env', Key(sub, tid))
                  && env'.now <= (env.now / 1000 + env.ttlSeconds) * 1000)
  {
    var s := Run(Empty, trace);
    var s1, id := Next(s, env, r), |s.rows|;
    var late := Run(s1, since);
    RunKeepsInv(Empty, trace);
    IssuedExactly(s, env, r);
    StepKeepsInv(s, env, r);
    RunGoesForward(s1, since);
    RunKeepsInv(s1, since);
    IssuedExactly(late, env', Refresh(id, sub, tid));
    assert s1.rows[id].Live() && late.rows[id].Live();
    assert late.rows[id].Holder() == s1.rows[id].Holder() && s1.rows[id].Holder() in late.members;
    if Good(late, env'.now, id, Key(sub, tid)) {
      assert Asks(late, env', Refresh(id, sub, tid), Key(sub, tid));
    }
  }

  /** Exactly which requests revoke a live row. */
  ghost predicate Revokes(s: State, env: Env, r: Request, i: TokenId)
    requires i < |s.rows|
  {
    match r
    case Logout(tenant, token) =>
      && token < |s.rows| && s.rows[token].tenant == tenant && s.rows[token].revokedAt.None?
      && s.rows[token].family == s.rows[i].family
    case LogoutEverywhere(key) => s.rows[i].user == key.user && s.rows[i].tenant == key.tenant
    case RemoveMember(_, _, _) =>
      var key := Key(s.rows[i].user, s.rows[i].tenant);
      key in s.members && key !in Next(s, env, r).members
    case Refresh(token, sub, tid) =>
      && token < |s.rows| && s.rows[token].family == s.rows[i].family
      && (s.rows[token].user != sub || s.rows[token].tenant != tid || s.rows[token].revokedAt.Some?
          || |Next(s, env, r).rows| > |s.rows|)
    case _ => false
  }

  /** A live row is closed by those and dated then; otherwise it is left as it is. */
  lemma RowDiesExactly(s: State, env: Env, r: Request, i: TokenId)
    requires Inv(s) && i < |s.rows| && s.rows[i].revokedAt.None?
    ensures i < |Next(s, env, r).rows|
    ensures Next(s, env, r).rows[i].revokedAt == if Revokes(s, env, r, i) then Some(env.now) else None
    ensures !Revokes(s, env, r, i) ==> Next(s, env, r).rows[i] == s.rows[i]
  {
    StepGoesForward(s, env, r);
    match r {
      case Refresh(token, sub, tid) =>
        if JudgeRefresh(s, env, token, sub, tid).Rotated? && s.rows[token].family == s.rows[i].family {
          LiveIsNewest(s.rows, token, i);
          LiveIsNewest(s.rows, i, token);
        }
      case RemoveMember(tenant, actor, member) =>
        assert s.rows[i].Holder() in s.members;
      case _ =>
    }
  }

  /** Logging out with a live token ends its family: none of its tokens, that one or any other, is ever
      rotated again. Logging out everywhere does so for every token the caller had. */
  lemma LoggedOutStaysOut(s: State, env: Env, key: Key, token: TokenId, after: seq<(Env, Request)>,
                          t: TokenId, env': Env, sub: UserId, tid: TenantId)
    requires Inv(s) && token < |s.rows| && s.rows[token].Live() && s.rows[token].tenant == key.tenant
    requires t < |s.rows|
    ensures s.rows[t].family == s.rows[token].family ==>
              !JudgeRefresh(Run(Next(s, env, Logout(key.tenant, token)), after), env', t, sub, tid).Rotated?
    ensures s.rows[t].Holder() == key ==>
              !JudgeRefresh(Run(Next(s, env, LogoutEverywhere(key)), after), env', t, sub, tid).Rotated?
  {
    var s1, s2 := Next(s, env, Logout(key.tenant, token)), Next(s, env, LogoutEverywhere(key));
    if s.rows[t].Live() {
      RowDiesExactly(s, env, Logout(key.tenant, token), t);
      RowDiesExactly(s, env, LogoutEverywhere(key), t);
    }
    StepGoesForward(s, env, Logout(key.tenant, token));
    StepGoesForward(s, env, LogoutEverywhere(key));
    RunGoesForward(s1, after);
    RunGoesForward(s2, after);
  }

  /** What it means to revoke a family determines the rows. */
  lemma RevokedExactly(rows: seq<Row>, rows': seq<Row>, family: FamilyId, now: Time)
    requires OnlyRevokes(rows, rows')
    requires forall i :: 0 <= i < |rows'| && rows'[i].family == family ==> !rows'[i].Live()
    requires forall i :: 0 <= i < |rows'| && rows'[i] != rows[i] ==>
               rows'[i].family == family && rows'[i].revokedAt == Some(now)
    ensures rows' == FamilyRevoked(rows, family, now)
  {
    forall i | 0 <= i < |rows|
      ensures rows'[i] == FamilyRevoked(rows, family, now)[i]
    {
      assert rows'[i].family == rows[i].family;
    }
  }

  // ---------------------------------------------------------------- the services

  /** The tables behind AuthService and MembersService, updated one statement at a time. */
  class AuthStore {
    var rows: seq<Row>
    var families: nat
    var members: Table
    var memberIds: nat

    ghost function Tables(): State
      reads this
    {
      State(rows, families, members, memberIds)
    }

    constructor ()
      ensures Tables() == Empty && Inv(Tables())
    {
      rows, families, members, memberIds := [], 0, map[], 0;
    }

    method RevokeFamily(family: FamilyId, now: Time)
      modifies this`rows
      ensures OnlyRevokes(old(rows), rows)
      ensures forall i :: 0 <= i < |rows| && rows[i].family == family ==> !rows[i].Live()
      ensures forall i :: 0 <= i < |rows| && rows[i] != old(rows)[i] ==>
                rows[i].family == family && rows[i].revokedAt == Some(now)
      ensures family < families ==> Dead(Tables(), family)
    {
      rows := seq(|rows|, i requires 0 <= i < |rows| reads this =>
        if rows[i].family == family && rows[i].Live() then rows[i].(revokedAt := Some(now)) else rows[i]);
    }

    method IssueTokens(env: Env, key: Key, member: MemberId, family: Option<FamilyId>) returns (id: TokenId)
      modifies this`rows, this`families
      ensures id == |old(rows)| && rows == old(rows) + [NewRow(env, key, member, family.OrElse(old(families)))]
      ensures families == old(families) + (if family.Some? then 0 else 1)
    {
      var familyId;
      if family.Some? {
        familyId := family.value;
      } else {
        familyId, families := families, families + 1;
      }
      id := |rows|;
      rows := rows + [NewRow(env, key, member, familyId)];
    }

    method RefreshToken(env: Env, token: TokenId, sub: UserId, tid: TenantId) returns (o: RefreshOutcome)
      modifies this
      ensures o == old(JudgeRefresh(Tables(), env, token, sub, tid))
      ensures Tables() == old(Refreshed(Tables(), env, token, sub, tid))
      ensures old(Inv(Tables())) ==> Inv(Tables())
    {
      if Inv(Tables()) {
        RefreshKeepsInv(Tables(), env, token, sub, tid);
      }
      if token >= |rows| {
        return Unknown;
      }
      var stored := rows[token];
      ghost var before := rows;
      if stored.tenant != tid || stored.user != sub {
        RevokeFamily(stored.family, env.now);
        RevokedExactly(before, rows, stored.family, env.now);
        return Mismatch;
      }
      if stored.revokedAt.Some? {
        RevokeFamily(stored.family, env.now);
        RevokedExactly(before, rows, stored.family, env.now);
        return Reuse;
      }
      if stored.expiresAt < env.now {
        return Expired;
      }
      if stored.user !in env.activeUsers {
        return UserInactive;
      }
      if stored.tenant !in env.activeTenants {
        return TenantUnavailable;
      }
      if stored.tenant in env.unpaid {
        return NotEntitled;
      }
      var key := Key(stored.user, stored.tenant);
      if key !in members {
        RevokeFamily(stored.family, env.now);
        RevokedExactly(before, rows, stored.family, env.now);
        return NoMembership;
      }
      var newId := IssueTokens(env, key, members[key].id, Some(stored.family));
      rows := rows[token := stored.(revokedAt := Some(env.now), replacedBy := Some(newId))];
      return Rotated;
    }

    method IssueSessionForMembership(env: Env, user: UserId, member: MemberId) returns (issued: bool)
      requires Inv(Tables())
      modifies this
      ensures Tables() == old(SessionIssued(Tables(), env, user, member))
      ensures issued == (|rows| == |old(rows)| + 1)
      ensures Inv(Tables())
    {
      SessionKeepsInv(Tables(), env, user, member);
      if key :| key in members && members[key].id == member {
        if key.user != user || key.user !in env.activeUsers {
          return false;
        }
        if key.tenant !in env.activeTenants || key.tenant in env.unpaid {
          return false;
        }
        var _ := IssueTokens(env, key, member, None);
        return true;
      }
      return false;
    }

    method LogOut(env: Env, key: Key, token: Option<TokenId>)
      modifies this
      ensures Tables() == old(if token.Some? then LoggedOut(Tables(), env, key.tenant, token.value)
                              else LoggedOutEverywhere(Tables(), env, key))
      ensures old(Inv(Tables())) ==> Inv(Tables())
    {
      if Inv(Tables()) {
        LogoutKeepsInv(Tables(), env, key.tenant, token.OrElse(0));
        LogoutEverywhereKeepsInv(Tables(), env, key);
      }
      match token {
        case Some(t) =>
          if t < |rows| && rows[t].tenant == key.tenant && rows[t].revokedAt.None? {
            ghost var before := rows;
            RevokeFamily(rows[t].family, env.now);
            RevokedExactly(before, rows, before[t].family, env.now);
          }
        case None =>
          rows := HolderRevoked(rows, key, env.now);
      }
    }

    method RemoveMember(env: Env, tenant: TenantId, actor: Role, member: MemberId) returns (verdict: Verdict)
      requires Inv(Tables())
      modifies this
      ensures verdict == old(JudgeRemoval(members, tenant, actor, member))
      ensures Tables() == old(MembershipEnded(Tables(), env, tenant, actor, member))
      ensures Inv(Tables())
    {
      RemovalKeepsInv(Tables(), env, tenant, actor, member);
      if key :| key in members && members[key].id == member {
        var target := members[key];
        if key.tenant != tenant {
          return NotFound;
        }
        if target.role == OWNER && actor != OWNER {
          return OwnerOnly;
        }
        if target.role == OWNER {
          var ownerCount := |Owners(members, tenant)|;
          if ownerCount <= 1 {
            return LastOwner;
          }
        }
        members := members - {key};
        rows := HolderRevoked(rows, key, env.now);
        return Granted(key);
      }
      return NotFound;
    }

    method ChangeRole(tenant: TenantId, actor: Role, member: MemberId, role: Role) returns (verdict: Verdict)
      requires Inv(Tables())
      modifies this`members
      ensures verdict == old(JudgeRoleChange(members, tenant, actor, member, role))
      ensures Tables() == old(RoleOfMemberChanged(Tables(), tenant, actor, member, role))
      ensures Inv(Tables())
    {
      RoleChangeKeepsInv(Tables(), tenant, actor, member, role);
      if key :| key in members && members[key].id == member {
        var target := members[key];
        if key.tenant != tenant {
          return NotFound;
        }
        if target.role == OWNER && actor != OWNER {
          return OwnerOnly;
        }
        if target.role == role {
          return Unchanged;
        }
        if target.role == OWNER && role != OWNER {
          var ownerCount := |Owners(members, tenant)|;
          if ownerCount <= 1 {
            return LastOwner;
          }
        }
        members := members[key := target.(role := role)];
        return Granted(key);
      }
      return NotFound;
    }
  }
}
