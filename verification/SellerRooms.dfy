/**
 Seller rooms: the room lifecycle, the publish path of acoustic fingerprints with its rate limit,
 sequence filter and micro-batches, and the cache that is purged when a room closes.

 Rooms and invitations are numbered in creation order. The cache is three tables: who is present,
 the last sequence number per room and user, and nothing else matters; `env.up` says whether it can
 be reached. `sent` and `flushed` record what was broadcast and what was handed to the cache.
 */
module SellerRooms {
  import opened FiniteSets
  import opened Options
  import opened RateBuckets

  type TenantId = nat
  type RoomId = nat
  type InviteId = nat

  datatype Status = OPEN | ACTIVE | ENDED | ARCHIVED
  datatype MemberStatus = INVITED | JOINED | LEFT

  datatype Room = Room(tenant: TenantId, creator: UserId, meeting: string, status: Status,
                       members: map<UserId, MemberStatus>, startedAt: Option<Time>,
                       endedAt: Option<Time>, updatedAt: Time)
  {
    predicate Closed() { status.ENDED? || status.ARCHIVED? }
    predicate Accessible(t: TenantId, u: UserId) { tenant == t && (creator == u || u in members) }
    predicate Joined(u: UserId) { u in members && members[u] == JOINED }
  }

  datatype InviteStatus = PENDING | ACCEPTED | EXPIRED
  datatype Invite = Invite(room: RoomId, invitee: UserId, status: InviteStatus, expiresAt: Time)

  datatype Key = Key(room: RoomId, user: UserId)

  /** A normalised fingerprint; `body` stands for the fields nothing here depends on. */
  datatype Fingerprint = Fingerprint(number: real, at: Time, body: nat)
  datatype Batch = Batch(low: real, high: real, at: Time, fingerprints: seq<Fingerprint>)
  datatype Sent = Sent(key: Key, fingerprint: Fingerprint)

  datatype State = State(rooms: seq<Room>, invites: seq<Invite>, presence: set<Key>, lastSeq: map<Key, real>,
                         buckets: map<UserId, Bucket>, pending: map<Key, seq<Fingerprint>>,
                         flushed: map<Key, seq<Batch>>, sent: seq<Sent>)

  const Empty := State([], [], {}, map[], map[], map[], map[], [])

  datatype Env = Env(now: Time, up: bool)

  const MAX_ROOMS := 5
  const MAX_MEMBERS := 10
  const INVITE_TTL := 7 * 24 * 60 * 60 * 1000
  const IDLE_TIMEOUT := 60 * 1000
  const ARCHIVE_AFTER := 24 * 60 * 60 * 1000
  const BATCH := 5

  // ---------------------------------------------------------------- rooms

  /** The rooms a tenant has open or active. */
  function InUse(rooms: seq<Room>, tenant: TenantId): set<RoomId> {
    set r: RoomId | r < |rooms| && rooms[r].tenant == tenant && !rooms[r].Closed()
  }

  function Created(s: State, env: Env, tenant: TenantId, user: UserId, meeting: string): State {
    if |InUse(s.rooms, tenant)| >= MAX_ROOMS then s
    else s.(rooms := s.rooms + [Room(tenant, user, meeting, OPEN, map[user := JOINED], None, None, env.now)])
  }

  /** The members an invitation counts: all who have not left. */
  function Counted(room: Room): set<UserId> { set u | u in room.members && room.members[u] != LEFT }

  /** `known` says that the invitee's email belongs to a member of the tenant. */
  function UserInvited(s: State, env: Env, tenant: TenantId, inviter: UserId, r: RoomId, invitee: UserId, known: bool)
    : State
  {
    if r >= |s.rooms| || !s.rooms[r].Accessible(tenant, inviter) || s.rooms[r].Closed() then s
    else
      var room := s.rooms[r];
      if room.creator != inviter && !room.Joined(inviter) then s
      else if |Counted(room)| >= MAX_MEMBERS || !known || room.Joined(invitee) then s
      else s.(invites := s.invites + [Invite(r, invitee, PENDING, env.now + INVITE_TTL)],
              rooms := s.rooms[r := room.(members := room.members[invitee := INVITED])])
  }

  /** A member is joined; an open room becomes active. */
  function Entered(room: Room, env: Env, user: UserId): Room {
    var joined := room.(members := room.members[user := JOINED]);
    if room.status.OPEN? then joined.(status := ACTIVE, startedAt := Some(env.now), updatedAt := env.now) else joined
  }

  function InvitationAccepted(s: State, env: Env, tenant: TenantId, user: UserId, i: InviteId): State {
    if i >= |s.invites| || s.invites[i].invitee != user || s.invites[i].room >= |s.rooms| then s
    else
      var invite, r := s.invites[i], s.invites[i].room;
      if s.rooms[r].tenant != tenant || invite.status != PENDING then s
      else if invite.expiresAt < env.now then s.(invites := s.invites[i := invite.(status := EXPIRED)])
      else if s.rooms[r].Closed() then s
      else s.(invites := s.invites[i := invite.(status := ACCEPTED)],
              rooms := s.rooms[r := Entered(s.rooms[r], env, user)])
  }

  function JoinedRoom(s: State, env: Env, tenant: TenantId, user: UserId, r: RoomId): State {
    if r >= |s.rooms| || !s.rooms[r].Accessible(tenant, user) || s.rooms[r].Closed() then s
    else s.(rooms := s.rooms[r := Entered(s.rooms[r], env, user)])
  }

  function LeftRoom(s: State, tenant: TenantId, user: UserId, r: RoomId): State {
    if r >= |s.rooms| || !s.rooms[r].Accessible(tenant, user) || user !in s.rooms[r].members then s
    else s.(rooms := s.rooms[r := s.rooms[r].(members := s.rooms[r].members[user := LEFT])])
  }

  function PresentIn(s: State, r: RoomId): set<UserId> {
    set k | k in s.presence && k.room == r :: k.user
  }

  /** purgeRoom: the room's presence, and the last numbers of those present and of `users`. */
  function Purged(s: State, env: Env, r: RoomId, users: set<UserId>): State {
    if !env.up then s
    else
      var gone := set u | u in users + PresentIn(s, r) :: Key(r, u);
      s.(lastSeq := s.lastSeq - gone, presence := set k | k in s.presence && k.room != r)
  }

  function Close(room: Room, env: Env): Room {
    room.(status := ENDED, endedAt := Some(env.now), updatedAt := env.now)
  }

  function EndedByCreator(s: State, env: Env, tenant: TenantId, user: UserId, r: RoomId): State {
    if r >= |s.rooms| || !s.rooms[r].Accessible(tenant, user) || s.rooms[r].creator != user then s
    else Purged(s.(rooms := s.rooms[r := Close(s.rooms[r], env)]), env, r, s.rooms[r].members.Keys)
  }

  function JoinedMembers(room: Room): set<UserId> { set u | u in room.members && room.members[u] == JOINED }

  /** Presence as the cache reports it: nobody when it cannot be reached. */
  function Online(s: State, env: Env, r: RoomId): set<UserId> {
    if env.up then PresentIn(s, r) else {}
  }

  /** Whether the idle check closes room `r`. */
  predicate Idle(s: State, env: Env, r: RoomId)
    requires r < |s.rooms|
  {
    Online(s, env, r) == {} && env.now - s.rooms[r].updatedAt >= IDLE_TIMEOUT
  }

  function IdleEnded(s: State, env: Env, r: RoomId): State
    requires r < |s.rooms|
  {
    if Idle(s, env, r) then
      Purged(s.(rooms := s.rooms[r := Close(s.rooms[r], env)]), env, r, JoinedMembers(s.rooms[r]))
    else s
  }

  /** The rooms the idle query may return. */
  ghost predicate IdlePage(rooms: seq<Room>, page: seq<RoomId>) {
    && |page| <= 200
    && (forall i :: 0 <= i < |page| ==> page[i] < |rooms| && rooms[page[i]].status.ACTIVE?)
    && (forall i, j :: 0 <= i < j < |page| ==> page[i] != page[j])
  }

  function IdleRoomsEnded(s: State, env: Env, page: seq<RoomId>): (s': State)
    requires forall i :: 0 <= i < |page| ==> page[i] < |s.rooms|
    ensures |s'.rooms| == |s.rooms|
  {
    if page == [] then s
    else IdleEnded(IdleRoomsEnded(s, env, page[..|page| - 1]), env, page[|page| - 1])
  }

  predicate Due(room: Room, env: Env) {
    room.status.ENDED? && room.endedAt.Some? && room.endedAt.value <= env.now - ARCHIVE_AFTER
  }

  /** The updateMany of the archiving pass. */
  function Archive(rooms: seq<Room>, env: Env): seq<Room> {
    seq(|rooms|, r requires 0 <= r < |rooms| =>
      if Due(rooms[r], env) then rooms[r].(status := ARCHIVED, updatedAt := env.now) else rooms[r])
  }

  function RoomsArchived(s: State, env: Env): State {
    s.(rooms := Archive(s.rooms, env))
  }

  // ---------------------------------------------------------------- publishing

  /** A fingerprint as submitted; `number` is absent when it is not a finite number, and `wellFormed`
      sums up the checks on its features and size. */
  datatype Submission = Submission(user: UserId, room: RoomId, meeting: string, number: Option<real>, body: nat,
                                   wellFormed: bool)

  predicate Valid(f: Submission, key: Key, meeting: string) {
    f.user == key.user && f.room == key.room && f.meeting == meeting
    && f.number.Some? && f.number.value >= 0.0 && f.wellFormed
  }

  datatype Verdict = RateLimited | NotFound | HasEnded | NotJoined | Invalid | NotMonotonic | Accepted

  function JudgePublish(s: State, env: Env, tenant: TenantId, key: Key, f: Submission): (v: Verdict)
    ensures v.Accepted? ==> key.room < |s.rooms| && f.number.Some? && f.number.value >= 0.0
  {
    if Level(BucketOf(s.buckets, key.user), env.now) < COST then RateLimited
    else if key.room >= |s.rooms| || s.rooms[key.room].tenant != tenant then NotFound
    else if s.rooms[key.room].Closed() then HasEnded
    else if !s.rooms[key.room].Joined(key.user) then NotJoined
    else if !Valid(f, key, s.rooms[key.room].meeting) then Invalid
    else if env.up && key in s.lastSeq && f.number.value <= s.lastSeq[key] then NotMonotonic
    else Accepted
  }

  function PendingOf(s: State, key: Key): seq<Fingerprint> { if key in s.pending then s.pending[key] else [] }
  function FlushedOf(s: State, key: Key): seq<Batch> { if key in s.flushed then s.flushed[key] else [] }

  function BatchOf(fs: seq<Fingerprint>): Batch
    requires fs != []
  {
    Batch(fs[0].number, fs[|fs| - 1].number, fs[|fs| - 1].at, fs)
  }

  function Enqueued(s: State, key: Key, f: Fingerprint): State {
    var batch := PendingOf(s, key) + [f];
    if |batch| >= BATCH then
      s.(pending := s.pending[key := []], flushed := s.flushed[key := FlushedOf(s, key) + [BatchOf(batch)]])
    else
      s.(pending := s.pending[key := batch])
  }

  function Broadcast(s: State, env: Env, key: Key, f: Fingerprint): State {
    var lastSeq := if env.up then s.lastSeq[key := f.number] else s.lastSeq;
    Enqueued(s.(lastSeq := lastSeq, sent := s.sent + [Sent(key, f)]), key, f)
  }

  function Published(s: State, env: Env, tenant: TenantId, key: Key, f: Submission): State {
    var s1 := s.(buckets := s.buckets[key.user := Served(BucketOf(s.buckets, key.user), env.now)]);
    if JudgePublish(s, env, tenant, key, f).Accepted? then
      Broadcast(s1, env, key, Fingerprint(f.number.value, env.now, f.body))
    else s1
  }

  // ---------------------------------------------------------------- runs

  datatype Request =
    | Create(tenant: TenantId, user: UserId, meeting: string)
    | InviteUser(tenant: TenantId, inviter: UserId, room: RoomId, invitee: UserId, known: bool)
    | Accept(tenant: TenantId, user: UserId, invite: InviteId)
    | Join(tenant: TenantId, user: UserId, room: RoomId)
    | Leave(tenant: TenantId, user: UserId, room: RoomId)
    | End(tenant: TenantId, user: UserId, room: RoomId)
    | Tick(page: seq<RoomId>)
    | Presence(online: set<Key>)
    | Expire(key: Key)
    | Publish(tenant: TenantId, key: Key, submission: Submission)

  ghost function Next(s: State, env: Env, r: Request): State {
    match r
    case Create(tenant, user, meeting) => Created(s, env, tenant, user, meeting)
    case InviteUser(tenant, inviter, room, invitee, known) => UserInvited(s, env, tenant, inviter, room, invitee, known)
    case Accept(tenant, user, invite) => InvitationAccepted(s, env, tenant, user, invite)
    case Join(tenant, user, room) => JoinedRoom(s, env, tenant, user, room)
    case Leave(tenant, user, room) => LeftRoom(s, tenant, user, room)
    case End(tenant, user, room) => EndedByCreator(s, env, tenant, user, room)
    case Tick(page) => if IdlePage(s.rooms, page) then RoomsArchived(IdleRoomsEnded(s, env, page), env) else s
    case Presence(online) => s.(presence := online)
    case Expire(key) => s.(lastSeq := s.lastSeq - {key})
    case Publish(tenant, key, f) => Published(s, env, tenant, key, f)
  }

  ghost function Run(trace: seq<(Env, Request)>): State {
    if trace == [] then Empty
    else
      var last := trace[|trace| - 1];
      Next(Run(trace[..|trace| - 1]), last.0, last.1)
  }

  // ---------------------------------------------------------------- the lifecycle of rooms

  ghost predicate GoodRoom(room: Room) {
    && (room.Closed() <==> room.endedAt.Some?)
    && (room.status.ACTIVE? ==> room.startedAt.Some?)
    && (room.status.OPEN? ==> room.startedAt.None?)
  }

  ghost predicate GoodRooms(rooms: seq<Room>) {
    && (forall r :: 0 <= r < |rooms| ==> GoodRoom(rooms[r]))
    && forall t: TenantId :: |InUse(rooms, t)| <= 5
  }

  /** What any later state keeps of a room: who owns it, that it has ended, and when it started. */
  ghost predicate RoomLater(room: Room, room': Room) {
    && room'.tenant == room.tenant && room'.creator == room.creator && room'.meeting == room.meeting
    && (room.Closed() ==> room'.Closed())
    && (room.startedAt.Some? ==> room'.startedAt == room.startedAt)
    && (room.status.ARCHIVED? && room'.status != ARCHIVED ==> room'.status.ENDED?)
  }

  ghost predicate RoomsLater(rooms: seq<Room>, rooms': seq<Room>) {
    && |rooms| <= |rooms'|
    && forall r :: 0 <= r < |rooms| ==> RoomLater(rooms[r], rooms'[r])
  }

  /** Changing existing rooms without reopening any keeps the cap. */
  lemma SameRoomsStayGood(rooms: seq<Room>, rooms': seq<Room>)
    requires GoodRooms(rooms) && |rooms'| == |rooms| && RoomsLater(rooms, rooms')
    requires forall r :: 0 <= r < |rooms| ==> GoodRoom(rooms'[r])
    ensures GoodRooms(rooms')
  {
    forall t: TenantId
      ensures |InUse(rooms', t)| <= MAX_ROOMS
    {
      SubsetSize(InUse(rooms', t), InUse(rooms, t));
    }
  }

  lemma OneMoreInUse(rooms: seq<Room>, room: Room, t: TenantId)
    ensures InUse(rooms + [room], t) ==
            if room.tenant == t && !room.Closed() then InUse(rooms, t) + {|rooms|} else InUse(rooms, t)
  {
  }

  lemma CreatedStaysGood(s: State, env: Env, tenant: TenantId, user: UserId, meeting: string)
    requires GoodRooms(s.rooms)
    ensures GoodRooms(Created(s, env, tenant, user, meeting).rooms)
    ensures RoomsLater(s.rooms, Created(s, env, tenant, user, meeting).rooms)
  {
    var room := Room(tenant, user, meeting, OPEN, map[user := JOINED], None, None, env.now);
    forall t: TenantId
      ensures |InUse(Created(s, env, tenant, user, meeting).rooms, t)| <= MAX_ROOMS
    {
      OneMoreInUse(s.rooms, room, t);
    }
  }

  lemma {:induction false} IdleEndingIsGood(s: State, env: Env, page: seq<RoomId>)
    requires GoodRooms(s.rooms)
    requires forall i :: 0 <= i < |page| ==> page[i] < |s.rooms|
    ensures GoodRooms(IdleRoomsEnded(s, env, page).rooms)
    ensures RoomsLater(s.rooms, IdleRoomsEnded(s, env, page).rooms)
  {
    if page != [] {
      IdleEndingIsGood(s, env, page[..|page| - 1]);
      var before := IdleRoomsEnded(s, env, page[..|page| - 1]);
      SameRoomsStayGood(before.rooms, IdleEnded(before, env, page[|page| - 1]).rooms);
    }
  }

  lemma OneRoomStaysGood(rooms: seq<Room>, r: RoomId, room: Room)
    requires GoodRooms(rooms) && r < |rooms| && GoodRoom(room) && RoomLater(rooms[r], room)
    ensures GoodRooms(rooms[r := room]) && RoomsLater(rooms, rooms[r := room])
  {
    SameRoomsStayGood(rooms, rooms[r := room]);
  }

  lemma InvitingKeepsRooms(s: State, env: Env, tenant: TenantId, inviter: UserId, r: RoomId, invitee: UserId,
                           known: bool)
    requires GoodRooms(s.rooms)
    ensures GoodRooms(UserInvited(s, env, tenant, inviter, r, invitee, known).rooms)
    ensures RoomsLater(s.rooms, UserInvited(s, env, tenant, inviter, r, invitee, known).rooms)
  {
    if r < |s.rooms| {
      OneRoomStaysGood(s.rooms, r, s.rooms[r].(members := s.rooms[r].members[invitee := INVITED]));
    }
  }

  lemma LeavingKeepsRooms(s: State, tenant: TenantId, user: UserId, r: RoomId)
    requires GoodRooms(s.rooms)
    ensures GoodRooms(LeftRoom(s, tenant, user, r).rooms) && RoomsLater(s.rooms, LeftRoom(s, tenant, user, r).rooms)
  {
    if r < |s.rooms| {
      OneRoomStaysGood(s.rooms, r, s.rooms[r].(members := s.rooms[r].members[user := LEFT]));
    }
  }

  lemma AcceptingKeepsRooms(s: State, env: Env, tenant: TenantId, user: UserId, i: InviteId)
    requires GoodRooms(s.rooms)
    ensures GoodRooms(InvitationAccepted(s, env, tenant, user, i).rooms)
    ensures RoomsLater(s.rooms, InvitationAccepted(s, env, tenant, user, i).rooms)
  {
    if i < |s.invites| && s.invites[i].room < |s.rooms| && !s.rooms[s.invites[i].room].Closed() {
      var r := s.invites[i].room;
      OneRoomStaysGood(s.rooms, r, Entered(s.rooms[r], env, user));
    }
  }

  lemma JoiningKeepsRooms(s: State, env: Env, tenant: TenantId, user: UserId, r: RoomId)
    requires GoodRooms(s.rooms)
    ensures GoodRooms(JoinedRoom(s, env, tenant, user, r).rooms)
    ensures RoomsLater(s.rooms, JoinedRoom(s, env, tenant, user, r).rooms)
  {
    if r < |s.rooms| && !s.rooms[r].Closed() {
      OneRoomStaysGood(s.rooms, r, Entered(s.rooms[r], env, user));
    }
  }

  lemma EndingKeepsRooms(s: State, env: Env, tenant: TenantId, user: UserId, r: RoomId)
    requires GoodRooms(s.rooms)
    ensures GoodRooms(EndedByCreator(s, env, tenant, user, r).rooms)
    ensures RoomsLater(s.rooms, EndedByCreator(s, env, tenant, user, r).rooms)
  {
    if r < |s.rooms| {
      OneRoomStaysGood(s.rooms, r, Close(s.rooms[r], env));
    }
  }

  lemma TickKeepsRooms(s: State, env: Env, page: seq<RoomId>)
    requires GoodRooms(s.rooms) && IdlePage(s.rooms, page)
    ensures GoodRooms(RoomsArchived(IdleRoomsEnded(s, env, page), env).rooms)
    ensures RoomsLater(s.rooms, RoomsArchived(IdleRoomsEnded(s, env, page), env).rooms)
  {
    IdleEndingIsGood(s, env, page);
    var ended := IdleRoomsEnded(s, env, page);
    SameRoomsStayGood(ended.rooms, RoomsArchived(ended, env).rooms);
  }

  lemma StepKeepsRooms(s: State, env: Env, r: Request)
    requires GoodRooms(s.rooms)
    ensures GoodRooms(Next(s, env, r).rooms)
    ensures RoomsLater(s.rooms, Next(s, env, r).rooms)
  {
    match r {
      case Create(tenant, user, meeting) => CreatedStaysGood(s, env, tenant, user, meeting);
      case InviteUser(tenant, inviter, room, invitee, known) =>
        InvitingKeepsRooms(s, env, tenant, inviter, room, invitee, known);
      case Accept(tenant, user, i) => AcceptingKeepsRooms(s, env, tenant, user, i);
      case Join(tenant, user, room) => JoiningKeepsRooms(s, env, tenant, user, room);
      case Leave(tenant, user, room) => LeavingKeepsRooms(s, tenant, user, room);
      case End(tenant, user, room) => EndingKeepsRooms(s, env, tenant, user, room);
      case Tick(page) => if IdlePage(s.rooms, page) { TickKeepsRooms(s, env, page); }
      case _ => assert Next(s, env, r).rooms == s.rooms;
    }
  }

  /** In every run a room has ended exactly when its end is dated, an active room has a start, and no
      tenant has more than five rooms open or active. */
  lemma {:induction false} RoomsStayGood(trace: seq<(Env, Request)>)
    ensures GoodRooms(Run(trace).rooms)
  {
    if trace != [] {
      var last := trace[|trace| - 1];
      RoomsStayGood(trace[..|trace| - 1]);
      StepKeepsRooms(Run(trace[..|trace| - 1]), last.0, last.1);
    } else {
      forall t: TenantId
        ensures |InUse([], t)| <= 5
      {
        assert InUse([], t) == {};
      }
    }
  }

  /** Over the rest of any run an ended room stays ended and a start, once dated, is never dated anew. */
  lemma {:induction false} RoomHistory(trace: seq<(Env, Request)>, n: nat)
    requires n <= |trace|
    ensures RoomsLater(Run(trace[..n]).rooms, Run(trace).rooms)
  {
    if n == |trace| {
      assert trace[..n] == trace;
    } else {
      var earlier, last := trace[..|trace| - 1], trace[|trace| - 1];
      assert earlier[..n] == trace[..n];
      RoomHistory(earlier, n);
      RoomsStayGood(earlier);
      StepKeepsRooms(Run(earlier), last.0, last.1);
    }
  }

  // ---------------------------------------------------------------- who may do what

  /** Exactly when a publish is broadcast, and what is: the user has a token left, is joined in a room of its
      tenant that is not over, and submits a well-formed fingerprint of its own for that room and meeting
      whose number is above the last one the cache gives. */
  lemma PublishedExactly(s: State, env: Env, tenant: TenantId, key: Key, f: Submission)
    ensures var sent := Next(s, env, Publish(tenant, key, f)).sent;
            var b := if key.user in s.buckets then s.buckets[key.user] else Bucket(2000, env.now);
            var held := b.tokens + env.now - b.updatedAt;
            if && held >= 100
               && key.room < |s.rooms| && s.rooms[key.room].tenant == tenant
               && s.rooms[key.room].status != ENDED && s.rooms[key.room].status != ARCHIVED
               && key.user in s.rooms[key.room].members && s.rooms[key.room].members[key.user] == JOINED
               && f.user == key.user && f.room == key.room && f.meeting == s.rooms[key.room].meeting
               && f.wellFormed && f.number.Some? && f.number.value >= 0.0
               && (env.up && key in s.lastSeq ==> s.lastSeq[key] < f.number.value)
            then sent == s.sent + [Sent(key, Fingerprint(f.number.value, env.now, f.body))]
            else sent == s.sent
  {
  }

  /** The room's tenant, and its creator or anyone it lists, whatever their status. */
  predicate Sees(room: Room, tenant: TenantId, user: UserId) {
    room.tenant == tenant && (room.creator == user || user in room.members)
  }

  /** Whether a user who `was` standing in the room or not stands in it after the request: creating the room,
      an invitation accepted and joining move in, leaving moves out, nothing else does either. */
  predicate StandsAfter(s: State, s': State, r: Request, room: RoomId, user: UserId, was: bool) {
    match r
    case Create(_, u, _) => if room == |s.rooms| < |s'.rooms| then u == user else was
    case Accept(_, u, i) =>
      || was
      || (u == user && i < |s.invites| && s.invites[i].room == room && i < |s'.invites|
          && s.invites[i].status == PENDING && s'.invites[i].status == ACCEPTED)
    case Join(tenant, u, at) =>
      || was
      || (u == user && at == room < |s.rooms| && Sees(s.rooms[at], tenant, u) && s.rooms[at].endedAt.None?)
    case Leave(tenant, u, at) => was && !(u == user && at == room < |s.rooms| && Sees(s.rooms[at], tenant, u))
    case _ => was
  }

  ghost predicate Standing(trace: seq<(Env, Request)>, room: RoomId, user: UserId) {
    trace != [] &&
    var earlier := trace[..|trace| - 1];
    StandsAfter(Run(earlier), Run(trace), trace[|trace| - 1].1, room, user, Standing(earlier, room, user))
  }

  predicate In(rooms: seq<Room>, room: RoomId, user: UserId) { room < |rooms| && rooms[room].Joined(user) }

  /** In every run the members a room shows as joined are those. */
  lemma {:induction false} JoinedIsStanding(trace: seq<(Env, Request)>, room: RoomId, user: UserId)
    ensures Standing(trace, room, user) <==> In(Run(trace).rooms, room, user)
  {
    if trace != [] {
      var earlier, last := trace[..|trace| - 1], trace[|trace| - 1];
      JoinedIsStanding(earlier, room, user);
      RoomsStayGood(earlier);
      MovesExactly(Run(earlier), last.0, last.1, room, user);
    }
  }

  lemma MovesExactly(s: State, env: Env, r: Request, room: RoomId, user: UserId)
    requires GoodRooms(s.rooms)
    ensures In(Next(s, env, r).rooms, room, user) ==
            StandsAfter(s, Next(s, env, r), r, room, user, In(s.rooms, room, user))
  {
    if r.Tick? {
      if IdlePage(s.rooms, r.page) && room < |s.rooms| {
        IdlePassCloses(s, env, r.page, room);
      }
    } else if r.Accept? {
      AcceptingMoves(s, env, r.tenant, r.user, r.invite, room, user);
    } else if r.Join? || r.Leave? {
      JoiningAndLeavingMove(s, env, r, room, user);
    } else if r.InviteUser? {
      InvitingMovesNobody(s, env, r, room, user);
    }
  }

  lemma AcceptingMoves(s: State, env: Env, tenant: TenantId, u: UserId, i: InviteId, room: RoomId, user: UserId)
    ensures var s' := InvitationAccepted(s, env, tenant, u, i);
            In(s'.rooms, room, user) == StandsAfter(s, s', Accept(tenant, u, i), room, user, In(s.rooms, room, user))
  {
  }

  lemma JoiningAndLeavingMove(s: State, env: Env, r: Request, room: RoomId, user: UserId)
    requires GoodRooms(s.rooms) && (r.Join? || r.Leave?)
    ensures In(Next(s, env, r).rooms, room, user) ==
            StandsAfter(s, Next(s, env, r), r, room, user, In(s.rooms, room, user))
  {
  }

  lemma InvitingMovesNobody(s: State, env: Env, r: Request, room: RoomId, user: UserId)
    requires r.InviteUser?
    ensures In(Next(s, env, r).rooms, room, user) == In(s.rooms, room, user)
  {
  }

  /** Nothing is broadcast for anyone who is not standing in the room at that moment, in a room of its own
      tenant that is not over. */
  lemma BroadcastsAreStanding(trace: seq<(Env, Request)>, env: Env, r: Request)
    requires Next(Run(trace), env, r).sent != Run(trace).sent
    ensures r.Publish? && Standing(trace, r.key.room, r.key.user)
    ensures var s := Run(trace);
            && s.rooms[r.key.room].tenant == r.tenant && s.rooms[r.key.room].endedAt.None?
            && Next(s, env, r).sent == s.sent + [Sent(r.key, Fingerprint(r.submission.number.value, env.now,
                                                                        r.submission.body))]
  {
    if r.Publish? {
      PublishedExactly(Run(trace), env, r.tenant, r.key, r.submission);
      JoinedIsStanding(trace, r.key.room, r.key.user);
      RoomsStayGood(trace);
    } else {
      OnlyPublishSends(Run(trace), env, r);
    }
  }

  /** Exactly when a user is invited, and until when the invitation can be accepted. */
  lemma InvitedExactly(s: State, env: Env, tenant: TenantId, inviter: UserId, r: RoomId, invitee: UserId, known: bool)
    ensures var s' := Next(s, env, InviteUser(tenant, inviter, r, invitee, known));
            if && r < |s.rooms| && s.rooms[r].tenant == tenant
               && s.rooms[r].status != ENDED && s.rooms[r].status != ARCHIVED
               && (s.rooms[r].creator == inviter || s.rooms[r].Joined(inviter))
               && |set u | u in s.rooms[r].members && s.rooms[r].members[u] != LEFT| < 10
               && known && !s.rooms[r].Joined(invitee)
            then s'.invites == s.invites + [Invite(r, invitee, PENDING, env.now + 7 * 86_400_000)]
                 && s'.rooms[r].members == s.rooms[r].members[invitee := INVITED]
            else s' == s
  {
    if r < |s.rooms| {
      assert Counted(s.rooms[r]) == set u | u in s.rooms[r].members && s.rooms[r].members[u] != LEFT;
    }
  }

  // ---------------------------------------------------------------- sequence numbers

  /** What was broadcast for a room and user, in order. */
  function SentOf(sent: seq<Sent>, key: Key): seq<Fingerprint> {
    if sent == [] then []
    else
      var rest := SentOf(sent[..|sent| - 1], key);
      if sent[|sent| - 1].key == key then rest + [sent[|sent| - 1].fingerprint] else rest
  }

  lemma SentOfSnoc(sent: seq<Sent>, e: Sent, key: Key)
    ensures SentOf(sent + [e], key) == if e.key == key then SentOf(sent, key) + [e.fingerprint] else SentOf(sent, key)
  {
    assert (sent + [e])[..|sent|] == sent;
  }

  ghost predicate Rising(h: seq<Fingerprint>) {
    forall i, j :: 0 <= i < j < |h| ==> h[i].number < h[j].number
  }

  predicate ClosedAt(s: State, key: Key) { key.room < |s.rooms| && s.rooms[key.room].Closed() }

  /** While its room is not closed, the cache holds the last number broadcast for the key. */
  ghost predicate Holds(rooms: seq<Room>, lastSeq: map<Key, real>, h: seq<Fingerprint>, key: Key) {
    && Rising(h)
    && (key.room >= |rooms| ==> h == [])
    && (key.room >= |rooms| || !rooms[key.room].Closed() ==>
          if h == [] then key !in lastSeq else key in lastSeq && lastSeq[key] == h[|h| - 1].number)
  }

  ghost predicate Remembered(s: State, key: Key) {
    Holds(s.rooms, s.lastSeq, SentOf(s.sent, key), key)
  }

  /** A number may be forgotten once its room is closed. */
  lemma StillRemembered(s: State, s': State, key: Key)
    requires Remembered(s, key) && s'.sent == s.sent && RoomsLater(s.rooms, s'.rooms)
    requires ClosedAt(s', key) ||
             ((key in s'.lastSeq <==> key in s.lastSeq) && (key in s.lastSeq ==> s'.lastSeq[key] == s.lastSeq[key]))
    ensures Remembered(s', key)
  {
  }

  lemma {:induction false} IdleEndingRemembers(s: State, env: Env, page: seq<RoomId>, key: Key)
    requires Remembered(s, key) && GoodRooms(s.rooms)
    requires forall i :: 0 <= i < |page| ==> page[i] < |s.rooms|
    ensures Remembered(IdleRoomsEnded(s, env, page), key)
  {
    if page != [] {
      var before := IdleRoomsEnded(s, env, page[..|page| - 1]);
      IdleEndingRemembers(s, env, page[..|page| - 1], key);
      StillRemembered(before, IdleEnded(before, env, page[|page| - 1]), key);
    }
  }

  /** A number above the one held is broadcast and held. */
  lemma HoldsNewest(rooms: seq<Room>, lastSeq: map<Key, real>, h: seq<Fingerprint>, key: Key, f: Fingerprint)
    requires Holds(rooms, lastSeq, h, key)
    requires key.room < |rooms| && !rooms[key.room].Closed()
    requires key in lastSeq ==> lastSeq[key] < f.number
    ensures Holds(rooms, lastSeq[key := f.number], h + [f], key)
  {
    var h' := h + [f];
    forall i, j | 0 <= i < j < |h'|
      ensures h'[i].number < h'[j].number
    {
      assert i < |h| - 1 ==> h[i].number < h[|h| - 1].number;
    }
  }

  lemma OthersHold(rooms: seq<Room>, lastSeq: map<Key, real>, h: seq<Fingerprint>, key: Key, other: Key, number: real)
    requires Holds(rooms, lastSeq, h, other) && other != key
    ensures Holds(rooms, lastSeq[key := number], h, other)
  {
  }

  lemma PublishingRemembers(s: State, env: Env, tenant: TenantId, from: Key, f: Submission, key: Key)
    requires Remembered(s, key)
    requires JudgePublish(s, env, tenant, from, f).Accepted?
    requires from == key ==> env.up
    ensures Remembered(Published(s, env, tenant, from, f), key)
  {
    var fp := Fingerprint(f.number.value, env.now, f.body);
    PublishedParts(s, env, tenant, from, f);
    SentOfSnoc(s.sent, Sent(from, fp), key);
    if from == key {
      HoldsNewest(s.rooms, s.lastSeq, SentOf(s.sent, key), key, fp);
    } else {
      OthersHold(s.rooms, s.lastSeq, SentOf(s.sent, key), from, key, fp.number);
    }
  }

  lemma PublishedParts(s: State, env: Env, tenant: TenantId, key: Key, f: Submission)
    requires JudgePublish(s, env, tenant, key, f).Accepted?
    ensures var s' := Published(s, env, tenant, key, f);
            && s'.rooms == s.rooms
            && s'.lastSeq == (if env.up then s.lastSeq[key := f.number.value] else s.lastSeq)
            && s'.sent == s.sent + [Sent(key, Fingerprint(f.number.value, env.now, f.body))]
  {
  }

  lemma EndingRemembers(s: State, env: Env, tenant: TenantId, user: UserId, r: RoomId, key: Key)
    requires Remembered(s, key) && GoodRooms(s.rooms)
    ensures Remembered(EndedByCreator(s, env, tenant, user, r), key)
  {
    EndingKeepsRooms(s, env, tenant, user, r);
    StillRemembered(s, EndedByCreator(s, env, tenant, user, r), key);
  }

  lemma TickRemembers(s: State, env: Env, page: seq<RoomId>, key: Key)
    requires Remembered(s, key) && GoodRooms(s.rooms) && IdlePage(s.rooms, page)
    ensures Remembered(RoomsArchived(IdleRoomsEnded(s, env, page), env), key)
  {
    var ended := IdleRoomsEnded(s, env, page);
    IdleEndingRemembers(s, env, page, key);
    StillRemembered(ended, RoomsArchived(ended, env), key);
  }

  /** The cache misses a number broadcast for the key, or drops one, while the room is not closed. */
  ghost predicate Forgets(s: State, env: Env, r: Request, key: Key) {
    || (r.Publish? && r.key == key && !env.up && JudgePublish(s, env, r.tenant, key, r.submission).Accepted?)
    || (r.Expire? && r.key == key && !ClosedAt(s, key))
  }

  lemma StepRemembers(s: State, env: Env, r: Request, key: Key)
    requires Remembered(s, key) && GoodRooms(s.rooms) && !Forgets(s, env, r, key)
    ensures Remembered(Next(s, env, r), key)
  {
    if r.Publish? {
      if JudgePublish(s, env, r.tenant, r.key, r.submission).Accepted? {
        PublishingRemembers(s, env, r.tenant, r.key, r.submission, key);
      }
    } else if r.End? {
      EndingRemembers(s, env, r.tenant, r.user, r.room, key);
    } else if r.Tick? {
      if IdlePage(s.rooms, r.page) {
        TickRemembers(s, env, r.page, key);
      }
    } else {
      OtherStepRemembers(s, env, r, key);
    }
  }

  lemma OtherStepRemembers(s: State, env: Env, r: Request, key: Key)
    requires Remembered(s, key) && GoodRooms(s.rooms) && !Forgets(s, env, r, key)
    requires !r.Publish? && !r.End? && !r.Tick?
    ensures Remembered(Next(s, env, r), key)
  {
    StepKeepsRooms(s, env, r);
    StillRemembered(s, Next(s, env, r), key);
  }

  /** The cache could be reached whenever a number of this room and user was broadcast, and kept it as
      long as the room was not closed. What it did for other rooms and users does not matter. */
  ghost predicate Steady(trace: seq<(Env, Request)>, key: Key) {
    trace != [] ==>
      var earlier, last := trace[..|trace| - 1], trace[|trace| - 1];
      Steady(earlier, key) && !Forgets(Run(earlier), last.0, last.1, key)
  }

  lemma {:induction false} RunRemembers(trace: seq<(Env, Request)>, key: Key)
    requires Steady(trace, key)
    ensures Remembered(Run(trace), key)
  {
    if trace != [] {
      var earlier, last := trace[..|trace| - 1], trace[|trace| - 1];
      RunRemembers(earlier, key);
      RoomsStayGood(earlier);
      StepRemembers(Run(earlier), last.0, last.1, key);
    }
  }

  /** The numbers broadcast for a room and user strictly increase over the room's whole life, although
      closing a room makes the cache forget the last one. */
  lemma NumbersRise(trace: seq<(Env, Request)>, key: Key)
    requires Steady(trace, key)
    ensures Rising(SentOf(Run(trace).sent, key))
  {
    RunRemembers(trace, key);
  }

  /** In any state, exactly when a publish breaks the rise: it would pass with the filter off, its number
      is no greater than the last one broadcast, and the cache is down, has lost the key or holds a
      smaller number. */
  lemma RiseBreaksExactly(s: State, env: Env, tenant: TenantId, key: Key, f: Submission)
    requires Rising(SentOf(s.sent, key))
    ensures !Rising(SentOf(Published(s, env, tenant, key, f).sent, key)) <==>
            var h := SentOf(s.sent, key);
            && JudgePublish(s, env.(up := false), tenant, key, f).Accepted?
            && h != [] && f.number.value <= h[|h| - 1].number
            && (!env.up || key !in s.lastSeq || s.lastSeq[key] < f.number.value)
  {
    var h := SentOf(s.sent, key);
    if JudgePublish(s, env, tenant, key, f).Accepted? {
      var fp := Fingerprint(f.number.value, env.now, f.body);
      PublishedParts(s, env, tenant, key, f);
      SentOfSnoc(s.sent, Sent(key, fp), key);
      RisingSnoc(h, fp);
    }
  }

  lemma RisingSnoc(h: seq<Fingerprint>, f: Fingerprint)
    requires Rising(h)
    ensures Rising(h + [f]) <==> h == [] || h[|h| - 1].number < f.number
  {
    var h' := h + [f];
    if h != [] && h[|h| - 1].number < f.number {
      forall i, j | 0 <= i < j < |h'|
        ensures h'[i].number < h'[j].number
      {
        assert i < |h| - 1 ==> h[i].number < h[|h| - 1].number;
      }
    } else if h != [] {
      assert h'[|h| - 1] == h[|h| - 1] && h'[|h|] == f;
    }
  }

  const SPEAKER := Key(0, 0)
  function Saying(number: real): Request { Publish(0, SPEAKER, Submission(0, 0, "m", Some(number), 0, true)) }

  /** A room in which the number 5 was broadcast. */
  function OneSaid(): seq<(Env, Request)> { [(Env(0, true), Create(0, 0, "m")), (Env(0, true), Saying(5.0))] }

  ghost predicate IsOneSaid(s: State) {
    && s.rooms == [Room(0, 0, "m", OPEN, map[0 := JOINED], None, None, 0)]
    && s.buckets == map[0 := Bucket(FULL - COST, 0)]
    && SentOf(s.sent, SPEAKER) == [Fingerprint(5.0, 0, 0)]
  }

  lemma RunSnoc(trace: seq<(Env, Request)>, last: (Env, Request))
    ensures Run(trace + [last]) == Next(Run(trace), last.0, last.1)
  {
    assert (trace + [last])[..|trace|] == trace;
  }

  lemma OneIsSaid()
    ensures IsOneSaid(Run(OneSaid()))
  {
    var s1 := Created(Empty, Env(0, true), 0, 0, "m");
    assert InUse([], 0) == {};
    RunSnoc([], OneSaid()[0]);
    RunSnoc([] + [OneSaid()[0]], OneSaid()[1]);
    assert OneSaid() == [] + [OneSaid()[0]] + [OneSaid()[1]];
    PublishedParts(s1, Env(0, true), 0, SPEAKER, Saying(5.0).submission);
    SentOfSnoc([], Sent(SPEAKER, Fingerprint(5.0, 0, 0)), SPEAKER);
  }

  lemma ThreeFallsBelow(s: State, env: Env)
    requires IsOneSaid(s) && env.now == 0 && (!env.up || SPEAKER !in s.lastSeq)
    ensures !Rising(SentOf(Next(s, env, Saying(3.0)).sent, SPEAKER))
  {
    var f := Saying(3.0).submission;
    assert JudgePublish(s, env, 0, SPEAKER, f).Accepted?;
    PublishedParts(s, env, 0, SPEAKER, f);
    SentOfSnoc(s.sent, Sent(SPEAKER, Fingerprint(3.0, 0, 0)), SPEAKER);
    RisingSnoc([Fingerprint(5.0, 0, 0)], Fingerprint(3.0, 0, 0));
  }

  /** Runs in which the numbers of a room that is open fall: the cache cannot be reached for one
      publish, or the number it held has expired. */
  lemma NumbersMayFall()
    ensures !Rising(SentOf(Run(OneSaid() + [(Env(0, false), Saying(3.0))]).sent, SPEAKER))
    ensures !Rising(SentOf(Run(OneSaid() + [(Env(0, true), Expire(SPEAKER))] + [(Env(0, true), Saying(3.0))]).sent,
                           SPEAKER))
  {
    var expiry := (Env(0, true), Expire(SPEAKER));
    OneIsSaid();
    RunSnoc(OneSaid(), (Env(0, false), Saying(3.0)));
    ThreeFallsBelow(Run(OneSaid()), Env(0, false));
    RunSnoc(OneSaid(), expiry);
    RunSnoc(OneSaid() + [expiry], (Env(0, true), Saying(3.0)));
    ThreeFallsBelow(Run(OneSaid() + [expiry]), Env(0, true));
  }

  // ---------------------------------------------------------------- micro-batches

  function Concat(bs: seq<Batch>): seq<Fingerprint> {
    if bs == [] then [] else Concat(bs[..|bs| - 1]) + bs[|bs| - 1].fingerprints
  }

  /** Full batches with true ends, then fewer than five more, make up `h`. */
  ghost predicate CutIntoFives(bs: seq<Batch>, pending: seq<Fingerprint>, h: seq<Fingerprint>) {
    && Concat(bs) + pending == h
    && |pending| < 5
    && forall b :: 0 <= b < |bs| ==> |bs[b].fingerprints| == 5 && bs[b] == BatchOf(bs[b].fingerprints)
  }

  ghost predicate Batched(s: State, key: Key) {
    CutIntoFives(FlushedOf(s, key), PendingOf(s, key), SentOf(s.sent, key))
  }

  lemma OneMoreCut(bs: seq<Batch>, pending: seq<Fingerprint>, h: seq<Fingerprint>, f: Fingerprint)
    requires CutIntoFives(bs, pending, h)
    ensures |pending| + 1 < BATCH ==> CutIntoFives(bs, pending + [f], h + [f])
    ensures |pending| + 1 == BATCH ==> CutIntoFives(bs + [BatchOf(pending + [f])], [], h + [f])
  {
    var b := BatchOf(pending + [f]);
    assert (bs + [b])[..|bs|] == bs;
    assert Concat(bs + [b]) == Concat(bs) + (pending + [f]);
  }

  /** Enqueueing adds to one key's batch, flushing it at five, and leaves the other keys' alone. */
  lemma EnqueueTouchesOneKey(s: State, env: Env, key: Key, f: Fingerprint, other: Key)
    ensures var s' := Broadcast(s, env, key, f);
            var batch := PendingOf(s, key) + [f];
            if other != key then
              PendingOf(s', other) == PendingOf(s, other) && FlushedOf(s', other) == FlushedOf(s, other)
            else if |batch| >= BATCH then
              PendingOf(s', key) == [] && FlushedOf(s', key) == FlushedOf(s, key) + [BatchOf(batch)]
            else PendingOf(s', key) == batch && FlushedOf(s', key) == FlushedOf(s, key)
  {
  }

  lemma EnqueueKeepsBatched(s: State, env: Env, key: Key, f: Fingerprint, other: Key)
    requires Batched(s, other)
    ensures Batched(Broadcast(s, env, key, f), other)
  {
    EnqueueTouchesOneKey(s, env, key, f, other);
    assert Broadcast(s, env, key, f).sent == s.sent + [Sent(key, f)];
    SentOfSnoc(s.sent, Sent(key, f), other);
    if other == key {
      OneMoreCut(FlushedOf(s, key), PendingOf(s, key), SentOf(s.sent, key), f);
    }
  }

  lemma {:induction false} IdleEndingBatches(s: State, env: Env, page: seq<RoomId>)
    requires forall i :: 0 <= i < |page| ==> page[i] < |s.rooms|
    ensures IdleRoomsEnded(s, env, page).sent == s.sent
    ensures IdleRoomsEnded(s, env, page).pending == s.pending && IdleRoomsEnded(s, env, page).flushed == s.flushed
    ensures IdleRoomsEnded(s, env, page).buckets == s.buckets
  {
    if page != [] {
      IdleEndingBatches(s, env, page[..|page| - 1]);
    }
  }

  /** Only publishing touches what was sent, the batches and the rate buckets. */
  ghost predicate SendsNothing(s: State, s': State) {
    s'.sent == s.sent && s'.buckets == s.buckets && s'.pending == s.pending && s'.flushed == s.flushed
  }

  lemma EntrySendsNothing(s: State, env: Env, tenant: TenantId, user: UserId, i: InviteId, r: RoomId)
    ensures SendsNothing(s, InvitationAccepted(s, env, tenant, user, i))
    ensures SendsNothing(s, JoinedRoom(s, env, tenant, user, r)) && SendsNothing(s, LeftRoom(s, tenant, user, r))
  {
  }

  lemma OnlyPublishSends(s: State, env: Env, r: Request)
    requires !r.Publish?
    ensures SendsNothing(s, Next(s, env, r))
  {
    match r {
      case Accept(tenant, user, i) => EntrySendsNothing(s, env, tenant, user, i, 0);
      case Join(tenant, user, room) => EntrySendsNothing(s, env, tenant, user, 0, room);
      case Leave(tenant, user, room) => EntrySendsNothing(s, env, tenant, user, 0, room);
      case Tick(page) => if IdlePage(s.rooms, page) { IdleEndingBatches(s, env, page); }
      case _ =>
    }
  }

  /** In every run, whatever the cache does: the batches handed over followed by the pending one are
      exactly the fingerprints broadcast, in order, cut into fives. */
  lemma {:induction false} BatchesAreTheBroadcasts(trace: seq<(Env, Request)>, key: Key)
    ensures Batched(Run(trace), key)
  {
    if trace != [] {
      var earlier, last := trace[..|trace| - 1], trace[|trace| - 1];
      BatchesAreTheBroadcasts(earlier, key);
      StepKeepsBatched(Run(earlier), last.0, last.1, key);
    }
  }

  lemma StepKeepsBatched(s: State, env: Env, r: Request, key: Key)
    requires Batched(s, key)
    ensures Batched(Next(s, env, r), key)
  {
    if r.Publish? {
      var s1 := s.(buckets := s.buckets[r.key.user := Served(BucketOf(s.buckets, r.key.user), env.now)]);
      assert Batched(s1, key);
      if JudgePublish(s, env, r.tenant, r.key, r.submission).Accepted? {
        EnqueueKeepsBatched(s1, env, r.key, Fingerprint(r.submission.number.value, env.now, r.submission.body), key);
      }
    } else {
      OnlyPublishSends(s, env, r);
    }
  }

  lemma {:induction false} ConcatAt(bs: seq<Batch>, b: nat, i: nat)
    requires forall k :: 0 <= k < |bs| ==> |bs[k].fingerprints| == BATCH
    requires b < |bs| && i < BATCH
    ensures |Concat(bs)| == BATCH * |bs|
    ensures Concat(bs)[BATCH * b + i] == bs[b].fingerprints[i]
  {
    var n := |bs| - 1;
    if n > 0 {
      ConcatAt(bs[..n], if b < n then b else 0, i);
    }
  }

  /** The range a batch states is the least and the greatest number in it. */
  lemma RangeIsTrue(trace: seq<(Env, Request)>, key: Key, b: nat, i: nat)
    requires Steady(trace, key)
    requires b < |FlushedOf(Run(trace), key)| && i < 5
    ensures var batch := FlushedOf(Run(trace), key)[b];
            && |batch.fingerprints| == 5 && batch.at == batch.fingerprints[4].at
            && batch.low == batch.fingerprints[0].number && batch.high == batch.fingerprints[4].number
            && batch.low <= batch.fingerprints[i].number <= batch.high
  {
    BatchesAreTheBroadcasts(trace, key);
    NumbersRise(trace, key);
    var bs := FlushedOf(Run(trace), key);
    ConcatAt(bs, b, 0);
    ConcatAt(bs, b, i);
    ConcatAt(bs, b, BATCH - 1);
    assert SentOf(Run(trace).sent, key)[..|Concat(bs)|] == Concat(bs);
  }

  // ---------------------------------------------------------------- the broadcast rate

  /** The publish attempts of a run, as the rate limiter sees them. */
  function AttemptsOf(trace: seq<(Env, Request)>): seq<Attempt> {
    if trace == [] then []
    else WithAttempt(AttemptsOf(trace[..|trace| - 1]), trace[|trace| - 1].0, trace[|trace| - 1].1)
  }

  function SentSince(sent: seq<Sent>, user: UserId, lo: Time): nat {
    if sent == [] then 0
    else
      var last := sent[|sent| - 1];
      SentSince(sent[..|sent| - 1], user, lo) + (if last.key.user == user && last.fingerprint.at >= lo then 1 else 0)
  }

  function AdmittedSince(h: seq<Call>, lo: Time): nat {
    if h == [] then 0
    else
      var last := h[|h| - 1];
      AdmittedSince(h[..|h| - 1], lo) + (if last.admitted && last.at >= lo then 1 else 0)
  }

  lemma ServeSnoc(attempts: seq<Attempt>, a: Attempt)
    ensures var (log, buckets) := Serve(attempts);
            Serve(attempts + [a]) == (log + [Entry(a.user, Call(a.at, Level(BucketOf(buckets, a.user), a.at) >= COST))],
                                      buckets[a.user := Served(BucketOf(buckets, a.user), a.at)])
  {
    assert (attempts + [a])[..|attempts|] == attempts;
  }

  lemma CallsOfSnoc(log: seq<Entry>, e: Entry, user: UserId)
    ensures CallsOf(log + [e], user) == if e.user == user then CallsOf(log, user) + [e.call] else CallsOf(log, user)
  {
    assert (log + [e])[..|log|] == log;
  }

  lemma AdmittedSinceSnoc(h: seq<Call>, c: Call, lo: Time)
    ensures AdmittedSince(h + [c], lo) == AdmittedSince(h, lo) + (if c.admitted && c.at >= lo then 1 else 0)
  {
    assert (h + [c])[..|h|] == h;
  }

  lemma SentSinceSnoc(sent: seq<Sent>, e: Sent, user: UserId, lo: Time)
    ensures SentSince(sent + [e], user, lo) ==
            SentSince(sent, user, lo) + (if e.key.user == user && e.fingerprint.at >= lo then 1 else 0)
  {
    assert (sent + [e])[..|sent|] == sent;
  }

  /** The gateway's buckets are those of the limiter, and every broadcast since `lo` spent a token. */
  ghost predicate SpendsTokens(s: State, attempts: seq<Attempt>, user: UserId, lo: Time) {
    && s.buckets == Serve(attempts).1
    && SentSince(s.sent, user, lo) <= AdmittedSince(CallsOf(Serve(attempts).0, user), lo)
  }

  lemma OneBroadcast(s: State, env: Env, tenant: TenantId, key: Key, f: Submission,
                     attempts: seq<Attempt>, user: UserId, lo: Time)
    requires SpendsTokens(s, attempts, user, lo)
    ensures SpendsTokens(Published(s, env, tenant, key, f), attempts + [Attempt(key.user, env.now)], user, lo)
  {
    var call := Call(env.now, Level(BucketOf(s.buckets, key.user), env.now) >= COST);
    var log := Serve(attempts).0;
    ServeSnoc(attempts, Attempt(key.user, env.now));
    CallsOfSnoc(log, Entry(key.user, call), user);
    AdmittedSinceSnoc(CallsOf(log, user), call, lo);
    if JudgePublish(s, env, tenant, key, f).Accepted? {
      SentSinceSnoc(s.sent, Sent(key, Fingerprint(f.number.value, env.now, f.body)), user, lo);
    }
  }

  function WithAttempt(attempts: seq<Attempt>, env: Env, r: Request): seq<Attempt> {
    if r.Publish? then attempts + [Attempt(r.key.user, env.now)] else attempts
  }

  lemma StepSpendsTokens(s: State, env: Env, r: Request, attempts: seq<Attempt>, user: UserId, lo: Time)
    requires SpendsTokens(s, attempts, user, lo)
    ensures SpendsTokens(Next(s, env, r), WithAttempt(attempts, env, r), user, lo)
  {
    if r.Publish? {
      OneBroadcast(s, env, r.tenant, r.key, r.submission, attempts, user, lo);
    } else {
      OnlyPublishSends(s, env, r);
    }
  }

  lemma {:induction false} BroadcastsSpendTokens(trace: seq<(Env, Request)>, user: UserId, lo: Time)
    ensures SpendsTokens(Run(trace), AttemptsOf(trace), user, lo)
  {
    if trace != [] {
      var earlier, last := trace[..|trace| - 1], trace[|trace| - 1];
      BroadcastsSpendTokens(earlier, user, lo);
      StepSpendsTokens(Run(earlier), last.0, last.1, AttemptsOf(earlier), user, lo);
    }
  }

  lemma {:induction false} SinceFirst(h: seq<Call>, lo: Time, i: nat)
    requires i <= |h|
    requires forall k :: 0 <= k < i ==> h[k].at < lo
    requires forall k :: i <= k < |h| ==> h[k].at >= lo
    ensures AdmittedSince(h, lo) == AdmittedFrom(h, i)
  {
    if h != [] {
      var n := |h| - 1;
      assert h[..n] + [h[n]] == h;
      if i <= n {
        SinceFirst(h[..n], lo, i);
        AdmittedAfter(h[..n], h[n], i);
      } else {
        SinceFirst(h[..n], lo, n);
      }
    }
  }

  lemma AdmittedSinceBound(times: seq<Time>, lo: Time, hi: Time)
    requires InOrder(times) && lo <= hi
    requires forall k :: 0 <= k < |times| ==> times[k] <= hi
    ensures COST * AdmittedSince(ByRule(times), lo) <= FULL + (hi - lo)
  {
    var i := 0;
    while i < |times| && times[i] < lo
      invariant i <= |times|
      invariant forall k :: 0 <= k < i ==> times[k] < lo
    {
      i := i + 1;
    }
    SinceFirst(ByRule(times), lo, i);
    if i < |times| {
      SpanToEnd(times, i);
    }
  }

  /** The clock of the trace never goes back and has not passed `hi`. */
  ghost predicate ClockedUpTo(trace: seq<(Env, Request)>, hi: Time) {
    trace != [] ==>
      trace[|trace| - 1].0.now <= hi && ClockedUpTo(trace[..|trace| - 1], trace[|trace| - 1].0.now)
  }

  lemma TimesOfSnoc(attempts: seq<Attempt>, a: Attempt, user: UserId)
    ensures TimesOf(attempts + [a], user) ==
            if a.user == user then TimesOf(attempts, user) + [a.at] else TimesOf(attempts, user)
  {
    assert (attempts + [a])[..|attempts|] == attempts;
  }

  predicate OrderedUpTo(times: seq<Time>, hi: Time) {
    InOrder(times) && forall k :: 0 <= k < |times| ==> times[k] <= hi
  }

  lemma {:induction false} TimesInOrder(trace: seq<(Env, Request)>, user: UserId, hi: Time)
    requires ClockedUpTo(trace, hi)
    ensures OrderedUpTo(TimesOf(AttemptsOf(trace), user), hi)
  {
    if trace != [] {
      var earlier, last := trace[..|trace| - 1], trace[|trace| - 1];
      TimesInOrder(earlier, user, last.0.now);
      if last.1.Publish? {
        TimesOfSnoc(AttemptsOf(earlier), Attempt(last.1.key.user, last.0.now), user);
      }
    }
  }

  /** At any moment `hi` of any run, whatever rooms a user publishes to and however they open, close
      and are left: the fingerprints broadcast for the user since `lo` are at most 20 plus 10 a second. */
  lemma BroadcastRate(trace: seq<(Env, Request)>, user: UserId, lo: Time, hi: Time)
    requires ClockedUpTo(trace, hi) && lo <= hi
    ensures 100 * SentSince(Run(trace).sent, user, lo) <= 2000 + (hi - lo)
  {
    BroadcastsSpendTokens(trace, user, lo);
    TimesInOrder(trace, user, hi);
    UsersAreIndependent(AttemptsOf(trace), user);
    AdmittedSinceBound(TimesOf(AttemptsOf(trace), user), lo, hi);
  }

  // ---------------------------------------------------------------- what a turn of the timer does

  function IdleAmong(s: State, env: Env, page: seq<RoomId>): set<RoomId> {
    set r | r in page && r < |s.rooms| && Idle(s, env, r)
  }

  function AllDue(rooms: seq<Room>, env: Env): set<RoomId> {
    set r: RoomId | r < |rooms| && Due(rooms[r], env)
  }

  /** The idle pass closes exactly the rooms of its page that were idle when it began, and closing some
      does not make others idle or busy. */
  lemma {:induction false} IdlePassCloses(s: State, env: Env, page: seq<RoomId>, r: RoomId)
    requires r < |s.rooms| && forall i :: 0 <= i < |page| ==> page[i] < |s.rooms|
    requires forall i, j :: 0 <= i < j < |page| ==> page[i] != page[j]
    ensures var s' := IdleRoomsEnded(s, env, page);
            && s'.rooms[r] == (if r in IdleAmong(s, env, page) then Close(s.rooms[r], env) else s.rooms[r])
            && (r !in page ==> Idle(s', env, r) == Idle(s, env, r))
  {
    if page != [] {
      var earlier, last := page[..|page| - 1], page[|page| - 1];
      assert page == earlier + [last];
      assert last !in earlier;
      IdlePassCloses(s, env, earlier, r);
      IdlePassCloses(s, env, earlier, last);
      ClosingIsLocal(IdleRoomsEnded(s, env, earlier), env, last, r);
    }
  }

  lemma ClosingIsLocal(s: State, env: Env, last: RoomId, r: RoomId)
    requires last < |s.rooms| && r < |s.rooms|
    ensures var s' := IdleEnded(s, env, last);
            && s'.rooms[r] == (if r == last && Idle(s, env, last) then Close(s.rooms[r], env) else s.rooms[r])
            && (r != last ==> Idle(s', env, r) == Idle(s, env, r))
  {
    if r != last && env.up {
      var s' := IdleEnded(s, env, last);
      assert forall u :: Key(r, u) in s'.presence <==> Key(r, u) in s.presence;
      assert forall u :: u in PresentIn(s', r) <==> Key(r, u) in s'.presence;
      assert forall u :: u in PresentIn(s, r) <==> Key(r, u) in s.presence;
      assert PresentIn(s', r) == PresentIn(s, r);
    }
  }

  lemma OneMoreIdle(s: State, env: Env, page: seq<RoomId>, r: RoomId)
    requires r !in page && r < |s.rooms|
    ensures |IdleAmong(s, env, page + [r])| == |IdleAmong(s, env, page)| + (if Idle(s, env, r) then 1 else 0)
  {
    assert IdleAmong(s, env, page + [r]) ==
           if Idle(s, env, r) then IdleAmong(s, env, page) + {r} else IdleAmong(s, env, page);
  }

  /** A room ended in a turn of the timer is not archived in the same turn. */
  lemma JustEndedNotDue(s: State, env: Env, page: seq<RoomId>)
    requires IdlePage(s.rooms, page)
    ensures AllDue(IdleRoomsEnded(s, env, page).rooms, env) == AllDue(s.rooms, env)
  {
    forall r: RoomId | r < |s.rooms|
      ensures Due(IdleRoomsEnded(s, env, page).rooms[r], env) == Due(s.rooms[r], env)
    {
      IdlePassCloses(s, env, page, r);
    }
  }

  /** After a turn of the timer the archived rooms are those that were and those that ended a day ago. */
  lemma ArchivedExactly(s: State, env: Env, page: seq<RoomId>)
    requires IdlePage(s.rooms, page)
    ensures var rooms := Archive(IdleRoomsEnded(s, env, page).rooms, env);
            |rooms| == |s.rooms| && forall r :: 0 <= r < |rooms| ==>
              (rooms[r].status.ARCHIVED? <==>
                 || s.rooms[r].status.ARCHIVED?
                 || (s.rooms[r].status.ENDED? && s.rooms[r].endedAt.Some?
                     && env.now - s.rooms[r].endedAt.value >= 86_400_000))
  {
    var ended := IdleRoomsEnded(s, env, page).rooms;
    forall r | 0 <= r < |s.rooms|
      ensures ended[r] == s.rooms[r] || (s.rooms[r].status.ACTIVE? && ended[r] == Close(s.rooms[r], env))
    {
      IdlePassCloses(s, env, page, r);
    }
  }

  // ---------------------------------------------------------------- the services

  lemma OneKeyChanged(before: map<Key, real>, after: map<Key, real>, key: Key)
    requires key in after && after - {key} == before - {key}
    ensures after == before[key := after[key]]
  {
    forall k | k != key
      ensures k in after <==> k in before
      ensures k in before ==> after[k] == before[k]
    {
      assert k in after - {key} <==> k in before - {key};
      assert k in before ==> (after - {key})[k] == (before - {key})[k];
    }
  }

  /** The rooms service, its lifecycle timer, the gateway and the fingerprint service over one state. */
  class SellerRoomServer {
    const limiter: RateLimiter
    var rooms: seq<Room>
    var invites: seq<Invite>
    var presence: set<Key>
    var lastSeq: map<Key, real>
    var pending: map<Key, seq<Fingerprint>>
    var flushed: map<Key, seq<Batch>>
    var sent: seq<Sent>

    ghost function Current(): State
      reads this, limiter
    {
      State(rooms, invites, presence, lastSeq, limiter.buckets, pending, flushed, sent)
    }

    constructor ()
      ensures Current() == Empty && fresh(limiter)
    {
      limiter := new RateLimiter();
      rooms, invites, presence, lastSeq := [], [], {}, map[];
      pending, flushed, sent := map[], map[], [];
    }

    method CreateRoom(env: Env, tenant: TenantId, user: UserId, meeting: string) returns (id: Option<RoomId>)
      modifies this`rooms
      ensures Current() == Created(old(Current()), env, tenant, user, meeting)
      ensures id == if |rooms| == |old(rooms)| then None else Some(|old(rooms)|)
      ensures id.Some? <==> |InUse(old(rooms), tenant)| < 5
      ensures id.Some? ==> rooms[id.value].tenant == tenant && rooms[id.value].creator == user
      ensures id.Some? ==> rooms[id.value].status.OPEN? && rooms[id.value].Joined(user)
      ensures id.Some? ==> rooms[id.value].meeting == meeting
    {
      var activeCount := |InUse(rooms, tenant)|;
      if activeCount >= MAX_ROOMS {
        return None;
      }
      id := Some(|rooms|);
      rooms := rooms + [Room(tenant, user, meeting, OPEN, map[user := JOINED], None, None, env.now)];
    }

    method AcceptInvitation(env: Env, tenant: TenantId, user: UserId, i: InviteId) returns (ok: bool)
      modifies this`rooms, this`invites
      ensures Current() == InvitationAccepted(old(Current()), env, tenant, user, i)
      ensures ok <==> i < |old(invites)| && old(invites)[i].status == PENDING && invites[i].status == ACCEPTED
      ensures ok <==> && i < |old(invites)| && old(invites)[i].invitee == user && old(invites)[i].status == PENDING
                      && old(invites)[i].room < |rooms| && rooms[old(invites)[i].room].tenant == tenant
                      && env.now <= old(invites)[i].expiresAt && !old(rooms)[old(invites)[i].room].Closed()
      ensures ok ==> var room := rooms[old(invites)[i].room];
                     room.Joined(user) && room.status.ACTIVE? && (old(rooms)[old(invites)[i].room].status.OPEN? ==>
                                                                    room.startedAt == Some(env.now))
    {
      if i >= |invites| || invites[i].invitee != user || invites[i].room >= |rooms| {
        return false;
      }
      var invite := invites[i];
      var room := rooms[invite.room];
      if room.tenant != tenant || invite.status != PENDING {
        return false;
      }
      if invite.expiresAt < env.now {
        invites := invites[i := invite.(status := EXPIRED)];
        return false;
      }
      if room.Closed() {
        return false;
      }
      invites := invites[i := invite.(status := ACCEPTED)];
      room := room.(members := room.members[user := JOINED]);
      if room.status.OPEN? {
        room := room.(status := ACTIVE, startedAt := Some(env.now), updatedAt := env.now);
      }
      rooms := rooms[invite.room := room];
      return true;
    }

    method JoinRoom(env: Env, tenant: TenantId, user: UserId, r: RoomId) returns (ok: bool)
      modifies this`rooms
      ensures Current() == JoinedRoom(old(Current()), env, tenant, user, r)
      ensures ok <==> && r < |old(rooms)| && old(rooms)[r].tenant == tenant
                      && (old(rooms)[r].creator == user || user in old(rooms)[r].members)
                      && old(rooms)[r].status != ENDED && old(rooms)[r].status != ARCHIVED
      ensures ok && !old(rooms)[r].startedAt.Some? && old(rooms)[r].status.OPEN? ==> rooms[r].startedAt == Some(env.now)
      ensures ok ==> rooms[r].Joined(user) && rooms[r].status.ACTIVE?
    {
      if r >= |rooms| || !rooms[r].Accessible(tenant, user) {
        return false;
      }
      var room := rooms[r];
      if room.Closed() {
        return false;
      }
      rooms := rooms[r := room.(members := room.members[user := JOINED])];
      if room.status.OPEN? {
        rooms := rooms[r := rooms[r].(status := ACTIVE, startedAt := Some(env.now), updatedAt := env.now)];
      }
      return true;
    }

    method PurgeRoom(env: Env, r: RoomId, users: set<UserId>)
      modifies this`lastSeq, this`presence
      ensures forall k :: k in lastSeq <==>
                k in old(lastSeq) && !(env.up && k.room == r && (k.user in users || k in old(presence)))
      ensures forall k :: k in lastSeq ==> lastSeq[k] == old(lastSeq)[k]
      ensures forall k :: k in presence <==> k in old(presence) && !(env.up && k.room == r)
      ensures Current() == Purged(old(Current()), env, r, users)
    {
      if !env.up {
        return;
      }
      var userIds := users + (set k | k in presence && k.room == r :: k.user);
      var gone := set u | u in userIds :: Key(r, u);
      lastSeq := lastSeq - gone;
      presence := set k | k in presence && k.room != r;
    }

    method EndRoom(env: Env, tenant: TenantId, user: UserId, r: RoomId) returns (ok: bool)
      modifies this`rooms, this`lastSeq, this`presence
      ensures Current() == EndedByCreator(old(Current()), env, tenant, user, r)
      ensures ok <==> r < |old(rooms)| && old(rooms)[r].tenant == tenant && old(rooms)[r].creator == user
      ensures ok ==> rooms[r].status.ENDED? && rooms[r].endedAt == Some(env.now)
      ensures ok && env.up ==> forall u :: u in rooms[r].members ==> Key(r, u) !in lastSeq && Key(r, u) !in presence
    {
      if r >= |rooms| || !rooms[r].Accessible(tenant, user) {
        return false;
      }
      var room := rooms[r];
      if room.creator != user {
        return false;
      }
      rooms := rooms[r := room.(status := ENDED, endedAt := Some(env.now), updatedAt := env.now)];
      PurgeRoom(env, r, room.members.Keys);
      return true;
    }

    /** The idle check of one room. */
    method EndIfIdle(env: Env, r: RoomId) returns (ended: bool)
      requires r < |rooms|
      modifies this`rooms, this`lastSeq, this`presence
      ensures Current() == IdleEnded(old(Current()), env, r)
      ensures ended == old(Idle(Current(), env, r))
      ensures ended <==> (env.up ==> forall k :: k in old(presence) ==> k.room != r)
                         && env.now - old(rooms)[r].updatedAt >= 60_000
      ensures ended ==> rooms[r].status.ENDED? && rooms[r].endedAt == Some(env.now)
      ensures ended && env.up ==> forall u :: u in rooms[r].members && rooms[r].members[u] == JOINED ==>
                                    Key(r, u) !in lastSeq
    {
      var room := rooms[r];
      var online := if env.up then set k | k in presence && k.room == r :: k.user else {};
      assert online == Online(Current(), env, r);
      assert forall k :: env.up && k in presence && k.room == r ==> k.user in online;
      if |online| > 0 {
        return false;
      }
      assert online == {};
      var idle := env.now - room.updatedAt;
      if idle < IDLE_TIMEOUT {
        return false;
      }
      rooms := rooms[r := room.(status := ENDED, endedAt := Some(env.now), updatedAt := env.now)];
      PurgeRoom(env, r, JoinedMembers(room));
      return true;
    }

    /** The timer's idle pass: `page` is what the query for active rooms returned. */
    method EndIdleRooms(env: Env, page: seq<RoomId>) returns (ended: nat)
      requires IdlePage(rooms, page)
      modifies this`rooms, this`lastSeq, this`presence
      ensures Current() == IdleRoomsEnded(old(Current()), env, page)
      ensures ended == |IdleAmong(old(Current()), env, page)|
    {
      ended := 0;
      ghost var s := Current();
      for i := 0 to |page|
        invariant Current() == IdleRoomsEnded(s, env, page[..i])
        invariant ended == |IdleAmong(s, env, page[..i])|
      {
        assert page[..i + 1][..i] == page[..i];
        IdlePassCloses(s, env, page[..i], page[i]);
        OneMoreIdle(s, env, page[..i], page[i]);
        assert page[..i + 1] == page[..i] + [page[i]];
        var done := EndIfIdle(env, page[i]);
        if done {
          ended := ended + 1;
        }
      }
      assert page[..|page|] == page;
    }

    /** One turn of the timer. */
    method Tick(env: Env, page: seq<RoomId>) returns (ended: nat, archived: nat)
      requires IdlePage(rooms, page)
      modifies this`rooms, this`lastSeq, this`presence
      ensures Current() == Next(old(Current()), env, Request.Tick(page))
      ensures ended == |IdleAmong(old(Current()), env, page)| && archived == |AllDue(old(rooms), env)|
      ensures forall r :: 0 <= r < |rooms| ==>
                (rooms[r].status.ARCHIVED? <==>
                   || old(rooms)[r].status.ARCHIVED?
                   || (old(rooms)[r].status.ENDED? && old(rooms)[r].endedAt.Some?
                       && env.now - old(rooms)[r].endedAt.value >= 86_400_000))
    {
      JustEndedNotDue(Current(), env, page);
      ArchivedExactly(Current(), env, page);
      ended := EndIdleRooms(env, page);
      archived := |AllDue(rooms, env)|;
      rooms := Archive(rooms, env);
    }

    method CheckMonotonicSeq(env: Env, key: Key, number: real) returns (ok: bool)
      modifies this`lastSeq
      ensures !ok ==> env.up && key in old(lastSeq) && number <= old(lastSeq)[key]
      ensures ok && env.up && key in old(lastSeq) ==> old(lastSeq)[key] < number
      ensures env.up ==> key in lastSeq && lastSeq[key] >= number && (ok ==> lastSeq[key] == number)
      ensures forall k :: k in old(lastSeq) ==> k in lastSeq && old(lastSeq)[k] <= lastSeq[k]
      ensures lastSeq - {key} == old(lastSeq) - {key} && (!env.up || !ok ==> lastSeq == old(lastSeq))
    {
      if env.up && key in lastSeq && number <= lastSeq[key] {
        return false;
      }
      if env.up {
        lastSeq := lastSeq[key := number];
      }
      return true;
    }

    method EnqueueForCache(key: Key, f: Fingerprint)
      modifies this`pending, this`flushed
      ensures Current() == Enqueued(old(Current()), key, f)
    {
      var batch := if key in pending then pending[key] else [];
      batch := batch + [f];
      pending := pending[key := batch];
      if |batch| >= BATCH {
        FlushBatch(key);
      }
    }

    method FlushBatch(key: Key)
      modifies this`pending, this`flushed
      ensures var batch := PendingOf(old(Current()), key);
              if batch == [] then pending == old(pending) && flushed == old(flushed)
              else pending == old(pending)[key := []]
                   && flushed == old(flushed)[key := FlushedOf(old(Current()), key) + [BatchOf(batch)]]
    {
      if key !in pending || pending[key] == [] {
        return;
      }
      var batch := pending[key];
      pending := pending[key := []];
      var payload := Batch(batch[0].number, batch[|batch| - 1].number, batch[|batch| - 1].at, batch);
      flushed := flushed[key := (if key in flushed then flushed[key] else []) + [payload]];
    }

    method HandlePublish(env: Env, tenant: TenantId, key: Key, f: Submission) returns (verdict: Verdict)
      modifies this`lastSeq, this`pending, this`flushed, this`sent, limiter
      ensures verdict == JudgePublish(old(Current()), env, tenant, key, f)
      ensures Current() == Published(old(Current()), env, tenant, key, f)
    {
      var ok := limiter.Consume(key.user, env.now);
      if !ok {
        return RateLimited;
      }
      if key.room >= |rooms| || rooms[key.room].tenant != tenant {
        return NotFound;
      }
      var room := rooms[key.room];
      if room.Closed() {
        return HasEnded;
      }
      if !room.Joined(key.user) {
        return NotJoined;
      }
      if !Valid(f, key, room.meeting) {
        return Invalid;
      }
      ghost var before := lastSeq;
      var monoOk := CheckMonotonicSeq(env, key, f.number.value);
      if monoOk && env.up {
        OneKeyChanged(before, lastSeq, key);
      }
      if !monoOk {
        return NotMonotonic;
      }
      var stamped := Fingerprint(f.number.value, env.now, f.body);
      sent := sent + [Sent(key, stamped)];
      EnqueueForCache(key, stamped);
      return Accepted;
    }
  }
}
