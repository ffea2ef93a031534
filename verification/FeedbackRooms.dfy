/**
 The feedback gateway's index of rooms to sockets.

 The index is a JavaScript Map. As the language defines it, that is a list of entries in insertion
 order: deleting a key empties its entry in place and an iteration goes on to the next position, so a
 loop may delete the entry it stands on.
 */
module FeedbackRooms {
  import opened Options

  type SocketId = nat
  type RoomName = string

  datatype Entry = Gone | Live(room: RoomName, clients: set<SocketId>)

  /** The two handlers' common loop: the socket leaves whatever room has it, and a room left empty goes. */
  function Left(e: Entry, client: SocketId): Entry {
    if e.Gone? || client !in e.clients then e
    else if e.clients - {client} == {} then Gone
    else Live(e.room, e.clients - {client})
  }

  function AllLeft(entries: seq<Entry>, client: SocketId): (r: seq<Entry>)
    ensures |r| == |entries|
  {
    seq(|entries|, i requires 0 <= i < |entries| => Left(entries[i], client))
  }

  predicate Has(entries: seq<Entry>, room: RoomName) {
    exists i :: 0 <= i < |entries| && entries[i].Live? && entries[i].room == room
  }

  /** A Map has each key once. */
  ghost predicate KeysDistinct(entries: seq<Entry>) {
    forall i, j :: 0 <= i < j < |entries| && entries[i].Live? && entries[j].Live? ==> entries[i].room != entries[j].room
  }

  /** map.set for a new room, and adding the socket to the room's set. */
  function Entered(entries: seq<Entry>, client: SocketId, room: RoomName): seq<Entry> {
    if Has(entries, room) then
      seq(|entries|, i requires 0 <= i < |entries| =>
        if entries[i].Live? && entries[i].room == room then Live(room, entries[i].clients + {client}) else entries[i])
    else
      entries + [Live(room, {client})]
  }

  function Joined(entries: seq<Entry>, client: SocketId, room: RoomName): seq<Entry> {
    Entered(AllLeft(entries, client), client, room)
  }

  datatype Event = Join(client: SocketId, room: RoomName) | Disconnect(client: SocketId)

  function Run(trace: seq<Event>): seq<Entry> {
    if trace == [] then []
    else
      var earlier := Run(trace[..|trace| - 1]);
      match trace[|trace| - 1]
      case Join(client, room) => Joined(earlier, client, room)
      case Disconnect(client) => AllLeft(earlier, client)
  }

  /** The last room each socket joined since it last connected. */
  function LastJoined(trace: seq<Event>): map<SocketId, RoomName> {
    if trace == [] then map[]
    else
      var earlier := LastJoined(trace[..|trace| - 1]);
      match trace[|trace| - 1]
      case Join(client, room) => earlier[client := room]
      case Disconnect(client) => earlier - {client}
  }

  /** The sockets whose last room this is. */
  function Members(last: map<SocketId, RoomName>, room: RoomName): set<SocketId> {
    set c | c in last && last[c] == room
  }

  /** The index is the inverse of `last`: one entry for each room that is somebody's, holding exactly
      those whose it is, and none for other rooms. */
  ghost predicate Inverts(entries: seq<Entry>, last: map<SocketId, RoomName>) {
    && KeysDistinct(entries)
    && (forall i :: 0 <= i < |entries| && entries[i].Live? ==>
          entries[i].clients == Members(last, entries[i].room) && entries[i].clients != {})
    && (forall c :: c in last ==> Has(entries, last[c]))
  }

  lemma MembersWithout(last: map<SocketId, RoomName>, client: SocketId, room: RoomName)
    ensures Members(last - {client}, room) == Members(last, room) - {client}
  {
  }

  lemma StillThere(entries: seq<Entry>, last: map<SocketId, RoomName>, client: SocketId, c: SocketId)
    requires Inverts(entries, last) && c in last && c != client
    ensures Has(AllLeft(entries, client), last[c])
  {
    var i :| 0 <= i < |entries| && entries[i].Live? && entries[i].room == last[c];
    assert c in Members(last, entries[i].room);
    assert c in entries[i].clients - {client};
    assert AllLeft(entries, client)[i].Live? && AllLeft(entries, client)[i].room == last[c];
  }

  lemma LeavingInverts(entries: seq<Entry>, last: map<SocketId, RoomName>, client: SocketId)
    requires Inverts(entries, last)
    ensures Inverts(AllLeft(entries, client), last - {client})
  {
    var entries' := AllLeft(entries, client);
    var last' := last - {client};
    forall i | 0 <= i < |entries| && entries'[i].Live?
      ensures entries'[i].clients == Members(last', entries'[i].room) && entries'[i].clients != {}
    {
      MembersWithout(last, client, entries[i].room);
    }
    forall c | c in last'
      ensures Has(entries', last'[c])
    {
      StillThere(entries, last, client, c);
    }
  }

  lemma MembersAfter(last: map<SocketId, RoomName>, client: SocketId, room: RoomName, r: RoomName)
    requires client !in last
    ensures Members(last[client := room], r) == Members(last, r) + (if r == room then {client} else {})
  {
  }

  lemma EnteringInverts(entries: seq<Entry>, last: map<SocketId, RoomName>, client: SocketId, room: RoomName)
    requires Inverts(entries, last) && client !in last
    ensures Inverts(Entered(entries, client, room), last[client := room])
  {
    var entries' := Entered(entries, client, room);
    var last' := last[client := room];
    forall i | 0 <= i < |entries'| && entries'[i].Live?
      ensures entries'[i].clients == Members(last', entries'[i].room)
    {
      MembersAfter(last, client, room, entries'[i].room);
      if i == |entries| {
        NobodyThere(entries, last, room);
      }
    }
    forall c | c in last'
      ensures Has(entries', last'[c])
    {
      if c == client && !Has(entries, room) {
        assert entries'[|entries|].Live? && entries'[|entries|].room == room;
      } else {
        var i :| 0 <= i < |entries| && entries[i].Live? && entries[i].room == last'[c];
        assert entries'[i].Live? && entries'[i].room == last'[c];
      }
    }
  }

  lemma NobodyThere(entries: seq<Entry>, last: map<SocketId, RoomName>, room: RoomName)
    requires Inverts(entries, last) && !Has(entries, room)
    ensures Members(last, room) == {}
  {
    forall c | c in last
      ensures last[c] != room
    {
      assert Has(entries, last[c]);
    }
  }

  /** After any joins and disconnects the index is exactly the inverse of "last room joined". */
  lemma {:induction false} IndexInvertsLastJoin(trace: seq<Event>)
    ensures Inverts(Run(trace), LastJoined(trace))
  {
    if trace != [] {
      var earlier := trace[..|trace| - 1];
      IndexInvertsLastJoin(earlier);
      var entries, last := Run(earlier), LastJoined(earlier);
      match trace[|trace| - 1] {
        case Join(client, room) =>
          LeavingInverts(entries, last, client);
          EnteringInverts(AllLeft(entries, client), last - {client}, client, room);
          assert (last - {client})[client := room] == last[client := room];
        case Disconnect(client) =>
          LeavingInverts(entries, last, client);
      }
    }
  }

  /** So a socket is never in two rooms, and it is in one exactly when it has joined and not left. */
  lemma OneRoomPerSocket(trace: seq<Event>, client: SocketId, i: nat, j: nat)
    requires i < |Run(trace)| && j < |Run(trace)|
    requires Run(trace)[i].Live? && client in Run(trace)[i].clients
    requires Run(trace)[j].Live? && client in Run(trace)[j].clients
    ensures i == j && client in LastJoined(trace) && Run(trace)[i].room == LastJoined(trace)[client]
  {
    IndexInvertsLastJoin(trace);
  }

  // ---------------------------------------------------------------- the gateway

  class FeedbackGateway {
    var rooms: seq<Entry>

    constructor ()
      ensures rooms == Run([])
    {
      rooms := [];
    }

    /** The loop both handlers run, deleting entries it walks over. */
    method LeaveAll(client: SocketId)
      modifies this
      ensures rooms == AllLeft(old(rooms), client)
    {
      var i := 0;
      while i < |rooms|
        invariant i <= |rooms| == |old(rooms)|
        invariant forall k :: 0 <= k < i ==> rooms[k] == Left(old(rooms)[k], client)
        invariant forall k :: i <= k < |rooms| ==> rooms[k] == old(rooms)[k]
      {
        if rooms[i].Live? && client in rooms[i].clients {
          rooms := rooms[i := Live(rooms[i].room, rooms[i].clients - {client})];
          if |rooms[i].clients| == 0 {
            rooms := rooms[i := Gone];
          }
        }
        i := i + 1;
      }
    }

    method HandleDisconnect(client: SocketId)
      modifies this
      ensures rooms == AllLeft(old(rooms), client)
    {
      LeaveAll(client);
    }

    /** A join is refused, and changes nothing, without a meeting or with another tenant's id. */
    method HandleJoinRoom(client: SocketId, tenant: string, meeting: string, claimed: Option<string>)
      returns (joined: bool)
      requires KeysDistinct(rooms)
      modifies this
      ensures KeysDistinct(rooms)
      ensures joined <==> meeting != "" && (claimed.Some? && claimed.value != "" ==> claimed.value == tenant)
      ensures rooms == if joined then Joined(old(rooms), client, "feedback:" + tenant + ":" + meeting) else old(rooms)
    {
      if meeting == "" {
        return false;
      }
      if claimed.Some? && claimed.value != "" && claimed.value != tenant {
        return false;
      }
      var roomName := "feedback:" + tenant + ":" + meeting;
      LeaveAll(client);
      if !Has(rooms, roomName) {
        rooms := rooms + [Live(roomName, {client})];
      } else {
        var i :| 0 <= i < |rooms| && rooms[i].Live? && rooms[i].room == roomName;
        rooms := rooms[i := Live(roomName, rooms[i].clients + {client})];
      }
      return true;
    }
  }
}
