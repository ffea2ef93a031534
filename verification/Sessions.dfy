/**
 Meeting sessions: how many audio connections are open, whether the session is over, and how many
 seconds of audio it has had. A session row is keyed by (tenant, meeting).
 */
module Sessions {
  import opened Options

  type Time = int

  datatype Key = Key(tenant: nat, meeting: string)
  datatype Status = ACTIVE | ENDED
  datatype Session = Session(status: Status, endedAt: Option<Time>, connections: int, audioSeconds: int)
  type Table = map<Key, Session>

  datatype Event = Open(key: Key, at: Time) | Close(key: Key, at: Time, durationMs: int)

  /** Math.round of a whole number of milliseconds in seconds: halves go up. */
  function RoundToSeconds(ms: int): int { (ms + 500) / 1000 }

  function Max(a: int, b: int): int { if a > b then a else b }

  function Opened(t: Table, key: Key): Table {
    if key in t then t[key := t[key].(status := ACTIVE, endedAt := None, connections := t[key].connections + 1)]
    else t[key := Session(ACTIVE, None, 1, 0)]
  }

  /** Closing a connection of an unknown session changes nothing. */
  function Closed(t: Table, key: Key, at: Time, durationMs: int): Table {
    if key !in t then t
    else
      var next := Max(0, t[key].connections - 1);
      var s := t[key].(connections := next, audioSeconds := t[key].audioSeconds + Max(0, RoundToSeconds(durationMs)));
      t[key := if next == 0 then s.(status := ENDED, endedAt := Some(at)) else s]
  }

  function Next(t: Table, e: Event): Table {
    match e
    case Open(key, at) => Opened(t, key)
    case Close(key, at, durationMs) => Closed(t, key, at, durationMs)
  }

  function Run(trace: seq<Event>): Table {
    if trace == [] then map[] else Next(Run(trace[..|trace| - 1]), trace[|trace| - 1])
  }

  function Connections(t: Table, key: Key): int { if key in t then t[key].connections else 0 }

  // ---------------------------------------------------------------- the counter

  /** Opens less closes of the session among the events from position `i` on. */
  function Net(trace: seq<Event>, key: Key, i: nat): int
    requires i <= |trace|
    decreases |trace| - i
  {
    if i == |trace| then 0
    else (if trace[i].key != key then 0 else if trace[i].Open? then 1 else -1) + Net(trace, key, i + 1)
  }

  lemma {:induction false} NetSnoc(trace: seq<Event>, e: Event, key: Key, i: nat)
    requires i <= |trace|
    ensures Net(trace + [e], key, i) == Net(trace, key, i) + (if e.key != key then 0 else if e.Open? then 1 else -1)
    decreases |trace| - i
  {
    if i < |trace| {
      NetSnoc(trace, e, key, i + 1);
    } else {
      assert Net(trace + [e], key, i + 1) == 0;
    }
  }

  /** Connections are counted as if every surplus close had never come: after any trace the counter is
      the greatest surplus of opens over closes that any suffix of the trace has. */
  lemma {:induction false} CounterIsBestSuffix(trace: seq<Event>, key: Key)
    ensures forall i :: 0 <= i <= |trace| ==> Net(trace, key, i) <= Connections(Run(trace), key)
    ensures exists i :: 0 <= i <= |trace| && Net(trace, key, i) == Connections(Run(trace), key)
  {
    if trace == [] {
      assert Net(trace, key, 0) == 0;
    } else {
      var earlier, e := trace[..|trace| - 1], trace[|trace| - 1];
      assert trace == earlier + [e];
      CounterIsBestSuffix(earlier, key);
      forall i | 0 <= i <= |earlier|
        ensures Net(trace, key, i) == Net(earlier, key, i) + (if e.key != key then 0 else if e.Open? then 1 else -1)
      {
        NetSnoc(earlier, e, key, i);
      }
      assert Net(trace, key, |trace|) == 0;
      var best :| 0 <= best <= |earlier| && Net(earlier, key, best) == Connections(Run(earlier), key);
      assert Net(earlier, key, |earlier|) == 0;
      var i := if Connections(Run(trace), key) == 0 && Net(trace, key, best) != 0 then |trace| else best;
      assert Net(trace, key, i) == Connections(Run(trace), key);
    }
  }

  /** A known session is ACTIVE exactly while a connection is open, and dated exactly when it is not. */
  lemma {:induction false} ActiveWhileConnected(trace: seq<Event>, key: Key)
    ensures key in Run(trace) ==>
              var s := Run(trace)[key];
              && s.connections >= 0
              && (s.status == ACTIVE <==> s.connections > 0)
              && (s.endedAt.None? <==> s.connections > 0)
  {
    if trace != [] {
      ActiveWhileConnected(trace[..|trace| - 1], key);
    }
  }

  // ---------------------------------------------------------------- the audio

  /** The closes of the session that came after it was first opened. */
  function Closes(trace: seq<Event>, key: Key): nat {
    if trace == [] then 0
    else
      var e := trace[|trace| - 1];
      Closes(trace[..|trace| - 1], key)
      + (if e.Close? && e.key == key && key in Run(trace[..|trace| - 1]) then 1 else 0)
  }

  /** Their durations in milliseconds, a negative one taken as nothing. */
  function TotalMs(trace: seq<Event>, key: Key): nat {
    if trace == [] then 0
    else
      var e := trace[|trace| - 1];
      TotalMs(trace[..|trace| - 1], key)
      + (if e.Close? && e.key == key && key in Run(trace[..|trace| - 1]) then Max(0, e.durationMs) else 0)
  }

  /** The seconds recorded are within half a second per close of the true total. */
  lemma {:induction false} AudioIsWithinHalfASecond(trace: seq<Event>, key: Key)
    requires key in Run(trace)
    ensures -500 * Closes(trace, key)
            <= 1000 * Run(trace)[key].audioSeconds - TotalMs(trace, key)
            <= 500 * Closes(trace, key)
  {
    var earlier, e := trace[..|trace| - 1], trace[|trace| - 1];
    if key in Run(earlier) {
      AudioIsWithinHalfASecond(earlier, key);
    } else {
      NothingCounted(earlier, key);
    }
  }

  lemma {:induction false} NothingCounted(trace: seq<Event>, key: Key)
    requires key !in Run(trace)
    ensures Closes(trace, key) == 0 && TotalMs(trace, key) == 0
  {
    if trace != [] {
      NothingCounted(trace[..|trace| - 1], key);
    }
  }

  // ---------------------------------------------------------------- the service

  class SessionStore {
    var sessions: Table

    constructor ()
      ensures sessions == Run([])
    {
      sessions := map[];
    }

    method MarkConnectionOpen(key: Key, now: Time)
      modifies this
      ensures Connections(sessions, key) == Connections(old(sessions), key) + 1
      ensures key in sessions && sessions[key].status == ACTIVE && sessions[key].endedAt.None?
      ensures sessions[key].audioSeconds == if key in old(sessions) then old(sessions)[key].audioSeconds else 0
      ensures sessions - {key} == old(sessions) - {key}
      ensures sessions == Next(old(sessions), Open(key, now))
    {
      if key in sessions {
        var s := sessions[key];
        sessions := sessions[key := s.(status := ACTIVE, endedAt := None, connections := s.connections + 1)];
      } else {
        sessions := sessions[key := Session(ACTIVE, None, 1, 0)];
      }
    }

    method MarkConnectionClosed(key: Key, now: Time, durationMs: int) returns (ended: bool)
      modifies this
      ensures sessions == Next(old(sessions), Close(key, now, durationMs))
      ensures ended <==> Connections(sessions, key) == 0
      ensures key in old(sessions) ==>
                var (was, now_) := (old(sessions)[key], sessions[key]);
                && now_.connections == (if was.connections <= 1 then 0 else was.connections - 1)
                && (if ended then now_.status == ENDED && now_.endedAt == Some(now)
                    else now_.status == was.status && now_.endedAt == was.endedAt)
      ensures key !in old(sessions) ==> sessions == old(sessions) && ended
      ensures sessions - {key} == old(sessions) - {key}
    {
      var connections := if key in sessions then sessions[key].connections else 1;
      var next := Max(0, connections - 1);
      if key in sessions {
        var s := sessions[key].(connections := next,
                                audioSeconds := sessions[key].audioSeconds + Max(0, RoundToSeconds(durationMs)));
        if next == 0 {
          s := s.(status := ENDED, endedAt := Some(now));
        }
        sessions := sessions[key := s];
      }
      return next == 0;
    }
  }
}
