/**
  `VoiceAssistantService.end_session` over the table of `VoiceAssistantSession`
  rows. A session is active until it is ended; ending looks up the caller's
  active session with the given id and marks it inactive with an end time.
  The clock is a parameter (`now`), and `session_id` is unique across the
  table, as the model's field declares.
*/
module VoiceSessions {
  import opened Wrappers

  datatype Session = Session(user: int, sessionId: string, startTime: int, endTime: Option<int>, isActive: bool)

  /** The row `objects.get(user=user, session_id=sessionId, is_active=True)` looks for. */
  predicate Matches(s: Session, user: int, sessionId: string) {
    s.user == user && s.sessionId == sessionId && s.isActive
  }

  /** The row after `is_active = False; end_time = now`. */
  function Ended(s: Session, now: int): (r: Session)
    ensures !r.isActive && r.endTime == Some(now)
    ensures r.user == s.user && r.sessionId == s.sessionId && r.startTime == s.startTime
  {
    s.(isActive := false, endTime := Some(now))
  }

  /** Every row the lookup finds, ended; the others as they were. */
  function EndMatching(rows: seq<Session>, user: int, sessionId: string, now: int): (r: seq<Session>)
    ensures |r| == |rows|
    ensures forall i :: 0 <= i < |rows| ==>
      r[i] == if Matches(rows[i], user, sessionId) then Ended(rows[i], now) else rows[i]
  {
    if rows == [] then []
    else
      [if Matches(rows[0], user, sessionId) then Ended(rows[0], now) else rows[0]]
      + EndMatching(rows[1..], user, sessionId, now)
  }

  /** `session_id` is unique. */
  predicate UniqueIds(rows: seq<Session>) {
    forall i, j :: 0 <= i < j < |rows| ==> rows[i].sessionId != rows[j].sessionId
  }

  /** After ending, the lookup finds nothing: a second `end_session` with the same id
      returns `False`. */
  lemma NothingLeftToEnd(rows: seq<Session>, user: int, sessionId: string, now: int)
    ensures forall s :: s in EndMatching(rows, user, sessionId, now) ==> !Matches(s, user, sessionId)
  {
    var r := EndMatching(rows, user, sessionId, now);
    forall s | s in r ensures !Matches(s, user, sessionId) {
      var i :| 0 <= i < |r| && r[i] == s;
      assert r[i] == if Matches(rows[i], user, sessionId) then Ended(rows[i], now) else rows[i];
    }
  }

  /** Ending a second time changes nothing, whatever the clock says. */
  lemma EndIdempotent(rows: seq<Session>, user: int, sessionId: string, now: int, later: int)
    ensures EndMatching(EndMatching(rows, user, sessionId, now), user, sessionId, later) == EndMatching(rows, user, sessionId, now)
  {
    var once := EndMatching(rows, user, sessionId, now);
    var twice := EndMatching(once, user, sessionId, later);
    forall i | 0 <= i < |once| ensures twice[i] == once[i] {
      assert once[i] == if Matches(rows[i], user, sessionId) then Ended(rows[i], now) else rows[i];
    }
  }

  /** Ending keeps `session_id` unique. */
  lemma EndKeepsUniqueIds(rows: seq<Session>, user: int, sessionId: string, now: int)
    requires UniqueIds(rows)
    ensures UniqueIds(EndMatching(rows, user, sessionId, now))
  {
    var r := EndMatching(rows, user, sessionId, now);
    forall i, j | 0 <= i < j < |r| ensures r[i].sessionId != r[j].sessionId {
      assert r[i].sessionId == rows[i].sessionId && r[j].sessionId == rows[j].sessionId;
    }
  }

  class SessionTable {
    var rows: seq<Session>

    ghost predicate Valid()
      reads this
    {
      UniqueIds(rows)
    }

    constructor (initial: seq<Session>)
      requires UniqueIds(initial)
      ensures Valid() && rows == initial
    {
      rows := initial;
    }

    /** `end_session(session_id)` for `user`: `True` exactly when the user had an active
        session with that id, which is then inactive and ended at `now`; every other row is
        left as it was. */
    method EndSession(user: int, sessionId: string, now: int) returns (ok: bool)
      requires Valid()
      modifies this
      ensures Valid()
      ensures ok <==> exists i :: 0 <= i < |old(rows)| && Matches(old(rows)[i], user, sessionId)
      ensures rows == EndMatching(old(rows), user, sessionId, now)
    {
      var i := 0;
      while i < |rows|
        invariant 0 <= i <= |rows|
        invariant forall j :: 0 <= j < i ==> !Matches(rows[j], user, sessionId)
        decreases |rows| - i
      {
        if Matches(rows[i], user, sessionId) {
          break;
        }
        i := i + 1;
      }
      if i == |rows| {
        assert EndMatching(rows, user, sessionId, now) == rows;
        return false;
      }
      // `session_id` is unique, so no later row matches either.
      forall j | i < j < |rows| ensures !Matches(rows[j], user, sessionId) {
        assert rows[i].sessionId != rows[j].sessionId;
      }
      EndKeepsUniqueIds(rows, user, sessionId, now);
      rows := rows[i := Ended(rows[i], now)];
      return true;
    }
  }
}
