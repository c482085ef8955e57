/**
 * The in-memory session table: sessions keyed by id, each with its message
 * history and an expiry time. Expiry is lazy: a lookup that finds an expired
 * session deletes it. Time is a parameter (seconds on the server's clock) and
 * so is the new session's id, which the server draws with `uuid4`.
 */
module Session {
  import opened Wrappers

  datatype Message = Message(role: string, content: string)

  datatype Session = Session(id: string, messages: seq<Message>, createdAt: int, expiresAt: int)

  type Table = map<string, Session>

  /** `timedelta(hours=ttl_hours)`, in seconds. */
  function TtlSeconds(ttlHours: int): int { ttlHours * 3600 }

  /** A session is still live at `now` unless `now` is strictly past its expiry. */
  predicate Live(s: Session, now: int) { now <= s.expiresAt }

  /** What `get` returns. */
  function Lookup(t: Table, id: string, now: int): (r: Option<Session>)
    ensures r.Some? <==> id in t && Live(t[id], now)
    ensures r.Some? ==> r.value == t[id]
  {
    if id !in t then None
    else if !Live(t[id], now) then None
    else Some(t[id])
  }

  /** The table after `get`: an expired session is removed, nothing else changes. */
  function AfterLookup(t: Table, id: string, now: int): (t': Table)
    ensures id in t && !Live(t[id], now) ==> id !in t'
    ensures forall k :: k in t' <==> k in t && !(k == id && !Live(t[id], now))
    ensures forall k :: k in t' ==> t'[k] == t[k]
  {
    if id in t && !Live(t[id], now) then t - {id} else t
  }

  /** The table after `add_message`: one message appended to a live session. */
  function AfterAddMessage(t: Table, id: string, now: int, m: Message): Table {
    var t' := AfterLookup(t, id, now);
    if id in t' then t'[id := t'[id].(messages := t'[id].messages + [m])] else t'
  }

  /** `_SessionManager`: the `_sessions` dictionary and the configured time to live. */
  class SessionManager {
    var sessions: Table
    const ttl: int

    /** `SessionManager(ttl_hours)`: an empty table. */
    constructor (ttlHours: int)
      ensures sessions == map[] && ttl == TtlSeconds(ttlHours)
    {
      sessions := map[];
      ttl := TtlSeconds(ttlHours);
    }

    /**
     * `create()`: stores a session under the drawn id with no messages;
     * `createdAt` and `expiresAt` come from two readings of the clock.
     */
    method Create(id: string, now: int, nowAgain: int) returns (r: string)
      modifies this
      ensures r == id
      ensures sessions == old(sessions)[id := Session(id, [], now, nowAgain + ttl)]
    {
      sessions := sessions[id := Session(id, [], now, nowAgain + ttl)];
      r := id;
    }

    /** `get(session_id)`: the live session, or `None`; an expired one is deleted. */
    method Get(id: string, now: int) returns (r: Option<Session>)
      modifies this
      ensures r == Lookup(old(sessions), id, now)
      ensures sessions == AfterLookup(old(sessions), id, now)
    {
      if id !in sessions {
        return None;
      }
      var s := sessions[id];
      if now > s.expiresAt {
        sessions := sessions - {id};
        return None;
      }
      r := Some(s);
    }

    /** `add_message(session_id, role, content)`: true exactly when a live session took the message. */
    method AddMessage(id: string, now: int, role: string, content: string) returns (added: bool)
      modifies this
      ensures added == Lookup(old(sessions), id, now).Some?
      ensures sessions == AfterAddMessage(old(sessions), id, now, Message(role, content))
    {
      var s := Get(id, now);
      if s.None? {
        return false;
      }
      var session := s.value;
      sessions := sessions[id := session.(messages := session.messages + [Message(role, content)])];
      added := true;
    }

    /** `delete(session_id)`: removes the entry when present. */
    method Delete(id: string) returns (deleted: bool)
      modifies this
      ensures deleted == (id in old(sessions))
      ensures sessions == old(sessions) - {id}
    {
      if id in sessions {
        sessions := sessions - {id};
        return true;
      }
      deleted := false;
    }
  }

  /** A new session has no messages and expires one time to live after the second clock reading. */
  lemma CreatedSession(t: Table, id: string, now: int, nowAgain: int, ttl: int)
    ensures var t' := t[id := Session(id, [], now, nowAgain + ttl)];
      id in t' && t'[id].messages == [] && t'[id].expiresAt == nowAgain + ttl
      && forall k :: k in t && k != id ==> k in t' && t'[k] == t[k]
  {
  }

  /** An unknown id: `get` returns nothing and leaves the table as it was. */
  lemma LookupUnknown(t: Table, id: string, now: int)
    requires id !in t
    ensures Lookup(t, id, now) == None && AfterLookup(t, id, now) == t
  {
  }

  /** A live session is returned and the table is left as it was. */
  lemma LookupLive(t: Table, id: string, now: int)
    requires id in t && Live(t[id], now)
    ensures Lookup(t, id, now) == Some(t[id]) && AfterLookup(t, id, now) == t
  {
  }

  /** An expired session is deleted, so every later `get`, at any time, finds nothing. */
  lemma ExpiredStaysGone(t: Table, id: string, now: int, later: int)
    requires id in t && now > t[id].expiresAt
    ensures Lookup(t, id, now) == None
    ensures var t' := AfterLookup(t, id, now);
      id !in t' && Lookup(t', id, later) == None && AfterLookup(t', id, later) == t'
  {
  }

  /** Adding to a live session appends exactly one message at the end and touches no other session. */
  lemma AddToLive(t: Table, id: string, now: int, m: Message)
    requires id in t && Live(t[id], now)
    ensures var t' := AfterAddMessage(t, id, now, m);
      t'.Keys == t.Keys
      && t'[id] == t[id].(messages := t[id].messages + [m])
      && forall k :: k in t && k != id ==> t'[k] == t[k]
  {
  }

  /** Adding to a missing or expired session appends nothing: it only performs `get`'s lazy deletion. */
  lemma AddToMissing(t: Table, id: string, now: int, m: Message)
    requires Lookup(t, id, now).None?
    ensures AfterAddMessage(t, id, now, m) == AfterLookup(t, id, now)
    ensures id !in AfterAddMessage(t, id, now, m)
  {
  }
}
