/** The server's session table: session ids handed out from a counter that
    starts at 1, each id naming a key/value map of text that stays readable and
    writable until the session is closed. Closed sessions stay in the table, so
    their ids are never handed out again. */
module SessionTables {
  import opened Wire

  /** One client session. `open` turns false on close and never back. */
  datatype Session = Session(sessionId: nat, values: map<string, string>, open: bool)

  /** The table's state: sessionId --> Session, and the next id to hand out. */
  datatype Table = Table(sessions: map<nat, Session>, nextSessionId: nat)

  /** The two reasons a `SessionException` is thrown. */
  datatype SessionError = NotOpen(sessionId: nat) | NotFound(sessionId: nat, key: string)

  /** The exception's message, which the server sends back in an `error` reply. */
  function Message(e: SessionError): (m: string)
    ensures '\n' !in m
  {
    match e
    case NotOpen(_) => "Session is not open"
    case NotFound(_, _) => "No value for that key"
  }

  /** Every key is a nonzero id below the counter, stored under its own id. */
  ghost predicate WellFormed(t: Table)
  {
    && t.nextSessionId >= 1
    && forall id :: id in t.sessions ==> 0 < id < t.nextSessionId && t.sessions[id].sessionId == id
  }

  predicate IsOpen(t: Table, id: nat)
  {
    id in t.sessions && t.sessions[id].open
  }

  /** A freshly created table: no sessions, counter at 1. */
  function Empty(): (t: Table)
    ensures WellFormed(t)
    ensures forall id :: !IsOpen(t, id)
  {
    Table(map[], 1)
  }

  /** `NextSessionId` then `sessions.Add`: the new id and the table holding an
      empty, open session under it. */
  function Open(t: Table): (r: (Table, nat))
    ensures WellFormed(t) ==> WellFormed(r.0)
    ensures WellFormed(t) ==> r.1 != 0 && r.1 !in t.sessions
    ensures r.0.sessions.Keys == t.sessions.Keys + {r.1}
    ensures IsOpen(r.0, r.1) && r.0.sessions[r.1].values == map[]
    ensures forall id :: id in t.sessions && id != r.1 ==> r.0.sessions[id] == t.sessions[id]
    ensures r.0.nextSessionId == r.1 + 1
  {
    var id := t.nextSessionId;
    (Table(t.sessions[id := Session(id, map[], true)], id + 1), id)
  }

  /** `CloseSession`: succeeds exactly on an open session, which becomes closed. */
  function Close(t: Table, id: nat): (r: (Table, Outcome<SessionError>))
    ensures r.1 == Pass <==> IsOpen(t, id)
    ensures r.1.Fail? ==> r.1 == Fail(NotOpen(id)) && r.0 == t
    ensures r.1 == Pass ==> id in r.0.sessions && !IsOpen(r.0, id) && r.0.sessions[id].values == t.sessions[id].values
    ensures r.0.sessions.Keys == t.sessions.Keys && r.0.nextSessionId == t.nextSessionId
    ensures forall other :: other in t.sessions && other != id ==> r.0.sessions[other] == t.sessions[other]
  {
    if IsOpen(t, id) then
      (t.(sessions := t.sessions[id := t.sessions[id].(open := false)]), Pass)
    else
      (t, Fail(NotOpen(id)))
  }

  /** `GetSessionValue`: the stored value, or why there is none. */
  function Get(t: Table, id: nat, key: string): (r: Result<string, SessionError>)
    ensures r.Success? <==> IsOpen(t, id) && key in t.sessions[id].values
    ensures r.Success? ==> r.value == t.sessions[id].values[key]
    ensures !IsOpen(t, id) ==> r == Failure(NotOpen(id))
    ensures IsOpen(t, id) && key !in t.sessions[id].values ==> r == Failure(NotFound(id, key))
  {
    if !IsOpen(t, id) then Failure(NotOpen(id))
    else if key !in t.sessions[id].values then Failure(NotFound(id, key))
    else Success(t.sessions[id].values[key])
  }

  /** `PutSessionValue`: insert or replace one value of an open session. */
  function Put(t: Table, id: nat, key: string, value: string): (r: (Table, Outcome<SessionError>))
    ensures r.1 == Pass <==> IsOpen(t, id)
    ensures r.1.Fail? ==> r.1 == Fail(NotOpen(id)) && r.0 == t
    ensures r.0.sessions.Keys == t.sessions.Keys && r.0.nextSessionId == t.nextSessionId
    ensures forall s :: s in t.sessions ==> r.0.sessions[s].open == t.sessions[s].open
    ensures WellFormed(t) ==> WellFormed(r.0)
  {
    if !IsOpen(t, id) then
      (t, Fail(NotOpen(id)))
    else
      var s := t.sessions[id];
      (t.(sessions := t.sessions[id := s.(values := s.values[key := value])]), Pass)
  }

  /** A put followed by a get of the same key in the same session returns the
      value put. */
  lemma PutThenGet(t: Table, id: nat, key: string, value: string)
    requires IsOpen(t, id)
    ensures Get(Put(t, id, key, value).0, id, key) == Success(value)
  {
  }

  /** A put changes no other key of any session. */
  lemma PutLeavesOthers(t: Table, id: nat, key: string, value: string, id': nat, key': string)
    requires id' != id || key' != key
    ensures Get(Put(t, id, key, value).0, id', key') == Get(t, id', key')
  {
  }

  /** Close is terminal: afterwards resume is refused, a second close fails,
      and get and put fail with NotOpen. */
  lemma CloseIsTerminal(t: Table, id: nat, key: string, value: string)
    requires Close(t, id).1 == Pass
    ensures var t' := Close(t, id).0;
      && !IsOpen(t', id)
      && Close(t', id).1 == Fail(NotOpen(id))
      && Get(t', id, key) == Failure(NotOpen(id))
      && Put(t', id, key, value).1 == Fail(NotOpen(id))
  {
  }

  // ---------------------------------------------------------------------------
  // Sequences of table calls

  /** One call on the table. Resume and get change nothing. */
  datatype Call =
    | OpenCall
    | ResumeCall(id: nat)
    | CloseCall(id: nat)
    | GetCall(id: nat, key: string)
    | PutCall(id: nat, key: string, value: string)

  function Apply(t: Table, c: Call): Table
  {
    match c
    case OpenCall => Open(t).0
    case ResumeCall(_) => t
    case CloseCall(id) => Close(t, id).0
    case GetCall(_, _) => t
    case PutCall(id, key, value) => Put(t, id, key, value).0
  }

  /** The table after the calls, in order. */
  function ApplyAll(t: Table, calls: seq<Call>): Table
  {
    if calls == [] then t else Apply(ApplyAll(t, calls[..|calls| - 1]), calls[|calls| - 1])
  }

  function OpenCount(calls: seq<Call>): nat
  {
    if calls == [] then 0
    else OpenCount(calls[..|calls| - 1]) + if calls[|calls| - 1] == OpenCall then 1 else 0
  }

  /** The ids the `OpenCall`s among `calls` return, in order. */
  function IssuedIds(t: Table, calls: seq<Call>): seq<nat>
  {
    if calls == [] then []
    else
      var before := calls[..|calls| - 1];
      IssuedIds(t, before) + if calls[|calls| - 1] == OpenCall then [Open(ApplyAll(t, before)).1] else []
  }

  /** A close of `id` happened after `id` had been handed out. */
  ghost predicate ClosedAfterIssue(calls: seq<Call>, id: nat)
  {
    exists j :: 0 <= j < |calls| && calls[j] == CloseCall(id) && id <= OpenCount(calls[..j])
  }

  /** Every call keeps the table well formed. */
  lemma {:induction false} ApplyAllWellFormed(t: Table, calls: seq<Call>)
    requires WellFormed(t)
    ensures WellFormed(ApplyAll(t, calls))
  {
    if calls != [] {
      ApplyAllWellFormed(t, calls[..|calls| - 1]);
    }
  }

  /** A closed session stays in the table and stays closed, whatever follows. */
  lemma {:induction false} ClosedStaysClosed(t: Table, calls: seq<Call>, id: nat)
    requires WellFormed(t) && id in t.sessions && !t.sessions[id].open
    ensures id in ApplyAll(t, calls).sessions && !IsOpen(ApplyAll(t, calls), id)
  {
    if calls != [] {
      ClosedStaysClosed(t, calls[..|calls| - 1], id);
      ApplyAllWellFormed(t, calls[..|calls| - 1]);
    }
  }

  /** Starting from a fresh table, the sessions are exactly the ids 1 to the
      number of opens, and the counter is one past that. */
  lemma {:induction false} KeysAreIssuedIds(calls: seq<Call>)
    ensures ApplyAll(Empty(), calls).nextSessionId == OpenCount(calls) + 1
    ensures forall id :: id in ApplyAll(Empty(), calls).sessions <==> 0 < id <= OpenCount(calls)
  {
    if calls != [] {
      KeysAreIssuedIds(calls[..|calls| - 1]);
    }
  }

  /** Starting from a fresh table, the k-th open returns k: ids are never 0,
      strictly increasing and never reused. */
  lemma {:induction false} OpensReturnSuccessiveIds(calls: seq<Call>)
    ensures |IssuedIds(Empty(), calls)| == OpenCount(calls)
    ensures forall k :: 0 <= k < |IssuedIds(Empty(), calls)| ==> IssuedIds(Empty(), calls)[k] == k + 1
  {
    if calls != [] {
      var before := calls[..|calls| - 1];
      OpensReturnSuccessiveIds(before);
      KeysAreIssuedIds(before);
    }
  }

  lemma {:induction false} OpenCountMonotone(calls: seq<Call>, j: nat)
    requires j <= |calls|
    ensures OpenCount(calls[..j]) <= OpenCount(calls)
    decreases |calls|
  {
    if j < |calls| {
      var before := calls[..|calls| - 1];
      assert calls[..j] == before[..j];
      OpenCountMonotone(before, j);
    } else {
      assert calls[..j] == calls;
    }
  }

  /** How one call changes whether `id` is open. */
  lemma ApplyOpenness(t: Table, c: Call, id: nat)
    ensures IsOpen(Apply(t, c), id) <==>
      if c == OpenCall then id == t.nextSessionId || IsOpen(t, id)
      else if c == CloseCall(id) then false
      else IsOpen(t, id)
  {
  }

  /** Extending the calls by one changes `ClosedAfterIssue` only through a
      close of `id` that comes after `id` was issued. */
  lemma ClosedAfterIssueSnoc(before: seq<Call>, last: Call, id: nat)
    ensures var calls := before + [last];
      ClosedAfterIssue(calls, id) <==>
        ClosedAfterIssue(before, id) || (last == CloseCall(id) && id <= OpenCount(before))
  {
    var calls := before + [last];
    var n := |before|;
    assert calls[..n] == before;
    if ClosedAfterIssue(calls, id) {
      var j :| 0 <= j < |calls| && calls[j] == CloseCall(id) && id <= OpenCount(calls[..j]);
      if j < n {
        assert calls[..j] == before[..j];
        assert ClosedAfterIssue(before, id);
      }
    }
    if ClosedAfterIssue(before, id) {
      var j :| 0 <= j < |before| && before[j] == CloseCall(id) && id <= OpenCount(before[..j]);
      assert calls[..j] == before[..j];
      assert calls[j] == CloseCall(id);
    }
    if last == CloseCall(id) && id <= OpenCount(before) {
      assert calls[n] == CloseCall(id);
    }
  }

  /** No close can have ended an id that has not been issued yet. */
  lemma NotClosedBeforeIssue(calls: seq<Call>, id: nat)
    requires id > OpenCount(calls)
    ensures !ClosedAfterIssue(calls, id)
  {
    if ClosedAfterIssue(calls, id) {
      var j :| 0 <= j < |calls| && calls[j] == CloseCall(id) && id <= OpenCount(calls[..j]);
      OpenCountMonotone(calls, j);
    }
  }

  /** Resume succeeds exactly on an id that an earlier open returned and that
      no close has ended since. */
  lemma {:induction false} ResumableIffIssuedAndNotClosed(calls: seq<Call>, id: nat)
    ensures IsOpen(ApplyAll(Empty(), calls), id) <==> 0 < id <= OpenCount(calls) && !ClosedAfterIssue(calls, id)
  {
    if calls != [] {
      var before, last := calls[..|calls| - 1], calls[|calls| - 1];
      assert calls == before + [last];
      ResumableIffIssuedAndNotClosed(before, id);
      KeysAreIssuedIds(before);
      ApplyOpenness(ApplyAll(Empty(), before), last, id);
      ClosedAfterIssueSnoc(before, last, id);
      if last == OpenCall {
        NotClosedBeforeIssue(before, OpenCount(before) + 1);
      }
    }
  }

  // ---------------------------------------------------------------------------
  // The table object shared by all connections

  class SessionTable {
    var sessions: map<nat, Session>   // sessionId --> Session
    var nextSessionId: nat            // next value to use for a new session

    function Model(): Table
      reads this
    {
      Table(sessions, nextSessionId)
    }

    ghost predicate Valid()
      reads this
    {
      WellFormed(Model())
    }

    /** A new table is empty and will hand out 1 first. */
    constructor ()
      ensures Valid()
      ensures sessions == map[] && nextSessionId == 1
      ensures Model() == Empty()
    {
      sessions := map[];
      nextSessionId := 1;
    }

    /** Returns the counter and increments it by one. */
    method NextSessionId() returns (sessionId: nat)
      modifies this`nextSessionId
      ensures sessionId == old(nextSessionId) && nextSessionId == sessionId + 1
    {
      sessionId := nextSessionId;
      nextSessionId := nextSessionId + 1;
    }

    /** Adds one new, empty, open session under a fresh nonzero id and returns
        that id; no other session changes. */
    method OpenSession() returns (sessionId: nat)
      requires Valid()
      modifies this
      ensures Valid()
      ensures (Model(), sessionId) == Open(old(Model()))
      ensures sessionId != 0 && sessionId !in old(sessions) && sessionId == old(nextSessionId)
      ensures sessions == old(sessions)[sessionId := Session(sessionId, map[], true)]
    {
      sessionId := NextSessionId();
      var session := Session(sessionId, map[], true);
      sessions := sessions[sessionId := session];
    }

    /** True only for an id naming a session that is still open; changes nothing. */
    method ResumeSession(sessionId: nat) returns (ok: bool)
      ensures ok <==> sessionId in sessions && sessions[sessionId].open
    {
      ok := sessionId in sessions && sessions[sessionId].open;
    }

    /** Closes an open session for good; fails with NotOpen otherwise. */
    method CloseSession(sessionId: nat) returns (r: Outcome<SessionError>)
      requires Valid()
      modifies this
      ensures Valid()
      ensures (Model(), r) == Close(old(Model()), sessionId)
    {
      if sessionId in sessions && sessions[sessionId].open {
        var session := sessions[sessionId];
        sessions := sessions[sessionId := session.(open := false)];
        r := Pass;
      } else {
        r := Fail(NotOpen(sessionId));
      }
    }

    /** The value under `key` in an open session; NotOpen or NotFound otherwise. */
    method GetSessionValue(sessionId: nat, key: string) returns (r: Result<string, SessionError>)
      ensures r == Get(Model(), sessionId, key)
    {
      if !(sessionId in sessions && sessions[sessionId].open) {
        r := Failure(NotOpen(sessionId));
      } else if key !in sessions[sessionId].values {
        r := Failure(NotFound(sessionId, key));
      } else {
        r := Success(sessions[sessionId].values[key]);
      }
    }

    /** Stores `value` under `key` in an open session, replacing any old value;
        fails with NotOpen otherwise. */
    method PutSessionValue(sessionId: nat, key: string, value: string) returns (r: Outcome<SessionError>)
      requires Valid()
      modifies this
      ensures Valid()
      ensures (Model(), r) == Put(old(Model()), sessionId, key, value)
    {
      if sessionId in sessions && sessions[sessionId].open {
        var session := sessions[sessionId];
        sessions := sessions[sessionId := session.(values := session.values[key := value])];
        r := Pass;
      } else {
        r := Fail(NotOpen(sessionId));
      }
    }
  }
}
