/** One connected client on the server side: a loop that reads a verb line,
    dispatches it to a handler that consults the shared session table, and
    writes a framed reply. The connection remembers at most one session id
    (0 = none). It ends at end of stream or after an unrecognised verb. */
module ConnectedClients {
  import opened Wire
  import opened SessionTables

  // Error texts. The first three are the server's own; the others stand for
  // messages the source leaves unwritten (see README).
  const InvalidMessage: string := "Invalid message"
  const SessionAlreadyOpen: string := "Session already open!"
  const CannotResume: string := "Session already open, cannot resume!"
  const ResumeRefused: string := "Session is not open, cannot resume!"
  const NoSessionForGet: string := "No session open, cannot get!"
  const NoSessionForPost: string := "No session open, cannot post!"
  const MissingName: string := "Missing document name"

  /** `SendAccepted(id)`. */
  function AcceptedReply(id: nat): string
  {
    Line("accepted") + Line(Decimal(id))
  }

  /** `SendRejected(reason)`. */
  function RejectedReply(reason: string): string
  {
    Line("rejected") + Line(reason)
  }

  /** `SendClosed(id)`. */
  function ClosedReply(id: nat): string
  {
    Line("closed") + Line(Decimal(id))
  }

  /** `SendSuccess()`, the answer to a post. */
  function SuccessReply(): string
  {
    Line("success")
  }

  /** `SendSuccess(name, content)`, the answer to a get: name, length, then the
      content itself, read back by length and so not followed by a newline. */
  function DocumentReply(name: string, content: string): string
  {
    Line("success") + Line(name) + Line(Decimal(|content|)) + content
  }

  /** `SendError(text)`. */
  function ErrorReply(text: string): string
  {
    Line("error") + Line(text)
  }

  /** The recognised verbs; any other line ends the connection. */
  predicate IsVerb(msg: string)
  {
    msg == "open" || msg == "resume" || msg == "close" || msg == "get" || msg == "post"
  }

  /** A connection's state: the shared table, the bound session (0 = none), the
      unread input and everything written so far. */
  datatype Conn = Conn(table: Table, sessionId: nat, input: seq<char>, output: seq<char>)

  /** The invariant the handlers keep: the table is well formed and a bound id
      names a session in it. */
  ghost predicate Inv(c: Conn)
  {
    WellFormed(c.table) && (c.sessionId == 0 || c.sessionId in c.table.sessions)
  }

  /** `HandleOpen`. */
  function OnOpen(c: Conn): (r: Conn)
    ensures Inv(c) ==> Inv(r)
    ensures r.input == c.input
    ensures c.sessionId == 0 ==> var (t', id) := Open(c.table);
      r == c.(table := t', sessionId := id, output := c.output + AcceptedReply(id))
    ensures c.sessionId != 0 ==> r == c.(output := c.output + ErrorReply(SessionAlreadyOpen))
  {
    if c.sessionId == 0 then
      var (t', id) := Open(c.table);
      c.(table := t', sessionId := id, output := c.output + AcceptedReply(id))
    else
      c.(output := c.output + ErrorReply(SessionAlreadyOpen))
  }

  /** `HandleResume`: the id line is read first, whatever the binding. */
  function OnResume(c: Conn): (r: Conn)
    ensures Inv(c) ==> Inv(r)
    ensures |r.input| <= |c.input| && r.table == c.table
    ensures c.sessionId != 0 ==> r.sessionId == c.sessionId
    ensures r.sessionId != c.sessionId ==> IsOpen(c.table, r.sessionId)
    // bound: only the id line is consumed, and the reply is the "already open" error
    ensures c.sessionId != 0 ==> r == c.(input := NextLine(c.input).1, output := c.output + ErrorReply(CannotResume))
    // unbound: an id line naming an open session binds it and is accepted; any
    // other id is rejected and an id line that does not parse is an error
    ensures c.sessionId == 0 ==> var id := ParseLine(NextLine(c.input).0, ULONG_LIMIT);
      && r.input == NextLine(c.input).1
      && (id.Some? && IsOpen(c.table, id.value) ==>
            r.sessionId == id.value && r.output == c.output + AcceptedReply(id.value))
      && (id.Some? && !IsOpen(c.table, id.value) ==>
            r.sessionId == 0 && r.output == c.output + RejectedReply(ResumeRefused))
      && (id.None? ==> r.sessionId == 0 && r.output == c.output + ErrorReply(MalformedNumber))
  {
    var (arg, rest) := NextLine(c.input);
    var c1 := c.(input := rest);
    if c.sessionId == 0 then
      match ParseLine(arg, ULONG_LIMIT)
      case None => c1.(output := c.output + ErrorReply(MalformedNumber))
      case Some(id) =>
        if IsOpen(c.table, id) then c1.(sessionId := id, output := c.output + AcceptedReply(id))
        else c1.(output := c.output + RejectedReply(ResumeRefused))
    else
      c1.(output := c.output + ErrorReply(CannotResume))
  }

  /** `HandleClose`: reads the id line, closes that session, reports it and
      drops the binding; a table failure becomes an `error` reply. */
  function OnClose(c: Conn): (r: Conn)
    ensures Inv(c) ==> Inv(r)
    ensures |r.input| <= |c.input|
    ensures r.sessionId == c.sessionId || r.sessionId == 0
  {
    var (arg, rest) := NextLine(c.input);
    var c1 := c.(input := rest);
    match ParseLine(arg, ULONG_LIMIT)
    case None => c1.(output := c.output + ErrorReply(MalformedNumber))
    case Some(id) =>
      var (t', outcome) := Close(c.table, id);
      match outcome
      case Fail(e) => c1.(output := c.output + ErrorReply(Message(e)))
      case Pass => c1.(table := t', sessionId := 0, output := c.output + ClosedReply(id))
  }

  /** `HandleGet`: only a bound connection reads the name line and asks the table. */
  function OnGet(c: Conn): (r: Conn)
    ensures r.table == c.table && r.sessionId == c.sessionId
    ensures |r.input| <= |c.input|
    ensures c.sessionId == 0 ==> r == c.(output := c.output + ErrorReply(NoSessionForGet))
  {
    if c.sessionId != 0 then
      var (name, rest) := NextLine(c.input);
      var c1 := c.(input := rest);
      match name
      case None => c1.(output := c.output + ErrorReply(MissingName))
      case Some(key) =>
        match Get(c.table, c.sessionId, key)
        case Failure(e) => c1.(output := c.output + ErrorReply(Message(e)))
        case Success(content) => c1.(output := c.output + DocumentReply(key, content))
    else
      c.(output := c.output + ErrorReply(NoSessionForGet))
  }

  /** `HandlePost`: only a bound connection reads name, length and content and
      stores the document. The flag says the stream ended inside the content. */
  function OnPost(c: Conn): (r: (Conn, bool))
    ensures Inv(c) ==> Inv(r.0)
    ensures r.0.sessionId == c.sessionId
    ensures |r.0.input| <= |c.input|
    ensures r.1 ==> r.0 == c.(input := [])
    ensures c.sessionId == 0 ==> r == (c.(output := c.output + ErrorReply(NoSessionForPost)), false)
  {
    if c.sessionId != 0 then
      var (name, rest) := NextLine(c.input);
      var (lengthLine, rest') := NextLine(rest);
      match (name, ParseLine(lengthLine, INT_LIMIT))
      case (None, _) => (c.(input := rest, output := c.output + ErrorReply(MissingName)), false)
      case (_, None) => (c.(input := rest', output := c.output + ErrorReply(MalformedNumber)), false)
      case (Some(key), Some(length)) =>
        match ReadDocument(rest', length)
        case None => (c.(input := []), true)
        case Some((content, rest'')) =>
          var c1 := c.(input := rest'');
          var (t', outcome) := Put(c.table, c.sessionId, key, content);
          match outcome
          case Fail(e) => (c1.(output := c.output + ErrorReply(Message(e))), false)
          case Pass => (c1.(table := t', output := c.output + SuccessReply()), false)
    else
      (c.(output := c.output + ErrorReply(NoSessionForPost)), false)
  }

  /** One turn of the loop in `Run`: the new state and whether the loop ends. */
  function Step(c: Conn): (r: (Conn, bool))
    ensures Inv(c) ==> Inv(r.0)
    ensures !r.1 ==> |r.0.input| < |c.input|
    ensures c.input == [] ==> r == (c, true)
  {
    match ReadLine(c.input)
    case None => (c, true)
    case Some((msg, rest)) =>
      var c1 := c.(input := rest);
      if msg == "open" then (OnOpen(c1), false)
      else if msg == "resume" then (OnResume(c1), false)
      else if msg == "close" then (OnClose(c1), false)
      else if msg == "get" then (OnGet(c1), false)
      else if msg == "post" then OnPost(c1)
      else (c1.(output := c.output + ErrorReply(InvalidMessage)), true)
  }

  /** The whole of `Run`: turns of the loop until it ends. */
  function Serve(c: Conn): (r: Conn)
    decreases |c.input|
  {
    var (c', done) := Step(c);
    if done then c' else Serve(c')
  }

  /** The loop keeps the invariant, whatever the input. */
  lemma {:induction false} ServeKeepsInv(c: Conn)
    requires Inv(c)
    ensures Inv(Serve(c))
    decreases |c.input|
  {
    var (c', done) := Step(c);
    if !done {
      ServeKeepsInv(c');
    }
  }

  /** Replies are only ever appended: the output written before stays a prefix. */
  lemma {:induction false} ServeAppends(c: Conn)
    ensures c.output <= Serve(c).output
    decreases |c.input|
  {
    var (c', done) := Step(c);
    assert c.output <= c'.output;
    if !done {
      ServeAppends(c');
    }
  }

  /** End of stream ends the loop with no reply and nothing changed. */
  lemma EndOfStream(c: Conn)
    requires c.input == []
    ensures Serve(c) == c
  {
  }

  /** A line that is not a verb gets exactly `error`, `Invalid message`, and
      the loop ends: the rest of the input is never looked at. */
  lemma InvalidVerbEnds(c: Conn, msg: string, rest: seq<char>)
    requires '\n' !in msg && !IsVerb(msg)
    requires c.input == Line(msg) + rest
    ensures Serve(c) == c.(input := rest, output := c.output + ErrorReply(InvalidMessage))
  {
    ReadLineOfLine(msg, rest);
  }

  /** A verb line never ends the loop, except a post whose content the stream
      cuts short. */
  lemma VerbContinues(c: Conn, msg: string, rest: seq<char>)
    requires '\n' !in msg && IsVerb(msg) && msg != "post"
    requires c.input == Line(msg) + rest
    ensures !Step(c).1
  {
    ReadLineOfLine(msg, rest);
  }

  /** Following the code, a `get` on an unbound connection does not read its
      name line, so that line is then taken for a verb: a name that is not one
      ends the connection. */
  lemma IdleGetEndsConnection(c: Conn, name: string, rest: seq<char>)
    requires c.sessionId == 0 && '\n' !in name && !IsVerb(name)
    requires c.input == Line("get") + Line(name) + rest
    ensures Serve(c) == c.(input := rest, output := c.output + ErrorReply(NoSessionForGet) + ErrorReply(InvalidMessage))
  {
    assert c.input == Line("get") + (Line(name) + rest);
    ReadLineOfLine("get", Line(name) + rest);
    var c1 := Step(c).0;
    assert c1 == c.(input := Line(name) + rest, output := c.output + ErrorReply(NoSessionForGet));
    InvalidVerbEnds(c1, name, rest);
  }

  // ---------------------------------------------------------------------------
  // The connection object

  class ConnectedClient {
    const sessionTable: SessionTable   // server's session table, shared
    var sessionId: nat                 // session bound to this connection, 0 = none
    var input: seq<char>               // what the reader has not consumed yet
    var output: seq<char>              // everything the writer has written

    function State(): Conn
      reads this, sessionTable
    {
      Conn(sessionTable.Model(), sessionId, input, output)
    }

    ghost predicate Valid()
      reads this, sessionTable
    {
      sessionTable.Valid() && Inv(State())
    }

    /** A new connection has no session bound and has written nothing. */
    constructor (sessionTable: SessionTable, input: seq<char>)
      requires sessionTable.Valid()
      ensures Valid()
      ensures this.sessionTable == sessionTable && this.input == input
      ensures sessionId == 0 && output == []
    {
      this.sessionTable := sessionTable;
      sessionId := 0;
      this.input := input;
      output := [];
    }

    /** Reads and handles messages until end of stream or an invalid message. */
    method Run()
      requires Valid()
      modifies this, sessionTable
      ensures Valid()
      ensures State() == Serve(old(State()))
    {
      var done := false;
      while !done
        invariant Valid()
        invariant done ==> State() == Serve(old(State()))
        invariant !done ==> Serve(State()) == Serve(old(State()))
        decreases |input| + if done then 0 else 1
      {
        ghost var before := State();
        var msg, rest := NextLine(input).0, NextLine(input).1;
        if msg.None? {
          // no message means the client disconnected
          done := true;
        } else {
          input := rest;
          match msg.value
          case "open" => HandleOpen();
          case "resume" => HandleResume();
          case "close" => HandleClose();
          case "get" => HandleGet();
          case "post" => done := HandlePost();
          case _ =>
            SendError(InvalidMessage);
            done := true;
        }
        assert (State(), done) == Step(before);
      }
    }

    method HandleOpen()
      requires Valid()
      modifies this, sessionTable
      ensures Valid()
      ensures State() == OnOpen(old(State()))
    {
      if sessionId == 0 {
        sessionId := sessionTable.OpenSession();
        SendAccepted(sessionId);
      } else {
        SendError(SessionAlreadyOpen);
      }
    }

    method HandleResume()
      requires Valid()
      modifies this
      ensures Valid()
      ensures State() == OnResume(old(State()))
    {
      var arg, rest := NextLine(input).0, NextLine(input).1;
      input := rest;
      if sessionId == 0 {
        match ParseLine(arg, ULONG_LIMIT)
        case None => SendError(MalformedNumber);
        case Some(id) =>
          var ok := sessionTable.ResumeSession(id);
          if ok {
            sessionId := id;
            SendAccepted(id);
          } else {
            SendRejected(ResumeRefused);
          }
      } else {
        SendError(CannotResume);
      }
    }

    method HandleClose()
      requires Valid()
      modifies this, sessionTable
      ensures Valid()
      ensures State() == OnClose(old(State()))
    {
      var arg, rest := NextLine(input).0, NextLine(input).1;
      input := rest;
      match ParseLine(arg, ULONG_LIMIT)
      case None => SendError(MalformedNumber);
      case Some(id) =>
        var outcome := sessionTable.CloseSession(id);
        match outcome
        case Fail(e) => SendError(Message(e));
        case Pass =>
          SendClosed(id);
          sessionId := 0;
    }

    method HandleGet()
      requires Valid()
      modifies this
      ensures Valid()
      ensures State() == OnGet(old(State()))
    {
      if sessionId != 0 {
        var name, rest := NextLine(input).0, NextLine(input).1;
        input := rest;
        match name
        case None => SendError(MissingName);
        case Some(key) =>
          var r := sessionTable.GetSessionValue(sessionId, key);
          match r
          case Failure(e) => SendError(Message(e));
          case Success(content) => SendDocument(key, content);
      } else {
        SendError(NoSessionForGet);
      }
    }

    /** Returns true when the stream ended inside the document. */
    method HandlePost() returns (ended: bool)
      requires Valid()
      modifies this, sessionTable
      ensures Valid()
      ensures (State(), ended) == OnPost(old(State()))
    {
      ended := false;
      if sessionId != 0 {
        var name, rest := NextLine(input).0, NextLine(input).1;
        var lengthLine, rest' := NextLine(rest).0, NextLine(rest).1;
        var length := ParseLine(lengthLine, INT_LIMIT);
        if name.None? {
          input := rest;
          SendError(MissingName);
        } else if length.None? {
          input := rest';
          SendError(MalformedNumber);
        } else {
          input := rest';
          var content := ReceiveDocument(length.value);
          if content.None? {
            ended := true;
          } else {
            var outcome := sessionTable.PutSessionValue(sessionId, name.value, content.value);
            match outcome
            case Fail(e) => SendError(Message(e));
            case Pass => SendSuccess();
          }
        }
      } else {
        SendError(NoSessionForPost);
      }
    }

    method SendAccepted(id: nat)
      modifies this`output
      ensures output == old(output) + AcceptedReply(id)
    {
      output := output + Line("accepted");
      output := output + Line(Decimal(id));
    }

    method SendRejected(reason: string)
      modifies this`output
      ensures output == old(output) + RejectedReply(reason)
    {
      output := output + Line("rejected");
      output := output + Line(reason);
    }

    method SendClosed(id: nat)
      modifies this`output
      ensures output == old(output) + ClosedReply(id)
    {
      output := output + Line("closed");
      output := output + Line(Decimal(id));
    }

    method SendSuccess()
      modifies this`output
      ensures output == old(output) + SuccessReply()
    {
      output := output + Line("success");
    }

    method SendDocument(name: string, content: string)
      modifies this`output
      ensures output == old(output) + DocumentReply(name, content)
    {
      output := output + Line("success");
      output := output + Line(name);
      output := output + Line(Decimal(|content|));
      output := output + content;
    }

    method SendError(text: string)
      modifies this`output
      ensures output == old(output) + ErrorReply(text)
    {
      output := output + Line("error");
      output := output + Line(text);
    }

    /** Reads characters until `length` have arrived; None when the stream
        ends first, having consumed it all. */
    method ReceiveDocument(length: nat) returns (content: Option<string>)
      modifies this`input
      ensures content.None? ==> input == [] && ReadDocument(old(input), length).None?
      ensures content.Some? ==> ReadDocument(old(input), length) == Some((content.value, input))
    {
      var received: string := [];
      while |received| < length && input != []
        invariant |received| <= length
        invariant old(input) == received + input
        decreases length - |received|
      {
        received := received + [input[0]];
        input := input[1..];
      }
      if |received| == length {
        assert old(input)[..length] == received;
        content := Some(received);
      } else {
        content := None;
      }
    }
  }
}
