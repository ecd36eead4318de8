/** The client library: a connection flag with guards, the requests it writes
    and the decoders for the server's replies. */
module Clients {
  import opened Wire

  const NotConnected: string := "Cannot perform action. Not connected to server!"
  const AlreadyConnected: string := "Cannot perform action. Already connected to server!"
  /** The message of `new Exception(null)`, thrown when the reason line is missing. */
  const NullReason: string := "Exception of type 'System.Exception' was thrown."
  const BadSessionResponse: string := "Expected to receive a valid session response, instead got: "
  const BadPostResponse: string := "Expected to receive a valid post response, instead got... "
  const BadGetResponse: string := "Expected to receive a valid get response, instead got... "
  // Chosen texts for failures the source leaves unwritten (see README).
  const WrongSession: string := "Server resumed a different session"
  const ShortDocument: string := "Stream ended inside the document"

  /** What a decoder yields, and the stream left after the lines it read. */
  datatype Decoded<+T> = Decoded(result: Result<T, string>, rest: seq<char>)

  /** The text of a line as C# concatenates it: null becomes empty. */
  function Text(line: Option<string>): string
  {
    match line
    case None => ""
    case Some(s) => s
  }

  /** The message of `new Exception(line)`. */
  function Reason(line: Option<string>): string
  {
    match line
    case None => NullReason
    case Some(s) => s
  }

  function OpenRequest(): string
  {
    Line("open")
  }

  function ResumeRequest(sessionId: nat): string
  {
    Line("resume") + Line(Decimal(sessionId))
  }

  function CloseRequest(sessionId: nat): string
  {
    Line("close") + Line(Decimal(sessionId))
  }

  function GetRequest(name: string): string
  {
    Line("get") + Line(name)
  }

  function PostRequest(name: string, content: string): string
  {
    Line("post") + Line(name) + Line(Decimal(|content|)) + content
  }

  /** The reply to open or resume: `accepted` and an id gives that id;
      `rejected` or `error` and a reason fails with that reason; anything else
      fails. */
  function ReceiveSessionResponse(input: seq<char>): (d: Decoded<nat>)
    ensures d.result.Success? ==> NextLine(input).0 == Some("accepted") && d.result.value < ULONG_LIMIT
    ensures NextLine(input).0 == Some("rejected") || NextLine(input).0 == Some("error") ==>
      d == Decoded(Failure(Reason(NextLine(NextLine(input).1).0)), NextLine(NextLine(input).1).1)
    ensures |d.rest| <= |input|
  {
    var (line, rest) := NextLine(input);
    if line == Some("accepted") then
      var (idLine, rest') := NextLine(rest);
      match ParseLine(idLine, ULONG_LIMIT)
      case Some(id) => Decoded(Success(id), rest')
      case None => Decoded(Failure(MalformedNumber), rest')
    else if line == Some("rejected") || line == Some("error") then
      var (reason, rest') := NextLine(rest);
      Decoded(Failure(Reason(reason)), rest')
    else
      Decoded(Failure(BadSessionResponse + Text(line)), rest)
  }

  /** The reply to post: `success` passes; `error` and a reason fails with it;
      anything else fails. */
  function ReceivePostResponse(input: seq<char>): (d: Decoded<()>)
    ensures d.result.Success? <==> NextLine(input).0 == Some("success")
    ensures d.result.Success? ==> d.rest == NextLine(input).1
    ensures |d.rest| <= |input|
  {
    var (line, rest) := NextLine(input);
    if line == Some("success") then
      Decoded(Success(()), rest)
    else if line == Some("error") then
      var (reason, rest') := NextLine(rest);
      Decoded(Failure(Reason(reason)), rest')
    else
      Decoded(Failure(BadPostResponse + Text(line)), rest)
  }

  /** The reply to get: `success`, the name, the length and that many
      characters of content give the content. */
  function ReceiveGetResponse(input: seq<char>): (d: Decoded<string>)
    ensures d.result.Success? ==> NextLine(input).0 == Some("success") && |d.result.value| < INT_LIMIT
    ensures |d.rest| <= |input|
  {
    var (line, rest) := NextLine(input);
    if line == Some("success") then
      var (_, rest') := NextLine(rest);
      var (lengthLine, rest'') := NextLine(rest');
      match ParseLine(lengthLine, INT_LIMIT)
      case None => Decoded(Failure(MalformedNumber), rest'')
      case Some(length) =>
        match ReadDocument(rest'', length)
        case None => Decoded(Failure(ShortDocument), [])
        case Some((content, rest''')) => Decoded(Success(content), rest''')
    else if line == Some("error") then
      var (reason, rest') := NextLine(rest);
      Decoded(Failure(Reason(reason)), rest')
    else
      Decoded(Failure(BadGetResponse + Text(line)), rest)
  }

  class Client {
    var connected: bool
    var sessionID: nat
    var input: seq<char>    // what the server has sent and the client not read yet
    var output: seq<char>   // what the client has written on this connection

    /** A new client is not connected and has no session. */
    constructor ()
      ensures !connected && sessionID == 0
      ensures input == [] && output == []
    {
      connected := false;
      sessionID := 0;
      input := [];
      output := [];
    }

    method ValidateConnected() returns (r: Outcome<string>)
      ensures r == Pass <==> connected
      ensures r.Fail? ==> r.error == NotConnected
    {
      r := if connected then Pass else Fail(NotConnected);
    }

    method ValidateDisconnected() returns (r: Outcome<string>)
      ensures r == Pass <==> !connected
      ensures r.Fail? ==> r.error == AlreadyConnected
    {
      r := if connected then Fail(AlreadyConnected) else Pass;
    }

    /** Connects to a server whose replies will be `replies`; fails, changing
        nothing, when already connected. */
    method Connect(replies: seq<char>) returns (r: Outcome<string>)
      modifies this
      ensures old(connected) ==> r == Fail(AlreadyConnected) && unchanged(this)
      ensures !old(connected) ==> r == Pass && connected && input == replies && output == []
      ensures sessionID == old(sessionID)
    {
      r := ValidateDisconnected();
      if r.Pass? {
        input := replies;
        output := [];
        connected := true;
      }
    }

    /** Disconnects; fails, changing nothing, when not connected. */
    method Disconnect() returns (r: Outcome<string>)
      modifies this`connected
      ensures old(connected) ==> r == Pass && !connected
      ensures !old(connected) ==> r == Fail(NotConnected) && !connected
    {
      r := ValidateConnected();
      if r.Pass? {
        connected := false;
      }
    }

    method SendOpen()
      modifies this`output
      ensures output == old(output) + OpenRequest()
    {
      output := output + Line("open");
    }

    method SendResume(sessionId: nat)
      modifies this`output
      ensures output == old(output) + ResumeRequest(sessionId)
    {
      output := output + Line("resume");
      output := output + Line(Decimal(sessionId));
    }

    method SendClose(sessionId: nat)
      modifies this`output
      ensures output == old(output) + CloseRequest(sessionId)
    {
      output := output + Line("close");
      output := output + Line(Decimal(sessionId));
    }

    method SendGet(name: string)
      modifies this`output
      ensures output == old(output) + GetRequest(name)
    {
      output := output + Line("get");
      output := output + Line(name);
    }

    method SendPost(name: string, content: string)
      modifies this`output
      ensures output == old(output) + PostRequest(name, content)
    {
      output := output + Line("post");
      output := output + Line(name);
      output := output + Line(Decimal(|content|));
      output := output + content;
    }

    /** Writes `open` and keeps the id the server accepts; the reply's failure
        otherwise. Not connected: fails before writing anything. */
    method OpenSession() returns (r: Outcome<string>)
      modifies this
      ensures !old(connected) ==> r == Fail(NotConnected) && unchanged(this)
      ensures connected == old(connected)
      ensures old(connected) ==>
        var d := ReceiveSessionResponse(old(input));
        && output == old(output) + OpenRequest()
        && input == d.rest
        && (d.result.Success? ==> r == Pass && sessionID == d.result.value)
        && (d.result.Failure? ==> r == Fail(d.result.error) && sessionID == old(sessionID))
    {
      r := ValidateConnected();
      if r.Pass? {
        SendOpen();
        var d := ReceiveSessionResponse(input);
        input := d.rest;
        match d.result
        case Success(id) => sessionID := id;
        case Failure(e) => r := Fail(e);
      }
    }

    /** Writes `resume` and the id, and keeps that id once the server accepts
        that same id. */
    method ResumeSession(trySessionID: nat) returns (r: Outcome<string>)
      modifies this
      ensures !old(connected) ==> r == Fail(NotConnected) && unchanged(this)
      ensures connected == old(connected)
      ensures old(connected) ==>
        var d := ReceiveSessionResponse(old(input));
        && output == old(output) + ResumeRequest(trySessionID)
        && input == d.rest
        && (r == Pass <==> d.result == Success(trySessionID))
        && sessionID == if r == Pass then trySessionID else old(sessionID)
    {
      r := ValidateConnected();
      if r.Pass? {
        SendResume(trySessionID);
        var d := ReceiveSessionResponse(input);
        input := d.rest;
        match d.result
        case Failure(e) => r := Fail(e);
        case Success(id) =>
          if id == trySessionID {
            sessionID := id;
          } else {
            r := Fail(WrongSession);
          }
      }
    }

    /** Writes `close` and the current id, and forgets the session. */
    method CloseSession() returns (r: Outcome<string>)
      modifies this
      ensures !old(connected) ==> r == Fail(NotConnected) && unchanged(this)
      ensures old(connected) ==>
        && r == Pass
        && output == old(output) + CloseRequest(old(sessionID))
        && sessionID == 0 && input == old(input)
      ensures connected == old(connected)
    {
      r := ValidateConnected();
      if r.Pass? {
        SendClose(sessionID);
        sessionID := 0;
      }
    }

    /** Writes `get` and the name and returns the content the server sends. */
    method GetDocument(name: string) returns (r: Result<string, string>)
      modifies this`output, this`input
      ensures !old(connected) ==> r == Failure(NotConnected) && unchanged(this)
      ensures old(connected) ==>
        var d := ReceiveGetResponse(old(input));
        output == old(output) + GetRequest(name) && input == d.rest && r == d.result
    {
      var v := ValidateConnected();
      if v.Fail? {
        return Failure(v.error);
      }
      SendGet(name);
      var d := ReceiveGetResponse(input);
      input := d.rest;
      r := d.result;
    }

    /** Writes `post`, the name, the length and the content, and reports the
        server's answer. */
    method PostDocument(name: string, content: string) returns (r: Outcome<string>)
      modifies this`output, this`input
      ensures !old(connected) ==> r == Fail(NotConnected) && unchanged(this)
      ensures old(connected) ==>
        var d := ReceivePostResponse(old(input));
        && output == old(output) + PostRequest(name, content)
        && input == d.rest
        && (r == Pass <==> d.result.Success?)
        && (d.result.Failure? ==> r == Fail(d.result.error))
    {
      r := ValidateConnected();
      if r.Pass? {
        SendPost(name, content);
        var d := ReceivePostResponse(input);
        input := d.rest;
        if d.result.Failure? {
          r := Fail(d.result.error);
        }
      }
    }
  }
}
