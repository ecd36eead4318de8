/** What the client and the server agree on: each reply the server writes is
    decoded by the client as meant, and each request the client writes is
    served by the server as meant. */
module Exchange {
  import opened Wire
  import opened SessionTables
  import opened ConnectedClients
  import opened Clients

  /** `ReceiveSessionResponse` of what `SendAccepted(id)` wrote is `id`. */
  lemma AcceptedRoundTrip(id: nat, rest: seq<char>)
    requires id < ULONG_LIMIT
    ensures ReceiveSessionResponse(AcceptedReply(id) + rest) == Decoded(Success(id), rest)
  {
    assert AcceptedReply(id) + rest == Line("accepted") + (Line(Decimal(id)) + rest);
    ReadLineOfLine("accepted", Line(Decimal(id)) + rest);
    ReadLineOfLine(Decimal(id), rest);
    ParseDecimal(id, ULONG_LIMIT);
  }

  /** A `rejected` or `error` reply makes the session request fail with
      exactly its reason. */
  lemma RefusalRoundTrip(reason: string, rest: seq<char>)
    requires '\n' !in reason
    ensures ReceiveSessionResponse(RejectedReply(reason) + rest) == Decoded(Failure(reason), rest)
    ensures ReceiveSessionResponse(ErrorReply(reason) + rest) == Decoded(Failure(reason), rest)
  {
    assert RejectedReply(reason) + rest == Line("rejected") + (Line(reason) + rest);
    assert ErrorReply(reason) + rest == Line("error") + (Line(reason) + rest);
    ReadLineOfLine("rejected", Line(reason) + rest);
    ReadLineOfLine("error", Line(reason) + rest);
    ReadLineOfLine(reason, rest);
  }

  /** Any other first line makes the session request fail, naming that line. */
  lemma UnexpectedSessionResponse(line: string, rest: seq<char>)
    requires '\n' !in line && line != "accepted" && line != "rejected" && line != "error"
    ensures ReceiveSessionResponse(Line(line) + rest) == Decoded(Failure(BadSessionResponse + line), rest)
  {
    ReadLineOfLine(line, rest);
  }

  /** The post acknowledgement passes; an `error` reply fails with its text. */
  lemma PostResponseRoundTrip(text: string, rest: seq<char>)
    requires '\n' !in text
    ensures ReceivePostResponse(SuccessReply() + rest) == Decoded(Success(()), rest)
    ensures ReceivePostResponse(ErrorReply(text) + rest) == Decoded(Failure(text), rest)
  {
    ReadLineOfLine("success", rest);
    assert ErrorReply(text) + rest == Line("error") + (Line(text) + rest);
    ReadLineOfLine("error", Line(text) + rest);
    ReadLineOfLine(text, rest);
  }

  /** The client reads back exactly the content the server's get reply sent,
      newlines in it included. */
  lemma DocumentRoundTrip(name: string, content: string, rest: seq<char>)
    requires '\n' !in name && |content| < INT_LIMIT
    ensures ReceiveGetResponse(DocumentReply(name, content) + rest) == Decoded(Success(content), rest)
  {
    var tail := Line(Decimal(|content|)) + (content + rest);
    assert DocumentReply(name, content) + rest == Line("success") + (Line(name) + tail);
    ReadLineOfLine("success", Line(name) + tail);
    ReadLineOfLine(name, tail);
    ReadLineOfLine(Decimal(|content|), content + rest);
    ParseDecimal(|content|, INT_LIMIT);
    assert (content + rest)[..|content|] == content && (content + rest)[|content|..] == rest;
  }

  /** An `error` reply to a get makes the client's get fail with exactly its text. */
  lemma GetErrorRoundTrip(text: string, rest: seq<char>)
    requires '\n' !in text
    ensures ReceiveGetResponse(ErrorReply(text) + rest) == Decoded(Failure(text), rest)
  {
    assert ErrorReply(text) + rest == Line("error") + (Line(text) + rest);
    ReadLineOfLine("error", Line(text) + rest);
    ReadLineOfLine(text, rest);
  }

  /** The server answers the client's `open` request with `OnOpen`. */
  lemma OpenServed(c: Conn, rest: seq<char>)
    requires c.input == OpenRequest() + rest
    ensures Step(c) == (OnOpen(c.(input := rest)), false)
  {
    ReadLineOfLine("open", rest);
  }

  /** On an unbound connection, the client's resume request binds the id when
      it names an open session and is rejected otherwise. */
  lemma ResumeServed(c: Conn, id: nat, rest: seq<char>)
    requires c.sessionId == 0 && id < ULONG_LIMIT
    requires c.input == ResumeRequest(id) + rest
    ensures Step(c) == (
      if IsOpen(c.table, id) then c.(sessionId := id, input := rest, output := c.output + AcceptedReply(id))
      else c.(input := rest, output := c.output + RejectedReply(ResumeRefused)), false)
  {
    assert c.input == Line("resume") + (Line(Decimal(id)) + rest);
    ReadLineOfLine("resume", Line(Decimal(id)) + rest);
    ReadLineOfLine(Decimal(id), rest);
    ParseDecimal(id, ULONG_LIMIT);
  }

  /** The client's close request closes that session and unbinds the
      connection, or is answered with the table's error. */
  lemma CloseServed(c: Conn, id: nat, rest: seq<char>)
    requires id < ULONG_LIMIT
    requires c.input == CloseRequest(id) + rest
    ensures Step(c) == (
      if IsOpen(c.table, id) then c.(table := Close(c.table, id).0, sessionId := 0, input := rest, output := c.output + ClosedReply(id))
      else c.(input := rest, output := c.output + ErrorReply(Message(NotOpen(id)))), false)
  {
    assert c.input == Line("close") + (Line(Decimal(id)) + rest);
    ReadLineOfLine("close", Line(Decimal(id)) + rest);
    ReadLineOfLine(Decimal(id), rest);
    ParseDecimal(id, ULONG_LIMIT);
  }

  /** On a bound connection, the client's get request is answered with the
      stored document or the table's error. */
  lemma GetServed(c: Conn, name: string, rest: seq<char>)
    requires c.sessionId != 0 && '\n' !in name
    requires c.input == GetRequest(name) + rest
    ensures Step(c) == (c.(input := rest, output := c.output +
      match Get(c.table, c.sessionId, name)
      case Success(content) => DocumentReply(name, content)
      case Failure(e) => ErrorReply(Message(e))), false)
  {
    assert c.input == Line("get") + (Line(name) + rest);
    ReadLineOfLine("get", Line(name) + rest);
    ReadLineOfLine(name, rest);
  }

  /** On a bound connection, the client's post request stores exactly the
      content sent, newlines in it included, and is acknowledged; a table
      failure is answered with its error and stores nothing. */
  lemma PostServed(c: Conn, name: string, content: string, rest: seq<char>)
    requires c.sessionId != 0 && '\n' !in name && |content| < INT_LIMIT
    requires c.input == PostRequest(name, content) + rest
    ensures Step(c) == (
      if IsOpen(c.table, c.sessionId) then
        c.(table := Put(c.table, c.sessionId, name, content).0, input := rest, output := c.output + SuccessReply())
      else c.(input := rest, output := c.output + ErrorReply(Message(NotOpen(c.sessionId)))), false)
  {
    var tail := Line(Decimal(|content|)) + (content + rest);
    assert c.input == Line("post") + (Line(name) + tail);
    ReadLineOfLine("post", Line(name) + tail);
    ReadLineOfLine(name, tail);
    ReadLineOfLine(Decimal(|content|), content + rest);
    ParseDecimal(|content|, INT_LIMIT);
    assert (content + rest)[..|content|] == content && (content + rest)[|content|..] == rest;
  }

  lemma ServeUnfold(c: Conn)
    requires !Step(c).1
    ensures Serve(c) == Serve(Step(c).0)
  {
  }

  // The conversation of `OpenPostGetClose`, one turn per lemma, from the last
  // turn back to the first; each states where the rest of the loop ends up.

  lemma CloseTurn(t: Table, id: nat, out: seq<char>)
    requires IsOpen(t, id) && id < ULONG_LIMIT
    ensures Serve(Conn(t, id, CloseRequest(id), out)) == Conn(Close(t, id).0, 0, [], out + ClosedReply(id))
  {
    var c := Conn(t, id, CloseRequest(id), out);
    assert CloseRequest(id) == CloseRequest(id) + [];
    CloseServed(c, id, []);
    ServeUnfold(c);
    EndOfStream(Step(c).0);
  }

  lemma GetCloseTurns(t: Table, id: nat, name: string, content: string, out: seq<char>)
    requires IsOpen(t, id) && 0 < id < ULONG_LIMIT && '\n' !in name && Get(t, id, name) == Success(content)
    ensures Serve(Conn(t, id, GetRequest(name) + CloseRequest(id), out))
      == Conn(Close(t, id).0, 0, [], out + DocumentReply(name, content) + ClosedReply(id))
  {
    var c := Conn(t, id, GetRequest(name) + CloseRequest(id), out);
    GetServed(c, name, CloseRequest(id));
    ServeUnfold(c);
    CloseTurn(t, id, out + DocumentReply(name, content));
  }

  lemma PostGetCloseTurns(t: Table, id: nat, name: string, content: string, out: seq<char>)
    requires IsOpen(t, id) && 0 < id < ULONG_LIMIT && '\n' !in name && |content| < INT_LIMIT
    ensures Serve(Conn(t, id, PostRequest(name, content) + (GetRequest(name) + CloseRequest(id)), out))
      == Conn(Close(Put(t, id, name, content).0, id).0, 0, [],
              out + SuccessReply() + DocumentReply(name, content) + ClosedReply(id))
  {
    var c := Conn(t, id, PostRequest(name, content) + (GetRequest(name) + CloseRequest(id)), out);
    PostServed(c, name, content, GetRequest(name) + CloseRequest(id));
    ServeUnfold(c);
    PutThenGet(t, id, name, content);
    GetCloseTurns(Put(t, id, name, content).0, id, name, content, out + SuccessReply());
  }

  /** A whole conversation on a fresh table: open, post a document, get it
      back, close. The server's replies are accepted 1, success, the document,
      and closed 1 (AcceptedRoundTrip and DocumentRoundTrip show that the
      client decodes the first as session 1 and the third as the content). */
  lemma {:induction false} OpenPostGetClose(name: string, content: string)
    requires '\n' !in name && |content| < INT_LIMIT
    ensures var c := Conn(Empty(), 0,
        OpenRequest() + PostRequest(name, content) + GetRequest(name) + CloseRequest(1), []);
      Serve(c).output == AcceptedReply(1) + SuccessReply() + DocumentReply(name, content) + ClosedReply(1)
      && Serve(c).sessionId == 0 && !IsOpen(Serve(c).table, 1)
  {
    var later := PostRequest(name, content) + (GetRequest(name) + CloseRequest(1));
    var c := Conn(Empty(), 0, OpenRequest() + later, []);
    assert OpenRequest() + PostRequest(name, content) + GetRequest(name) + CloseRequest(1)
      == OpenRequest() + later;
    OpenServed(c, later);
    assert [] + AcceptedReply(1) == AcceptedReply(1);
    ServeUnfold(c);
    PostGetCloseTurns(Open(Empty()).0, 1, name, content, AcceptedReply(1));
  }

  /** The client's `CloseSession` writes its request but reads no reply, so
      the server's `closed` reply is still unread when the next session
      request decodes its answer, which then fails. */
  lemma UnreadClosedReply(id: nat, rest: seq<char>)
    ensures ReceiveSessionResponse(ClosedReply(id) + rest).result == Failure(BadSessionResponse + "closed")
  {
    assert ClosedReply(id) + rest == Line("closed") + (Line(Decimal(id)) + rest);
    UnexpectedSessionResponse("closed", Line(Decimal(id)) + rest);
  }
}
