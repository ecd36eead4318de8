# Session/document server: a Dafny model

This project models the core of a small classroom session/document server
(SDServer) and its client library (SDClient), written in C#.

- The **session table** (`SessionTable.cs`) maps `ulong` session ids to a
  per-session key/value map of text. Ids come from a counter that starts at 1
  and is incremented on every open. Id 0 means "no session". A session is open
  until it is closed. It stays in the table afterwards, so its id is never
  handed out again.
- Each **connected client** on the server (`SDConnectedClient.cs`) runs a loop
  that reads one verb line (`open`, `resume`, `close`, `get`, `post`) and
  dispatches it to a handler. The handler consults the shared table and writes
  a framed reply: `accepted`/id, `rejected`/reason, `closed`/id, `success`
  (and, for `get`, name, length and content), or `error`/text. The connection
  remembers one bound session id (0 = none). The loop ends at end of stream or
  after an unrecognised verb, which is answered `error`/`Invalid message`.
- The **client** (`SDClient.cs`) keeps a `connected` flag whose guards fail
  on the wrong state. It writes the requests and decodes the server's replies.

Several methods of the source are still stubs whose comments state what they
do. These are modelled from their comments: `SessionTable.ResumeSession`,
`CloseSession`, `GetSessionValue`, `PutSessionValue`; the server's
`HandleResume`, `HandleClose`, `HandleGet`, `HandlePost`, `SendRejected`,
`SendClosed`, both `SendSuccess`, `ReceiveDocument`; the client's
`ResumeSession`, `CloseSession`, `GetDocument`, `PostDocument`, `SendResume`,
`SendClose`, `SendGet`, `SendPost`, `ReceiveGetResponse`,
`ReceiveDocumentContent` (through `Wire.ReadDocument`), and the `error`
branch of `ReceivePostResponse`. Their placeholder bodies (`return false`,
`return "TODO"`, `throw new Exception("TODO")`) are not modelled.

## Layout

- `wire.dfy` (module `Wire`): the stream as a sequence of characters.
  `ReadLine` is `StreamReader.ReadLine`, with `None` for C#'s null at end of
  stream. `Line` is `WriteLine`. `Decimal` and `ParseNumber` are `ToString`
  and `ulong.Parse`/`int.Parse` on digit strings, with both round trips proved.
- `session_table.dfy` (module `SessionTables`): the table as a value (`Table`)
  with one function per operation (`Open`, `Close`, `Get`, `Put`). Lemmas
  cover sequences of calls. The class `SessionTable` has the source's
  `sessions` and `nextSessionId` fields; its `mutex` is left out.
  `OpenSession`, `CloseSession`, `PutSessionValue` and `GetSessionValue` are
  proved equal to `Open`, `Close`, `Put` and `Get`. `NextSessionId` and
  `ResumeSession` state their results directly.
- `connected_client.dfy` (module `ConnectedClients`): the reply encoders, one
  function per handler (`OnOpen` … `OnPost`), one turn of the loop (`Step`)
  and the whole loop (`Serve`). The class `ConnectedClient` holds the table,
  the bound `sessionId`, the unread input and the written output. Its `Run`
  is the `while (!done)` loop, proved equal to `Serve`.
- `client.dfy` (module `Clients`): the request encoders, the reply decoders
  as functions, and the class `Client` with `connected` and `sessionID`.
- `exchange.dfy` (module `Exchange`): where client and server agree.
  - The client decodes these server replies as meant: `accepted`/id, and
    `rejected` or `error` to a session request; `success` and `error` to a
    post; the document and `error` to a get.
  - The server serves these client requests as meant: open, resume and close,
    and get and post on a connection with a bound session.
  - A whole open/post/get/close conversation is proved end to end.

  They do not agree everywhere. The client never decodes the `closed` reply,
  so it is left unread (`Exchange.UnreadClosedReply`). A get or post on an
  unbound connection is not served as meant
  (`ConnectedClients.IdleGetEndsConnection`).

## Where the model follows the code rather than the intended protocol

- The intended grammar puts a verb and its argument on one line
  (`resume <id>`, `get <name>`). The server switches on the whole line
  (`msg == "resume"`), so in this model arguments come on the following
  lines. Examples are `resume` then the id, and `get`
  then the name. `post` is followed by the name, the length, then the content,
  which is read by length.
- `close` carries the id to close on the next line. This follows the server's
  comment "get the sessionId that the client just asked us to close" and the
  client's `SendClose(ulong sessionId)`. The server closes that id, and it has
  no "session bound" guard, since the source's `HandleClose` has none. On
  success the connection's binding is reset to 0.
- `get` and `post` read their argument lines only inside
  `if (sessionId != 0)`. On an unbound connection, the name line is therefore
  read next as a verb. A name that is not a verb ends the connection with
  `Invalid message` (`ConnectedClients.IdleGetEndsConnection`). An idle
  `get` was meant to answer with an error and leave the connection usable;
  this code does not do that.
- The client's `CloseSession` writes its request but reads no reply. The
  server's `closed` reply then makes the next session request fail
  (`Exchange.UnreadClosedReply`).
- `resume` reads its id line whatever the binding. The id is parsed only when
  no session is bound. Id 0 is never open, so resuming it is rejected.

Texts the source leaves unwritten are chosen constants:
- `Session is not open` and `No value for that key` for the two
  `SessionException`s.
- `Session is not open, cannot resume!` for a rejected resume.
- `No session open, cannot get!` and `No session open, cannot post!`.
- `Missing document name` when the name line is missing.
- .NET's `Input string was not in a correct format.` for any argument that
  does not parse.
- On the client: `Server resumed a different session` and
  `Stream ended inside the document`.

## Model

| member | source | states |
|---|---|---|
| `Wire.ReadLine` | SDServer/SDServer/SDConnectedClient.cs:88-95 | end of stream (null) exactly when nothing is left; otherwise a newline-free line, and the input is that line, a newline and the rest (or a final unterminated line) |
| `Wire.ReadLineOfLine` | SDServer/SDServer/SDConnectedClient.cs:321-326 | reading back a newline-free line written with `WriteLine` yields it and leaves the rest of the stream |
| `Wire.Decimal` | SDServer/SDServer/SDConnectedClient.cs:325 | `ToString` of an id is a nonempty digit string without a leading zero |
| `Wire.ParseDecimal` | SDServer/SDClient/SDClient.cs:187 | `ulong.Parse` of `ToString(n)` is `n` for every `n` below the type's limit |
| `Wire.DecimalOfParse` | SDServer/SDServer/SDConnectedClient.cs:325 | conversely `ToString` of a parsed canonical digit string reproduces the string |
| `Wire.ParseLine` | SDServer/SDClient/SDClient.cs:187 | a parsed argument line exists and is below the limit; a missing line does not parse |
| `SessionTables.Empty` | SDServer/SDServer/SessionTable.cs:49-54 | a new table is well formed and has no open session |
| `SessionTables.Open` | SDServer/SDServer/SessionTable.cs:67-80 | the id is nonzero and not already a key; exactly one key is added, holding an open, empty session; other sessions are unchanged; the counter ends one past the id; well-formedness is kept |
| `SessionTables.Close` | SDServer/SDServer/SessionTable.cs:90-97 | succeeds iff the session is open; it then is closed, keeps its values and stays a key; otherwise fails with NotOpen and changes nothing |
| `SessionTables.Get` | SDServer/SDServer/SessionTable.cs:99-106 | NotOpen if the session is not open, NotFound if the key is absent, otherwise the stored value |
| `SessionTables.Put` | SDServer/SDServer/SessionTable.cs:108-115 | succeeds iff the session is open; a failure changes nothing; no session opens or closes and no key is added |
| `SessionTables.PutThenGet` | SDServer/SDServer/SessionTable.cs:108-115 | a get of the key just put in an open session returns the value put |
| `SessionTables.PutLeavesOthers` | SDServer/SDServer/SessionTable.cs:112 | a put changes the answer of no other (session, key) get |
| `SessionTables.CloseIsTerminal` | SDServer/SDServer/SessionTable.cs:94-95 | after a successful close, the session is not open, a second close fails with NotOpen, and get and put fail with NotOpen |
| `SessionTables.ApplyAllWellFormed` | SDServer/SDServer/SessionTable.cs:25-29 | every sequence of calls keeps each key a nonzero id below the counter |
| `SessionTables.ClosedStaysClosed` | SDServer/SDServer/SessionTable.cs:94 | a closed session stays in the table and stays closed whatever calls follow |
| `SessionTables.KeysAreIssuedIds` | SDServer/SDServer/SessionTable.cs:56-65 | from a new table, the keys are exactly 1 to the number of opens, and the counter is one past that |
| `SessionTables.OpensReturnSuccessiveIds` | SDServer/SDServer/SessionTable.cs:56-65 | from a new table, the k-th open returns k, so ids are nonzero, strictly increasing and never reused |
| `SessionTables.ResumableIffIssuedAndNotClosed` | SDServer/SDServer/SessionTable.cs:82-97 | from a new table, an id is resumable iff an earlier open returned it and no close of it has come since |
| `SessionTables.SessionTable.constructor` | SDServer/SDServer/SessionTable.cs:49-54 | no sessions, counter at 1 |
| `SessionTables.SessionTable.NextSessionId` | SDServer/SDServer/SessionTable.cs:56-65 | returns the counter and increments it by exactly one |
| `SessionTables.SessionTable.OpenSession` | SDServer/SDServer/SessionTable.cs:67-80 | returns the old counter, nonzero and not already a key, and adds exactly that key with an empty open session |
| `SessionTables.SessionTable.ResumeSession` | SDServer/SDServer/SessionTable.cs:82-88 | true iff the id names a session that is still open; changes nothing |
| `SessionTables.SessionTable.CloseSession` | SDServer/SDServer/SessionTable.cs:90-97 | new state and outcome are those of `Close` |
| `SessionTables.SessionTable.GetSessionValue` | SDServer/SDServer/SessionTable.cs:99-106 | result is that of `Get`; changes nothing |
| `SessionTables.SessionTable.PutSessionValue` | SDServer/SDServer/SessionTable.cs:108-115 | new state and outcome are those of `Put` |
| `ConnectedClients.OnOpen` | SDServer/SDServer/SDConnectedClient.cs:161-191 | unbound: binds the id the table opens and writes `accepted` and that id; bound: writes `error`/`Session already open!` and changes nothing else |
| `ConnectedClients.OnResume` | SDServer/SDServer/SDConnectedClient.cs:193-226 | reads the id line whatever the binding and never changes the table; bound: keeps its id and writes only `error`/`Session already open, cannot resume!`; unbound: an open id is bound and `accepted`, any other id `rejected`, an unparsable line a format `error` (the client's own request: `Exchange.ResumeServed`) |
| `ConnectedClients.OnClose` | SDServer/SDServer/SDConnectedClient.cs:228-251 | keeps the invariant; the binding either stays or is reset to 0 |
| `ConnectedClients.OnGet` | SDServer/SDServer/SDConnectedClient.cs:253-285 | never changes the table or binding; unbound: writes only `error`/`No session open, cannot get!` and reads nothing |
| `ConnectedClients.OnPost` | SDServer/SDServer/SDConnectedClient.cs:287-319 | keeps the invariant and the binding; unbound: writes only the error and reads nothing; a cut-short content ends the loop having consumed the stream and written nothing |
| `ConnectedClients.Step` | SDServer/SDServer/SDConnectedClient.cs:83-143 | keeps the invariant; a turn that does not end the loop consumes input; end of stream ends it with no change |
| `ConnectedClients.ServeKeepsInv` | SDServer/SDServer/SDConnectedClient.cs:83-143 | after the whole loop the table is well formed and a bound id names a session in it |
| `ConnectedClients.ServeAppends` | SDServer/SDServer/SDConnectedClient.cs:83-143 | the loop only appends to what was written |
| `ConnectedClients.EndOfStream` | SDServer/SDServer/SDConnectedClient.cs:88-95 | end of stream ends the loop with no reply and nothing changed |
| `ConnectedClients.InvalidVerbEnds` | SDServer/SDServer/SDConnectedClient.cs:132-140 | a line that is not a verb writes exactly `error`/`Invalid message` and ends the loop without reading further |
| `ConnectedClients.VerbContinues` | SDServer/SDServer/SDConnectedClient.cs:100-130 | `open`, `resume`, `close` and `get` never end the loop |
| `ConnectedClients.IdleGetEndsConnection` | SDServer/SDServer/SDConnectedClient.cs:259-285 | on an unbound connection, `get` and a name that is not a verb yield the no-session error, then `Invalid message`, and the loop ends |
| `ConnectedClients.ConnectedClient.constructor` | SDServer/SDServer/SDConnectedClient.cs:35-51 | a new connection has no session bound and has written nothing |
| `ConnectedClients.ConnectedClient.Run` | SDServer/SDServer/SDConnectedClient.cs:72-159 | the loop's final state is `Serve` of the initial one, and the invariant holds |
| `ConnectedClients.ConnectedClient.HandleOpen` | SDServer/SDServer/SDConnectedClient.cs:161-191 | new state is `OnOpen` of the old |
| `ConnectedClients.ConnectedClient.HandleResume` | SDServer/SDServer/SDConnectedClient.cs:193-226 | new state is `OnResume` of the old: bound, only the id line is read and the reply is `error`/`Session already open, cannot resume!`; unbound, an open id is bound and accepted |
| `ConnectedClients.ConnectedClient.HandleClose` | SDServer/SDServer/SDConnectedClient.cs:228-251 | new state is `OnClose` of the old |
| `ConnectedClients.ConnectedClient.HandleGet` | SDServer/SDServer/SDConnectedClient.cs:253-285 | new state is `OnGet` of the old |
| `ConnectedClients.ConnectedClient.HandlePost` | SDServer/SDServer/SDConnectedClient.cs:287-319 | new state and end flag are `OnPost` of the old |
| `ConnectedClients.ConnectedClient.SendAccepted` | SDServer/SDServer/SDConnectedClient.cs:321-328 | appends `accepted` and the id in decimal |
| `ConnectedClients.ConnectedClient.SendRejected` | SDServer/SDServer/SDConnectedClient.cs:330-336 | appends `rejected` and the reason |
| `ConnectedClients.ConnectedClient.SendClosed` | SDServer/SDServer/SDConnectedClient.cs:338-344 | appends `closed` and the id |
| `ConnectedClients.ConnectedClient.SendSuccess` | SDServer/SDServer/SDConnectedClient.cs:346-353 | appends `success` |
| `ConnectedClients.ConnectedClient.SendDocument` | SDServer/SDServer/SDConnectedClient.cs:355-362 | appends `success`, the name, the content length and the content |
| `ConnectedClients.ConnectedClient.SendError` | SDServer/SDServer/SDConnectedClient.cs:364-371 | appends `error` and the text |
| `ConnectedClients.ConnectedClient.ReceiveDocument` | SDServer/SDServer/SDConnectedClient.cs:373-384 | returns exactly the next `length` characters and leaves the rest; None, with the stream used up, if it ends first |
| `Clients.ReceiveSessionResponse` | SDServer/SDClient/SDClient.cs:179-207 | succeeds only on a first line `accepted`, with an id below 2^64; on `rejected` or `error` fails with exactly the next line |
| `Clients.ReceivePostResponse` | SDServer/SDClient/SDClient.cs:225-245 | succeeds iff the first line is `success`, consuming just that line |
| `Clients.ReceiveGetResponse` | SDServer/SDClient/SDClient.cs:247-271 | succeeds only on a first line `success`, with content shorter than `int`'s limit |
| `Clients.Client.constructor` | SDServer/SDClient/SDClient.cs:27-42 | not connected, `sessionID` 0 |
| `Clients.Client.ValidateConnected` | SDServer/SDClient/SDClient.cs:143-147 | passes iff connected; otherwise fails with the not-connected message |
| `Clients.Client.ValidateDisconnected` | SDServer/SDClient/SDClient.cs:149-153 | passes iff not connected; otherwise fails with the already-connected message |
| `Clients.Client.Connect` | SDServer/SDClient/SDClient.cs:46-61 | fails and changes nothing when connected; otherwise connected with fresh streams; `sessionID` kept |
| `Clients.Client.Disconnect` | SDServer/SDClient/SDClient.cs:63-78 | fails when not connected; otherwise disconnected |
| `Clients.Client.SendOpen` | SDServer/SDClient/SDClient.cs:155-161 | appends exactly the line `open` |
| `Clients.Client.SendResume` | SDServer/SDClient/SDClient.cs:171-177 | appends `resume` and the id |
| `Clients.Client.SendClose` | SDServer/SDClient/SDClient.cs:163-169 | appends `close` and the id |
| `Clients.Client.SendGet` | SDServer/SDClient/SDClient.cs:217-223 | appends `get` and the name |
| `Clients.Client.SendPost` | SDServer/SDClient/SDClient.cs:209-215 | appends `post`, the name, the length and the content |
| `Clients.Client.OpenSession` | SDServer/SDClient/SDClient.cs:80-89 | not connected: fails before writing anything; otherwise writes `open`, and keeps the decoded id on success or fails with the reply's message leaving `sessionID` |
| `Clients.Client.ResumeSession` | SDServer/SDClient/SDClient.cs:91-105 | not connected: fails, changing nothing; otherwise writes the request and passes iff the server accepted that same id, which it then keeps |
| `Clients.Client.CloseSession` | SDServer/SDClient/SDClient.cs:107-117 | not connected: fails, changing nothing; otherwise writes `close` and the id, and resets `sessionID` to 0 |
| `Clients.Client.GetDocument` | SDServer/SDClient/SDClient.cs:119-129 | not connected: fails, changing nothing; otherwise writes the request and returns the decoded reply |
| `Clients.Client.PostDocument` | SDServer/SDClient/SDClient.cs:131-141 | not connected: fails, changing nothing; otherwise writes the request and passes iff the reply is `success` |
| `Exchange.AcceptedRoundTrip` | SDServer/SDClient/SDClient.cs:183-187 | decoding what `SendAccepted(id)` wrote yields `id` and leaves the rest of the stream |
| `Exchange.RefusalRoundTrip` | SDServer/SDClient/SDClient.cs:189-202 | a `rejected` or `error` reply makes the session request fail with exactly its reason |
| `Exchange.UnexpectedSessionResponse` | SDServer/SDClient/SDClient.cs:203-206 | any other first line fails with the "Expected to receive a valid session response" message naming it |
| `Exchange.PostResponseRoundTrip` | SDServer/SDClient/SDClient.cs:230-240 | `SendSuccess()` decodes as success and `SendError(text)` as failure with `text` |
| `Exchange.DocumentRoundTrip` | SDServer/SDClient/SDClient.cs:253-260 | the client reads back exactly the content the server's get reply sent, newlines included |
| `Exchange.GetErrorRoundTrip` | SDServer/SDClient/SDClient.cs:247-271 | an `error` reply to a get makes the client's get fail with exactly its text and leaves the rest of the stream |
| `Exchange.OpenServed` | SDServer/SDServer/SDConnectedClient.cs:102-106 | the client's `open` request is handled by `HandleOpen` |
| `Exchange.ResumeServed` | SDServer/SDServer/SDConnectedClient.cs:199-216 | unbound, the client's resume request binds an open id and answers `accepted`, else answers `rejected` |
| `Exchange.CloseServed` | SDServer/SDServer/SDConnectedClient.cs:234-241 | the client's close request closes an open session, answers `closed` and unbinds, else answers the NotOpen error |
| `Exchange.GetServed` | SDServer/SDServer/SDConnectedClient.cs:259-270 | bound, the client's get request is answered with the stored document or the table's error |
| `Exchange.PostServed` | SDServer/SDServer/SDConnectedClient.cs:293-304 | bound, the client's post request stores exactly the content sent and answers `success`, else the NotOpen error |
| `Exchange.CloseTurn` | SDServer/SDServer/SDConnectedClient.cs:234-241 | a close of the bound open session as the last request ends the loop with that session closed, no binding, and `closed`/id written |
| `Exchange.GetCloseTurns` | SDServer/SDServer/SDConnectedClient.cs:259-270 | a get of a stored document followed by a close writes the document, then `closed`/id, and ends with the session closed |
| `Exchange.PostGetCloseTurns` | SDServer/SDServer/SDConnectedClient.cs:293-304 | a post, a get of the same name and a close write `success`, the posted document and `closed`/id |
| `Exchange.OpenPostGetClose` | SDServer/SDServer/SDConnectedClient.cs:83-143 | on a new table, open, post, get and close of one document are answered with accepted 1, success, the document, and closed 1 |
| `Exchange.UnreadClosedReply` | SDServer/SDClient/SDClient.cs:107-117 | the `closed` reply that the client's close leaves unread makes the next session request fail |

## Left out

- Sockets, `NetworkStream`, reader/writer construction and `Close`,
  `Socket.Connect`/`Disconnect`. The reader is the sequence of characters
  still to come, and the writer is the sequence written. `Client.Connect`
  takes the server's replies as a parameter, and connection failures are not
  modelled.
- Threads (`Start`, `ThreadProc`), the `Mutex` in `NextSessionId`, and
  console logging. The table is modelled sequentially, so interleavings of
  connections and the race at `SessionTable.cs:77` are not modelled.
- `SessionTables.SessionTable.NextSessionId`: the counter is an unbounded
  natural number. The 64-bit wrap of `nextSessionId++` after 2^64 - 1 opens
  is not modelled.
- `SessionTables.Session`: a session is a value stored in the table's map,
  not an object. The table never hands a session out, so nothing can alias
  it.
- Line ends are `"\n"` only. `StreamReader.ReadLine` also accepts `"\r\n"`
  and `"\r"`, and `WriteLine` writes the platform's newline.
- `Wire.ParseNumber`: digits only. The whitespace, signs, culture settings
  and the distinct .NET exception messages of `ulong.Parse`/`int.Parse` are
  not modelled. Every refusal, including a missing (null) line, has the one
  format message.
- `SocketException`/`IOException` in `Run` appear only as a stream that ends
  inside a posted document. That ends the loop with no reply.
- Names and documents are assumed to be ASCII. The client's reader and
  writer use ASCII encoding, which sends every other character as `?`. That
  replacement is not modelled, so `Exchange.PostServed` and
  `Exchange.DocumentRoundTrip` ("exactly the content sent") hold as stated
  only for ASCII text.
- Replies whose text contains a newline break the line framing. The round
  trips are proved for newline-free texts only.
