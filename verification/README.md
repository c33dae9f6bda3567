# AIM node: verified model of the relay session and its companions

The AIM node connects a buyer and a seller through a relay neither of them trusts.  The two ends run
a signed Diffie-Hellman handshake, derive one key and nonce prefix per direction, and exchange
sequence-numbered, authenticated frames that carry requests, responses, errors, heartbeats and
closes.  This project models that session in Dafny, layer by layer, and proves what it guarantees
whatever the relay does.  It then models eight stateful or recursive components beside it: the TOML
fallback writer, the schema sample generator, the offline usage queue, the local meter buffer, the
allAI auto-execution loop, the marketplace cache, the metrics buckets and the connector runtime.

`dafny verify dfyconfig.toml` checks everything.

## How it is built

One module per file.

| layer | modules |
|---|---|
| texts and bytes | `Results`, `Bytes`, `Text`, `Base64` (section 4 of RFC 4648), `Json` (RFC 8259) |
| cryptography as laws | `Crypto`: X25519, Ed25519, HKDF and ChaCha20-Poly1305 are function values; only their laws are used, and one lemma shows that the laws are consistent |
| frames and keys | `RelayCrypto` |
| handshake | `Handshake` (the manager and its signed texts), `HandshakeRun` (all runs of any number of managers) |
| payloads | `Protocol` |
| transport | `Transport` (the class), `SessionRun` (all runs of two endpoints), `SendRun` (sends that raise), `Heartbeat` |
| both applications | `Provider`, `Consumer`, `EndToEnd` (all runs of requests, replies and closes), `UndisturbedCall` (calls do complete), `SecureSession` (the layers composed) |
| companions | `Toml`, `SchemaSample`, `OfflineQueue`, `MeterBuffer`, `AgentLoop`, `FacadeCache`, `Metrics`, `ConnectorRuntimes` |

Each object the node updates in place is a class whose methods follow the Python statements, loops
included.  Every method is proved equal to a function of the old state, and the theorems are about
that function and about runs of it.

The relay is the adversary.  In a run of handshakes it delivers any message at any time, but a
signature that passes the check under an honest key is of a payload that key's owner signed before.
In a run of a session it delivers any bytes to either side, but bytes that open under a key were
sealed under that key by one of the two endpoints.  `HandshakeRun.HonestRun` and
`UndisturbedCall.CallCompletes` show that runs with these assumptions exist and succeed when the relay
passes messages on.

What comes from outside becomes a parameter: clocks, generated keys and uuids, the replies of the
backend, of the adapter and of the meter, which JSON values `Decimal` takes, how each socket send
ends, and whether a file can be removed.

## Where the code does less than one might expect

Each of these is proved, with the exact condition or a concrete case.

- The signed handshake texts have no delimiters.  They fix the concatenation of session id and node
  id, not the two ids (`Handshake.AcceptPayloadDetermines`); `Handshake.PayloadAmbiguity` is a
  concrete pair.  So the two ends of a handshake agree on everything but where the session id ends,
  and on that exactly when the lengths are equal (`HandshakeRun.AgreementUpToSplit`);
  `HandshakeRun.SessionsCanDiffer` is a run in which they end ESTABLISHED in different sessions, where
  they may have no key in common (`HandshakeRun.SplitKeysDiffer`).
- A CLOSE whose acknowledgement raises is accepted and never returned: `recv_frame` has returned all
  accepted non-heartbeat frames exactly when that never happened (`SessionRun.PrefixDelivery`).
- `send_frame` reads the sequence number before the await and advances it after.  The frames on the
  wire have distinct nonces exactly when every send that put one there, but the last, completed
  (`SendRun.NoncesDistinctIffSendsComplete`); `SendRun.InterruptedSendReusesNonce` is two different
  frames under one nonce.
- An adapter error whose text is longer than 500 characters is not answered at all, and the session
  ends (`Provider.ErrorAnswered`).
- An error code reaches the buyer exactly when it is non-negative with a single-line message, or is
  1006 (`Consumer.ErrorCodePreserved`, `EndToEnd.AdapterErrorArrives`).
- The TOML writer does not escape.  A document is read back as the dict it was written from exactly
  when every string leaf at every depth is free of quotes, backslashes and control characters but tab
  (`Toml.WriteRead`).
- A generated sample can fail its own schema; it matches exactly when the schema is well formed in a
  stated recursive sense (`SchemaSample.SampleMatchesItsSchema`).
- An offline queue file with a torn last line swallows the next entry (`OfflineQueue.TornFileSwallows`).
  With a service that answers every call a flush ends exactly when every entry is an object with a
  request id and a cost `Decimal` takes (`OfflineQueue.FlushEndsIff`); the first entry that is not stays
  in the queue over every run, and nothing behind it is ever recorded (`OfflineQueue.BlockedForGood`).
  `append` writes what is no object before it raises, so a refused flush loses entries exactly when one
  stands behind such a document (`OfflineQueue.FlushLeavesSuffix`, `OfflineQueue.OddEntryLoses`).  When
  the file cannot be removed a flush duplicates entries (`OfflineQueue.FlushWithoutUnlink`).
- The action cache is keyed by an id the backend chooses: all pending actions can be confirmed
  exactly when no two different ones share an id (`AgentLoop.AllConfirmableIff`).
- A mutation that takes effect but whose reply is lost leaves a stale tool list: a read is right
  exactly when no fresh copy is cached or the list is, on balance, what it was when that copy was
  fetched (`FacadeCache.StaleReadIff`).

## Model

| member | source | states |
|---|---|---|
| Bytes.DecodeEncodedInt | aim_node/core/relay_crypto.py:71-75 | big-endian fields of a frame header read back as the number that was packed |
| Bytes.EncodeDecodedInt | aim_node/core/relay_crypto.py:94-97 | and every byte string of the field's width is what its number packs to |
| Bytes.FirstByteWeighsMost | aim_node/core/relay_crypto.py:71-97 | the first byte of a field is the most significant |
| Text.DecodeEncodedUtf8 | aim_node/relay/protocol.py:64-73 | UTF-8 decoding, strict about overlong forms and surrogates, inverts encoding for every text |
| Text.Utf8Examples | aim_node/relay/protocol.py:73 | the bytes of a character of each of the four lengths |
| Text.IntToStringInjective | aim_node/core/handshake.py:244-253 | the decimal text of a timestamp, as it stands in a signed payload, determines it |
| Base64.DecodeEncoded | aim_node/relay/protocol.py:128-129 | strict base64 decoding inverts encoding for all byte strings |
| Base64.GroupsAreLetters | aim_node/relay/protocol.py:72 | three bytes are four letters with the same bits, first bits first, as section 4 of RFC 4648 has it |
| Base64.LastGroups | aim_node/relay/protocol.py:72 | a last group of one or two bytes is filled up with zero bits and padding |
| Base64.DecodedLength | aim_node/core/handshake.py:136-138 | the length of a strictly decoded text fixes its number of groups and its padding |
| Base64.KeyText | aim_node/core/handshake.py:220-221 | a text that decodes to 32 bytes has 44 characters and ends in exactly one padding sign |
| Json.LoadsDumps | aim_node/relay/protocol.py:64-80 | `json.loads(json.dumps(v)) == v` for every document with distinct keys, in both separator styles |
| Json.LoadsValid | aim_node/core/offline_queue.py:58 | every document `json.loads` yields has distinct keys, so that it can be printed and read again |
| Json.PrintGraphic | aim_node/core/offline_queue.py:33-35 | what `json.dumps` prints contains no control character, so a document is one line |
| Json.PrintExamples | aim_node/relay/protocol.py:73 | separators, escapes and literals of an object, an array and a string |
| Crypto.LawsAreConsistent | aim_node/core/relay_crypto.py:23-42 | the laws assumed of the library calls can all hold at once, for more than one set of primitives: what is derived from one given HMAC can differ from what is derived from any other |
| RelayCrypto.DerivedKeysAreGood | aim_node/core/relay_crypto.py:23-42 | derived traffic keys have the sizes the frame codec asks for, and the two directions differ |
| RelayCrypto.KeysOfExtract | aim_node/core/relay_crypto.py:23-42 | the four values are HKDF of the shared secret with the session id as salt, under the four labels: any secret and session id with the same extract have the same keys |
| RelayCrypto.KeysDependOnBoth | aim_node/core/relay_crypto.py:23-42 | for any two different pairs of secret and session id there are lawful primitives under which both keys and both nonce prefixes differ |
| RelayCrypto.DecryptEncrypted | aim_node/core/relay_crypto.py:54-112 | `decrypt_frame` returns type, sequence number and plaintext of whatever `encrypt_frame` sealed |
| RelayCrypto.EncryptDecrypted | aim_node/core/relay_crypto.py:81-112 | every frame that opens is byte for byte what sealing its contents gives |
| RelayCrypto.FrameCodecBijection | aim_node/core/relay_crypto.py:45-112 | opening to a frame and being sealed from that frame are the same relation |
| RelayCrypto.OpensIff | aim_node/core/relay_crypto.py:81-112 | exactly when a frame opens, byte by byte: where length, type and number lie, that the header is the associated data, and that the nonce is the prefix followed by the number |
| RelayCrypto.SealableFrames | aim_node/core/relay_crypto.py:54-78 | with keys of the right size, exactly the uint8 types, uint64 sequence numbers and plaintexts up to 65535 bytes can be sealed |
| RelayCrypto.NonceDeterminesSequence | aim_node/core/relay_crypto.py:45-51 | under one prefix, nonces are equal if and only if sequence numbers are |
| RelayCrypto.SequenceTracker.ValidateAndAdvance | aim_node/core/relay_crypto.py:115-132 | exactly the next expected number is accepted, and only acceptance advances the counter |
| Handshake.AcceptPayloadDetermines | aim_node/core/handshake.py:255-272 | two accept payloads are equal if and only if both keys, the timestamps and the concatenated ids are |
| Handshake.InitPayloadDetermines | aim_node/core/handshake.py:243-253 | the same for init payloads |
| Handshake.AcceptPayloadInjective | aim_node/core/handshake.py:255-272 | with session ids of equal length the accept payload fixes every field |
| Handshake.InitPayloadInjective | aim_node/core/handshake.py:243-253 | with session ids of equal length the init payload fixes every field |
| Handshake.PayloadAmbiguity | aim_node/core/handshake.py:256-271 | a pair of different accepts with the same signed text, for ids of different length |
| Handshake.PayloadKindsDiffer | aim_node/core/handshake.py:243-272 | no init payload is an accept payload |
| Handshake.HandshakeManager.Init | aim_node/core/handshake.py:80-105 | state, key pair and message after `create_init`, and no change when it raises |
| Handshake.HandshakeManager.CheckInit | aim_node/core/handshake.py:107-144 | the manager after `verify_init`, statement by statement, equals the specification `VerifyInit` |
| Handshake.HandshakeManager.Accept | aim_node/core/handshake.py:146-187 | the manager after `create_accept` equals the specification `CreateAccept`, with the message or the refusal |
| Handshake.HandshakeManager.CheckAccept | aim_node/core/handshake.py:189-233 | the manager after `verify_accept` equals the specification `VerifyAccept`, with the result or the refusal |
| Handshake.InitVerifiedIff | aim_node/core/handshake.py:107-144 | `verify_init` accepts exactly an init for the expected session and node, at most 30 seconds off, signed by the buyer over tag, ids, key and time, with a 32-byte key; any other leaves the manager FAILED |
| Handshake.AcceptCreatedIff | aim_node/core/handshake.py:146-187 | `create_accept` answers exactly for the verified session and key when the key agreement succeeds, fails the manager only for a different key, and signs over tag, ids, both keys and time |
| Handshake.AcceptVerifiedIff | aim_node/core/handshake.py:189-233 | `verify_accept` takes exactly an accept for its own session, at most 30 seconds off, signed by the seller over tag, ids, both keys and time, with a key whose agreement succeeds; the keys are those of that secret and the session, and anything else leaves the manager FAILED |
| Handshake.MessagesRoundTrip | aim_node/relay/transport.py:89-101 | both handshake messages survive the trip as sorted compact JSON |
| HandshakeRun.FinalStatesAreKept | aim_node/core/handshake.py:80-233 | an operation on an ESTABLISHED or FAILED manager changes nothing and signs nothing |
| HandshakeRun.FinalStatesAreKeptInRuns | aim_node/core/handshake.py:80-233 | so over any run such a manager stays as it is |
| HandshakeRun.InvInRuns | aim_node/core/handshake.py:80-233 | in every reachable world each signature is of the payload its origin says, and each accept whose key agreement succeeds has left its seller established with those keys |
| HandshakeRun.AcceptHasSeller | aim_node/core/handshake.py:189-233 | behind an accepted accept stands an established seller that made it for this buyer key and for ids with the same concatenation, and that computes the buyer's keys from the buyer's session id |
| HandshakeRun.ComputedKeysAreGood | aim_node/core/handshake.py:235-241 | whatever keys the computation returns have the sizes the frame codec asks for and differ between the directions |
| HandshakeRun.AgreementUpToSplit | aim_node/core/handshake.py:80-241 | in every run, an initiator that verifies an accept under an honest key becomes ESTABLISHED, and a seller with that key created an accept, at most 30 seconds off, for its ephemeral key and for ids with the same concatenation, is ESTABLISHED and computes the same traffic keys from the same session id; the two agree on both ids if and only if the session ids are of equal length |
| HandshakeRun.Agreement | aim_node/core/handshake.py:80-241 | so they agree on session id, node id and traffic keys whenever the owner of that key signs accepts for session ids of one length, whatever others sign |
| HandshakeRun.InitHasBuyer | aim_node/core/handshake.py:107-144 | in every run, a responder that verifies an init under an honest key keeps an ephemeral key that the key's owner signed at most 30 seconds off, for ids with the same concatenation, and for the same ids if and only if the session ids are of equal length |
| HandshakeRun.SplitRun | aim_node/core/handshake.py:80-233 | with clocks in step and a successful key agreement, a relay that moves the end of the session id in both messages completes a handshake between a buyer in one session and a seller in another, each with the keys of the shared secret and its own session id |
| HandshakeRun.SplitKeysDiffer | aim_node/core/handshake.py:235-241 | for any two different splits there are lawful primitives under which the two ends of that run have no key in common |
| HandshakeRun.SessionsCanDiffer | aim_node/core/handshake.py:80-233 | a concrete run: both managers ESTABLISHED, the buyer in session `s` and the seller in session `s1` |
| HandshakeRun.HonestRun | aim_node/core/handshake.py:80-233 | a relay that passes both messages on lets the handshake complete in one session |
| Protocol.PayloadRoundTrip | aim_node/relay/protocol.py:64-141 | a payload serializes if and only if its timeout is at most 300000 and its message at most 500 characters long, and then deserializes to itself |
| Protocol.DeserializedKind | aim_node/relay/protocol.py:76-141 | whatever deserializes is a valid payload of the kind of its frame, or no payload, exactly for a control frame that is empty |
| Protocol.FieldNames | aim_node/relay/protocol.py:22-62 | the fields of each kind of payload on the wire, by name |
| Protocol.WireFields | aim_node/relay/protocol.py:8-73 | the bytes are the UTF-8 text of a JSON object with exactly these fields, under the frame types 0x10 to 0x40 |
| Protocol.SerializeInjective | aim_node/relay/protocol.py:64-73 | equal bytes of one kind come from equal payloads |
| Protocol.FieldsSorted | aim_node/relay/protocol.py:64-73 | the fields are printed in the order `sort_keys` gives |
| Transport.DirectionsMirror | aim_node/relay/transport.py:267-289 | each side's outbound key and prefix are the other's inbound ones, and its two directions never share a key |
| Transport.RelayTransport.Connect | aim_node/relay/transport.py:72-109 | messages sent, manager, keys and state after `connect` for either role, also when it or its send raises |
| Transport.RelayTransport.Send | aim_node/relay/transport.py:111-123 | a completed send puts one sealed frame on the wire and advances the counter; one that raises leaves the counter, whether or not the frame went out |
| Transport.RelayTransport.Turn | aim_node/relay/transport.py:133-151 | one turn of the receive loop: heartbeats answered and dropped, acknowledgements clear the counters, closes acknowledged, the rest returned |
| Transport.TurnEffect | aim_node/relay/transport.py:133-151 | a heartbeat is answered by 0x21, a close by 0x41, nothing else is; heartbeats are not returned; only an acknowledged heartbeat clears the miss counter; each frame advances the counters by one |
| Transport.RelayTransport.Recv | aim_node/relay/transport.py:125-151 | the receive loop, until a turn returns or raises |
| Transport.RelayTransport.RecvInTime | aim_node/relay/transport.py:217 | the receive loop under a timeout, with the heartbeats it handles before the timeout |
| Transport.RelayTransport.Request | aim_node/relay/transport.py:153-186 | `send_request` waits for the first response or error that fits its trace id, and forgets the pending request on every exit |
| Transport.SettledBy | aim_node/relay/transport.py:163-183 | a payload ends a call exactly if it is the call's response, or an error for the call or for no request in particular, whose code and message it then raises |
| Transport.RelayTransport.Close | aim_node/relay/transport.py:192-225 | on every path the socket ends closed and the state CLOSED, after the frames that came in before the timeout were handled; it returns exactly on a CLOSE_ACK in time or a timeout |
| SessionRun.AcceptedIsNextSent | aim_node/core/relay_crypto.py:81-132 | a frame that opens is the next one the peer completed sending |
| SessionRun.InvInRuns | aim_node/relay/transport.py:111-151 | counters, histories and the prefix relation hold in every reachable state |
| SessionRun.PrefixDelivery | aim_node/relay/transport.py:111-151 | whatever the relay drops, repeats, reorders, reflects or invents, each side has accepted exactly a prefix, in order and once each, of what its peer sent; `recv_frame` returned the non-heartbeat frames of it if and only if no acknowledgement of a CLOSE raised, and all of them but CLOSE frames in any case |
| SessionRun.UnackedCounts | aim_node/relay/transport.py:148-149 | the frames accepted but not returned are counted by the turns that raised on a CLOSE |
| SessionRun.NoncesOfRunDistinct | aim_node/relay/transport.py:118-122 | no two frames an endpoint completed sending in a run share a nonce |
| SessionRun.EmittedOpens | aim_node/relay/transport.py:111-137 | a frame sent when everything before it has arrived opens on the other side as it was sent |
| SessionRun.TurnIsDelivery | aim_node/relay/transport.py:132-151 | one turn of the receive loop is one delivery of the run model, on a socket whose sends complete or raise before transmitting |
| SessionRun.RecvFrameIsDeliveries | aim_node/relay/transport.py:125-151 | on such a socket a whole `recv_frame` call is a run of deliveries and returns exactly what they append |
| SendRun.AfterEffect | aim_node/relay/transport.py:118-122 | an operation puts at most one frame on the wire, sealed under the current number, and only a completed send advances the number |
| SendRun.NoncesDistinctIffSendsComplete | aim_node/relay/transport.py:111-151 | over every run of an endpoint's sends and receives, however each send ends, the frames on the wire have pairwise different nonces if and only if every send that put one there, but the last, completed |
| SendRun.InterruptedSendReusesNonce | aim_node/relay/transport.py:118-122 | a send that raises after transmitting, and the next one: two different frames under one key and nonce |
| Heartbeat.HeartbeatMonitor.Suspend | aim_node/relay/transport.py:137-146 | what other tasks do to the two counters and the activity clock while the loop sleeps |
| Heartbeat.HeartbeatMonitor.Run | aim_node/relay/transport.py:227-251 | the loop, turn by turn, for any interleaving |
| Heartbeat.AcceptedIsIncident | aim_node/relay/transport.py:137-146 | what the transport does to the two heartbeat fields when it accepts a frame is the loop's incident for that frame |
| Heartbeat.SuspendedIs | aim_node/relay/transport.py:137-146 | what incidents leave behind: a loss ends the session, an acknowledgement clears the counter, the last frame is the last activity |
| Heartbeat.SendsIffIdle | aim_node/relay/transport.py:232-241 | a turn sends a heartbeat if and only if the session is established after the long sleep and nothing was sent or received for 30 seconds |
| Heartbeat.MissesIff | aim_node/relay/transport.py:232-251 | when a turn counts a miss, clears the counter, goes round, raises or closes, in terms of what happened during its three awaits |
| Heartbeat.SilenceCloses | aim_node/relay/transport.py:227-251 | three silent rounds in a row, and no fewer, close the session |
| Heartbeat.TurnConsistent | aim_node/relay/transport.py:232-249 | a turn closes the session exactly when it brings the miss counter to three |
| Heartbeat.ThreeMisses | aim_node/relay/transport.py:244-249 | three misses since the last acknowledgement are three heartbeats, each followed by its missed window |
| Heartbeat.HeartbeatSafety | aim_node/relay/transport.py:227-251 | in every interleaving the loop closes exactly after three unanswered heartbeats with no acknowledgement since the first, and the counter is below three otherwise |
| Provider.AnswerSendsChoice | aim_node/provider/session_handler.py:135-169 | on a socket whose sends complete or raise before transmitting, the try/except cascade puts out exactly one payload, or none and the session ends |
| Provider.OnFrameCases | aim_node/provider/session_handler.py:131-177 | a readable request is forwarded and an unreadable one answered with an error for no request; a readable cancellation is acknowledged under its id and an unreadable one ends the session; other frames are passed over |
| Provider.ErrorAnswered | aim_node/provider/session_handler.py:148-169 | a failed request is answered, with the adapter's own code and text or with 1001 and the exception, if and only if the message has at most 500 characters, the error fits a frame and its send completes |
| Provider.OrdinaryErrorFits | aim_node/relay/protocol.py:136-138 | with a trace id and code of ordinary length, any such error fits a frame |
| Provider.ForwardedAnswered | aim_node/provider/session_handler.py:139-169 | a forwarded body is answered by a response with the request's trace id and sequence and the adapter's body and latency, if a frame can hold it and its send completes, else by an error that names the limit or the failed send, if a frame can hold that and its send completes, else not at all |
| Provider.ProviderSessionHandler.SendOn | aim_node/provider/session_handler.py:147-169 | serializing and sending one payload on a transport |
| Provider.ProviderSessionHandler.ServeLoop | aim_node/provider/session_handler.py:126-177 | the endless loop, on any input, adapter and socket |
| Provider.ProviderSessionHandler.ProcessSession | aim_node/provider/session_handler.py:126-187 | when the loop ends, exactly this session and task are forgotten, and the transport is where serving and then `close` leave it |
| Consumer.MatchedError | aim_node/consumer/session_manager.py:26 | the error pattern reads a non-negative code back with the line of the message, if and only if the message is a single line |
| Consumer.NegativeUnmatched | aim_node/consumer/session_manager.py:26 | a negative code never matches |
| Consumer.ErrorCodePreserved | aim_node/consumer/session_manager.py:196-225 | the code survives if and only if it is non-negative with a single-line message, or is 1006 |
| Consumer.ErrorTextRead | aim_node/consumer/session_manager.py:213-218 | code and message of the error made of any error text: those it carries, or 1006 with the whole text |
| Consumer.MessagePreserved | aim_node/consumer/session_manager.py:213-218 | a one-line message without white space in front arrives unchanged |
| Consumer.SessionManager.Invoke | aim_node/consumer/session_manager.py:107-225 | result, request counter and transport after `invoke`, for every session mode: the request that goes out, field by field, and what is made of its response or error |
| EndToEnd.InvInRuns | aim_node/provider/session_handler.py:126-187 | in every run, with either side closing at any time, requests, handled requests and replies correspond one to one and in order |
| EndToEnd.RepliesInRequestOrder | aim_node/provider/session_handler.py:126-187 | in every such run the seller handles requests in the order they were sent and replies once to each, in that order; all other frames either side sends are heartbeats, closes and their acknowledgements |
| EndToEnd.SettledByReply | aim_node/relay/transport.py:163-183 | a reply that ends a call carries the call's trace id and ends it with the adapter's body and latency under the request's ids, or with the exact error text for that request |
| EndToEnd.QuietSettlesNothing | aim_node/relay/transport.py:163-183 | a CLOSE or CLOSE_ACK that reaches a waiting call ends nothing |
| EndToEnd.Correlation | aim_node/relay/transport.py:153-186 | in every run, closes included, when an accepted frame ends a call, the seller has handled exactly this request last and the result is the adapter's outcome for it: its body and latency under the request's own ids, or code and text of the error |
| EndToEnd.AnswerArrives | aim_node/consumer/session_manager.py:220-225 | for such a result `invoke` returns the adapter's body and latency, with the trace id and the sequence of the request that was handled |
| EndToEnd.ErrorArrives | aim_node/consumer/session_manager.py:213-218 | or raises the error's code with the line of its message, or 1006 with the whole text, as the code and the message decide |
| EndToEnd.AdapterErrorArrives | aim_node/consumer/session_manager.py:196-225 | an adapter error reaches the buyer with the same code if and only if the code is non-negative with a single-line message, or is 1006 |
| EndToEnd.AwaitReplyTakesTurns | aim_node/relay/transport.py:163-183 | the waiting loop on a socket whose sends complete or raise before transmitting takes exactly the buyer's turns of the run model |
| EndToEnd.ServeTakesRounds | aim_node/provider/session_handler.py:126-177 | the serving loop on a socket whose sends complete or raise before transmitting takes exactly the seller's turns and replies of the run model |
| EndToEnd.ShutBegins | aim_node/relay/transport.py:199-215 | `close` begins with the close event of the run model |
| EndToEnd.ShutTakesTurns | aim_node/relay/transport.py:216-225 | and its wait takes exactly the turns of a leaving side |
| UndisturbedCall.CallCompletes | aim_node/relay/transport.py:153-186 | from any reachable idle state, if request and answer can be sent and both frames are passed on, the call ends with that answer |
| SecureSession.ConnectInitiatorIsHandshake | aim_node/relay/transport.py:89-95 | a successful `connect` of the initiator is a handshake of the run model, in any world of other managers, with the keys of its result |
| SecureSession.ConnectResponderIsHandshake | aim_node/relay/transport.py:96-105 | a successful `connect` of the responder is one too, with the keys its manager computes from its own session id |
| SecureSession.ConnectsBoth | aim_node/relay/transport.py:72-109 | when the relay delivers each side's message to the other, both `connect` calls return, with the keys of the shared secret and the session |
| SecureSession.KeysMakeSession | aim_node/relay/transport.py:72-109 | a seller that agrees on the session id has the buyer's keys, so that the two transports are the two fresh endpoints of one session |
| SecureSession.SoundWithSeller | aim_node/relay/transport.py:72-225 | every session with a seller that agrees, each transport under the keys of its own `connect`, delivers prefixes and correlated results throughout |
| SecureSession.SessionSafety | aim_node/relay/transport.py:72-225 | the layers composed: when a buyer's `connect` succeeds against an honest key in any run of handshakes, a seller agrees with it but for where the session id ends, altogether if and only if the lengths are equal, and then every session with any `connect` that left that seller's manager as it is, each side under its own keys, is sound throughout |
| Toml.WriteToml | aim_node/management/config_writer.py:50-71 | the two loops and the recursion write exactly the specified lines |
| Toml.StringLeafSurvives | aim_node/management/config_writer.py:61-62 | the text of one string value is read as that string if and only if it has no quote, backslash or control character but tab |
| Toml.ValueSurvives | aim_node/management/config_writer.py:57-64 | every writable leaf reads back as itself from a single line |
| Toml.LeavesThenTables | aim_node/management/config_writer.py:50-71 | splitting a dict into leaves and tables loses nothing |
| Toml.MarkComesOut | aim_node/management/config_writer.py:62 | a quote, a line end and a key character inside a multi-line string come out of it, no later than they went in |
| Toml.LeafStays | aim_node/management/config_writer.py:22-32 | a leaf that was read is never changed by what is read later |
| Toml.NotReadBack | aim_node/management/config_writer.py:61-62 | whatever follows the line written for a string that is not plain, no document that begins with it gives its key that string, with one-line and multi-line strings read |
| Toml.WriteRead | aim_node/management/config_writer.py:22-71 | for every dict with distinct bare keys, reading what the fallback wrote rebuilds the dict, at any depth, empty tables included, if and only if every string leaf is free of quotes, backslashes and control characters but tab |
| SchemaSample.Sample | aim_node/management/tools.py:109-133 | `_minimal_value` with its loop over the required keys, errors included |
| SchemaSample.FillGet | aim_node/management/tools.py:115-124 | the filled dict holds, under every key, exactly the sample that key got |
| SchemaSample.FilledMatches | aim_node/management/tools.py:136-163 | a filled object passes the checker if and only if each required key's sample passes its own schema |
| SchemaSample.SampleMatchesItsSchema | aim_node/management/tools.py:109-163 | for every schema tree, the sample matches its schema if and only if the schema is hereditarily well formed |
| SchemaSample.LeafTable | aim_node/management/tools.py:125-163 | what is generated and what is accepted for each type but objects |
| OfflineQueue.WrittenLine | aim_node/core/offline_queue.py:34-35 | an appended line becomes a line of its own if and only if what follows the last line end is blank |
| OfflineQueue.AppendAdds | aim_node/core/offline_queue.py:27-61 | an append below 50 lines, malformed ones counted, adds exactly its entry at the end, and raises after that if the entry is no object |
| OfflineQueue.TornFileSwallows | aim_node/core/offline_queue.py:34-44 | to a file with a torn last line an append adds no line |
| OfflineQueue.IdOfIff | aim_node/core/offline_queue.py:83-90 | an entry can be sent if and only if it is an object with a request id and a cost `Decimal` takes, "0.00" if it names none |
| OfflineQueue.ReappendKeepsAll | aim_node/core/offline_queue.py:105-109 | the re-append inside `flush` is never rejected; it restores exactly the remaining entries if and only if none stands behind a document that is no object, and raises if and only if there is one |
| OfflineQueue.SentAreRecorded | aim_node/core/offline_queue.py:82-100 | the send loop records every entry it counts, nothing but entries, and none twice |
| OfflineQueue.FlushLeavesSuffix | aim_node/core/offline_queue.py:75-112 | a flush whose send loop raises leaves the file alone; any other leaves exactly the unsent suffix in order, if and only if it was not refused while an entry stood behind a document that is no object |
| OfflineQueue.OddEntryLoses | aim_node/core/offline_queue.py:102-109 | a concrete loss: an entry, a number and an entry, and a refused first call |
| OfflineQueue.FlushEffect | aim_node/core/offline_queue.py:75-112 | file, recorded usage and count after any flush, in all its branches, whether or not the file can be removed |
| OfflineQueue.FlushWithoutUnlink | aim_node/core/offline_queue.py:68-109 | when the file cannot be removed, the suffix claim holds if and only if the first call refuses the first entry and the queue is full |
| OfflineQueue.FlushEndsIff | aim_node/core/offline_queue.py:83-104 | with a service that answers every call, a flush ends, and empties the queue, if and only if every entry is an object with a request id and a cost `Decimal` takes |
| OfflineQueue.BlockedForGood | aim_node/core/offline_queue.py:83-112 | over every run, the first entry that cannot be sent stays in the queue, in place, and only entries before it are ever recorded; all entries behind it stay too, as long as no flush is a losing one |
| OfflineQueue.ExactlyOnce | aim_node/core/offline_queue.py:27-112 | over every run none is recorded twice and the file holds at most 50 lines; without a losing flush each accepted entry is in the queue or recorded, and while the file can be removed the queue is exactly the unsent end of what was accepted, in order; entries sent and queued add up to those accepted if and only if no flush was a losing one |
| OfflineQueue.OnlyAcceptedRecorded | aim_node/core/offline_queue.py:75-112 | nothing is recorded that was not accepted |
| OfflineQueue.Meter.Record | aim_node/core/offline_queue.py:84-92 | the idempotent service: 409 for what it has recorded, and errors or exceptions before or after recording |
| OfflineQueue.Queue.LoadLines | aim_node/core/offline_queue.py:39-56 | the loop over the file's lines, blank ones skipped, the rest stripped |
| OfflineQueue.Queue.Entries | aim_node/core/offline_queue.py:48-61 | `read_all`: the documents of the well-formed lines |
| OfflineQueue.Queue.Add | aim_node/core/offline_queue.py:27-37 | file and result after `append`, also of what is no object |
| OfflineQueue.Queue.FlushTo | aim_node/core/offline_queue.py:75-112 | file, recorded usage and result after `flush`, also when it raises |
| MeterBuffer.LocalMeterBuffer.Put | python/aim_node/gateway_v2/meter.py:185-207 | the whole buffer after `enqueue`, in its four branches |
| MeterBuffer.EnqueueIff | python/aim_node/gateway_v2/meter.py:185-207 | an event is accepted if and only if the buffer is not degraded or closed, its deadline has not passed and there is room; what acceptance and each refusal change |
| MeterBuffer.LocalMeterBuffer.DrainTo | python/aim_node/gateway_v2/meter.py:209-219 | the buffer and the requests handed over after `drain`, also when `send` raises |
| MeterBuffer.LocalMeterBuffer.Degrade | python/aim_node/gateway_v2/meter.py:221-225 | the state after `mark_degraded` |
| MeterBuffer.DrainSplits | python/aim_node/gateway_v2/meter.py:213-219 | a drain splits the queue into what was handed over and what is left, and resets the deadline only when it returns |
| MeterBuffer.InvStep | python/aim_node/gateway_v2/meter.py:185-225 | every operation keeps order, depth limit, drop count and the deadline rule |
| MeterBuffer.BufferConserves | python/aim_node/gateway_v2/meter.py:185-225 | over every run, accepted events are those handed to `send` followed by the queue, in order; at most one is dropped; and events accepted under a running deadline met it |
| MeterBuffer.DeadlineRuns | python/aim_node/gateway_v2/meter.py:185-219 | over every run, the deadline runs from the first event since the last finished drain that brought the depth to the threshold, and if there is none it does not run |
| MeterBuffer.BlockedForever | python/aim_node/gateway_v2/meter.py:185-225 | once degraded or fail-closed the queue and the drop count never change again |
| AgentLoop.AllAI.Sort | aim_node/management/allai.py:509-526 | the sorting loop |
| AgentLoop.AllAI.RunAll | aim_node/management/allai.py:544-557 | the execution loop, up to the first failure |
| AgentLoop.AllAI.ChatWith | aim_node/management/allai.py:486-571 | result, posts and action cache after a chat, for every series of replies |
| AgentLoop.AllAI.ConfirmAction | aim_node/management/allai.py:574-591 | cache and outcome after a confirm request |
| AgentLoop.SortingConserves | aim_node/management/allai.py:509-526 | every proposed action is exactly once automatic or pending |
| AgentLoop.SortingKinds | aim_node/management/allai.py:509-526 | exactly the allowed actions that need no confirmation are executed at once; all others are kept and marked |
| AgentLoop.ExecuteIff | aim_node/management/allai.py:421-436 | an execution ends with a result if and only if the tool is allowed at that moment, is one of the six with a handler, and the handler returned it |
| AgentLoop.ExecutionComplete | aim_node/management/allai.py:544-557 | a round executes its actions in order, each with its handler's result, all of them or up to the first that fails, and none is executed wrongly |
| AgentLoop.RoundsConserve | aim_node/management/allai.py:493-560 | from any balanced round on, the conservation claim holds |
| AgentLoop.ChatConserves | aim_node/management/allai.py:493-563 | a chat that returns made at most 5 posts and 4 execution rounds, every proposed action is exactly once executed or pending, every executed one was allowed and needed no confirmation, and the backend was told a prefix of the results |
| AgentLoop.ChatEnds | aim_node/management/allai.py:493-563 | a chat stops at the first reply that leaves something to confirm or proposes nothing to execute, or at the fifth, and each executed action has the result of its own attempt |
| AgentLoop.AllConfirmableIff | aim_node/management/allai.py:439-444 | every pending action can be confirmed if and only if no two different ones share an id |
| AgentLoop.SettledOnce | aim_node/management/allai.py:574-591 | over any series of confirm requests an action is settled at most once, and executed only if approved, allowed then and with a handler |
| FacadeCache.MarketplaceFacade.Request | aim_node/management/facade.py:90-153 | outcome of `_request`, with a second call exactly after a refreshed 401 and one refresh exactly after a 401 |
| FacadeCache.RequestOutcomeIs | aim_node/management/facade.py:90-153 | a request returns its first reply, or the second one after a refreshed 401; it fails with 401 when denied, 504 on a timeout, else 502 |
| FacadeCache.MarketplaceFacade.GetCache | aim_node/management/facade.py:155-164 | a lookup, which forgets an expired entry |
| FacadeCache.MarketplaceFacade.InvalidateCache | aim_node/management/facade.py:169-176 | exactly the entries whose key starts with the prefix go |
| FacadeCache.MarketplaceFacade.Get | aim_node/management/facade.py:53-69 | result and cache after `get`; an entry that has not expired is returned without any call |
| FacadeCache.KeyDeterminesRequest | aim_node/management/facade.py:61 | no other request has the cache key of a request without params |
| FacadeCache.ChangeForgets | aim_node/management/marketplace.py:37-100 | an applied mutation forgets exactly what is cached under paths that begin with the node's tools |
| FacadeCache.CachedReadsRefine | aim_node/management/marketplace.py:37-100 | in every sequential run without a lost reply, a cached tool list is what an uncached read would return |
| FacadeCache.CopyIsOfItsTime | aim_node/management/facade.py:53-69 | a cached tool list is the backend's at the last fetch, after which nothing took it away |
| FacadeCache.StaleReadIff | aim_node/management/marketplace.py:37-100 | in every run, whatever replies were lost, a read is right if and only if no fresh copy is cached or the list is what it was when that copy was fetched |
| FacadeCache.FreshCopyServes | aim_node/management/facade.py:53-69 | a fetched tool list stays in the cache for 30 seconds, as long as nothing replaces it |
| FacadeCache.ReturnedWithinTtl | aim_node/management/facade.py:155-167 | no entry is returned later than its TTL after it was stored |
| Metrics.BucketStartIsSlot | aim_node/management/metrics.py:153-160 | subtracting minutes, seconds and microseconds is rounding down to a five-minute slot |
| Metrics.MetricsCollector.Load | aim_node/management/metrics.py:52-78 | the collector a node finds on disk |
| Metrics.MetricsCollector.EnsureCurrentBucket | aim_node/management/metrics.py:153-174 | the history after the current bucket was opened, and what fell out of it |
| Metrics.MetricsCollector.Record | aim_node/management/metrics.py:84-97 | the collector after one call |
| Metrics.MetricsCollector.Points | aim_node/management/metrics.py:132-151 | the loop of `series_for` |
| Metrics.OpenBucket | aim_node/management/metrics.py:162-174 | opening a bucket moves calls and errors from the history to the evicted buckets and loses none |
| Metrics.RecordConserves | aim_node/management/metrics.py:84-97 | recording keeps totals equal to history plus evicted, and a bucket's sum its average times its calls |
| Metrics.RecordOrders | aim_node/management/metrics.py:153-174 | under a clock that does not go back, slots stay strictly increasing |
| Metrics.ReloadDrift | aim_node/management/metrics.py:58-78 | flush and reload keep a bucket's slot and counts and change its latency sum by at most 0.0005 times its calls |
| Metrics.ReloadTwice | aim_node/management/metrics.py:58-78 | the drift does not add up: a second flush and reload changes nothing |
| Metrics.MetricsConserve | aim_node/management/metrics.py:52-97 | over every run of calls, flushes and restarts, history and evicted buckets sum to the totals, at most 2016 buckets are kept, and they are strictly increasing five-minute slots |
| Metrics.TotalsCountCalls | aim_node/management/metrics.py:52-97 | the totals count the calls, and the errors among them, that no restart forgot |
| Metrics.BucketsHoldTheirCalls | aim_node/management/metrics.py:84-97 | each kept bucket has exactly the calls and errors of its five minutes, and, without a restart, the sum of their latencies |
| Metrics.PointPerBucket | aim_node/management/metrics.py:138-150 | one point for each bucket, in order, with its calls, its errors or its average latency, as asked for |
| Metrics.SeriesIsSuffix | aim_node/management/metrics.py:132-151 | in every run `series_for` returns exactly the buckets that began within the last hour, day or week, each with the number asked for |
| ConnectorRuntimes.BindsIff | python/aim_node/gateway_v2/invoke.py:199-219 | a grant binds a request if and only if it is readable, active, unexpired and agrees on all nine terms |
| ConnectorRuntimes.FirstFailedField | python/aim_node/gateway_v2/invoke.py:217-219 | the reported mismatch is the first failing check |
| ConnectorRuntimes.UnboundRefusal | python/aim_node/gateway_v2/invoke.py:199-219 | what a grant that does not bind is refused with: the first term that disagrees, by name |
| ConnectorRuntimes.AdmittedIff | python/aim_node/gateway_v2/invoke.py:155-165 | a call is admitted if and only if its grant binds, neither trust nor grant is revoked, it resumes only where that is supported, and fewer calls than the limit run for its grant |
| ConnectorRuntimes.RefusalOrder | python/aim_node/gateway_v2/invoke.py:155-165 | state, message and retry time of each refusal, in the order of the checks |
| ConnectorRuntimes.ConnectorRuntime.Invoke | python/aim_node/gateway_v2/invoke.py:144-197 | for arbitrarily nested calls, the counter of each grant equals the number of its running calls whenever foreign code runs, and is restored on every exit; the result is that of the model without a counter |
| ConnectorRuntimes.ConnectorRuntime.Stream | python/aim_node/gateway_v2/invoke.py:168-195 | the streaming loop with its running sums |
| ConnectorRuntimes.StreamStops | python/aim_node/gateway_v2/invoke.py:171-195 | the loop ends at the first item that stops it, said of sums over the items instead of running counters |
| ConnectorRuntimes.CompletesIff | python/aim_node/gateway_v2/invoke.py:144-197 | a call completes if and only if it is admitted, in these terms, and no item stops it |
| ConnectorRuntimes.CompletedReports | python/aim_node/gateway_v2/invoke.py:180-195 | a completed call reports exactly the byte sum and the chunk count, both within the caps, and its milliseconds, retries, connector, route and id |
| ConnectorRuntimes.FailureStopsAtFirst | python/aim_node/gateway_v2/invoke.py:172-179 | a cap failure comes at the first chunk that crosses a cap |
| ConnectorRuntimes.ConcurrencyBound | python/aim_node/gateway_v2/invoke.py:163-167 | an admitted call keeps its grant within its own concurrency limit |

## Left out

Session.

- Interleaved sends: `send_frame` is one step, and at most one `send_request` is outstanding, as the code gives no atomicity across its awaits.  Setting another request's pending future is therefore not modelled.
- Sends that raise after transmitting are modelled in `Transport`, `Provider` and `SendRun`; the runs of `SessionRun` and `EndToEnd`, and the lemmas that tie sockets to them, are for sends that complete or raise before transmitting, as ordering is lost otherwise.
- Two tasks that read one socket at once: in `EndToEnd` a side that closes ends its own wait for frames, and a frame `close` takes is lost to it.
- Timing other than the heartbeat loop's clock readings, the close timeout and the handshake's clock skew; task cancellation; the request semaphore.
- WebSocket mechanics: whether a handshake text travels as a text or a binary message is not told apart; it is carried as its UTF-8 bytes.
- JSON documents whose fields have the wrong type: the model's decoders refuse them where Python's dataclasses would store them and fail later.
- NaN, Infinity and lone surrogates in JSON and in strings, JSON bytes in UTF-16 or UTF-32, and Python's limit on the digits of an integer.
- Unicode digits and Unicode white space in the error-code pattern; only ASCII ones are read.
- The wording of `ValueError` messages, where only the kind of error matters.
- HandshakeRun.Agreement: for session ids of one length among the accepts of the checked key, as `Handshake.PayloadAmbiguity` shows is needed; `HandshakeRun.AgreementUpToSplit` has no such premise.
- Direct-mode HTTP invocations (their result is a parameter of `Consumer.SessionManager.Invoke`), `connect` and negotiation with the marketplace, keepalive loops, health loop, session listing.
- The inside of the cryptographic primitives and the encrypted key store.

Companions.

- Toml.WriteRead: the reader covers bare keys, dotted headers, basic and multi-line basic strings with all escapes, comments, booleans and numbers, and refuses quoted and dotted keys, literal strings, arrays, inline tables, dates and a header for a table made implicitly.  What it refuses can only follow the first string leaf that is not plain, whose key has by then its final value; floats are carried as their text.  Lists and None, which the writer passes over, are absent from the tree that is rebuilt.
- SchemaSample: `required` entries that are not strings, and numbers that are not finite.
- OfflineQueue: numbers keep their text, so that a float is printed as it was read; the branch of `count` for an unreadable file, a crash between clearing and re-appending, and overlapping append and flush.
- MeterBuffer: the contents of requests, spans and returned meter events.
- AgentLoop: building the context, the reply text, the inside of the tool handlers.
- FacadeCache: error texts, the staleness of endpoints other than the tool list, and a read that is in flight while a mutation runs.
- Metrics: the ISO text of timestamps; latencies are reals, so floating-point rounding other than `round(x, 3)` is not modelled; a flush writes both stores at once; stored items that are not dicts, and unknown range or metric names.
- ConnectorRuntimes: invokes that overlap without nesting, dates without a time zone, and an unreadable clock.
- HTTP clients, route handlers, CLI, setup wizard, process manager, configuration checks, frontend and TypeScript clients.
